/** What the SQL engine contributes to the repository's queries:
    `ORDER BY sequence ASC` over envelopes and `ORDER BY key DESC LIMIT 1`
    over any rows, both under the TEXT order of `TextOrder`. */
module SqlSelect {
  import opened Aggregate
  import opened TextOrder

  predicate SortedBySequence(s: seq<EventEnvelope>) {
    forall i, j :: 0 <= i < j < |s| ==> AtMost(s[i].sequence, s[j].sequence)
  }

  /** Every element of `s` sorts at or after `x`. */
  predicate AllAtLeast(x: string, s: seq<EventEnvelope>) {
    forall j :: 0 <= j < |s| ==> AtMost(x, s[j].sequence)
  }

  lemma LeadsSorted(x: EventEnvelope, s: seq<EventEnvelope>)
    requires SortedBySequence(s) && |s| > 0 && AtMost(x.sequence, s[0].sequence)
    ensures AllAtLeast(x.sequence, s)
  {
    forall j | 0 <= j < |s|
      ensures AtMost(x.sequence, s[j].sequence)
    {
      AtMostTotalOrder(x.sequence, s[0].sequence, s[j].sequence);
    }
  }

  /** Insert `x` into a sorted sequence, after the elements it does not
      precede. */
  function InsertBySequence(x: EventEnvelope, s: seq<EventEnvelope>): (r: seq<EventEnvelope>)
    requires SortedBySequence(s)
    ensures SortedBySequence(r)
    ensures multiset(r) == multiset(s) + multiset{x}
    ensures forall y :: y in r ==> y == x || y in s
    decreases |s|
  {
    if |s| == 0 then [x]
    else if AtMost(x.sequence, s[0].sequence) then
      LeadsSorted(x, s);
      [x] + s
    else
      var rest := InsertBySequence(x, s[1..]);
      NotAtMostIsAbove(x.sequence, s[0].sequence);
      HeadPrecedesInsert(x, s, rest);
      assert s == [s[0]] + s[1..];
      [s[0]] + rest
  }

  lemma HeadPrecedesInsert(x: EventEnvelope, s: seq<EventEnvelope>, rest: seq<EventEnvelope>)
    requires SortedBySequence(s) && |s| > 0 && Below(s[0].sequence, x.sequence)
    requires forall y :: y in rest ==> y == x || y in s[1..]
    requires SortedBySequence(rest)
    ensures SortedBySequence([s[0]] + rest)
  {
    var r := [s[0]] + rest;
    forall i, j | 0 <= i < j < |r|
      ensures AtMost(r[i].sequence, r[j].sequence)
    {
      if i == 0 {
        assert r[j] in rest;
        if r[j] != x {
          var k :| 0 <= k < |s[1..]| && s[1..][k] == r[j];
          assert s[k + 1] == r[j];
        }
      } else {
        assert r[i] == rest[i - 1] && r[j] == rest[j - 1];
      }
    }
  }

  /** `ORDER BY sequence ASC`: a sorted permutation. */
  function SortBySequence(s: seq<EventEnvelope>): (r: seq<EventEnvelope>)
    ensures SortedBySequence(r)
    ensures multiset(r) == multiset(s)
    decreases |s|
  {
    if |s| == 0 then []
    else
      assert s == [s[0]] + s[1..];
      InsertBySequence(s[0], SortBySequence(s[1..]))
  }

  /** The position of a greatest element under `key`: the row
      `ORDER BY key DESC LIMIT 1` returns. */
  function ArgMax<T>(s: seq<T>, key: T -> string): (i: nat)
    requires |s| > 0
    ensures i < |s|
    ensures forall j :: 0 <= j < |s| ==> AtMost(key(s[j]), key(s[i]))
    decreases |s|
  {
    if |s| == 1 then 0
    else
      var k := ArgMax(s[1..], key) + 1;
      assert forall j :: 1 <= j < |s| ==> AtMost(key(s[j]), key(s[k])) by {
        forall j | 1 <= j < |s| ensures AtMost(key(s[j]), key(s[k])) {
          assert s[j] == s[1..][j - 1];
        }
      }
      if AtMost(key(s[0]), key(s[k])) then k
      else
        NotAtMostIsAbove(key(s[0]), key(s[k]));
        MaxStep(s, key, k);
        0
  }

  lemma MaxStep<T>(s: seq<T>, key: T -> string, k: nat)
    requires 0 < k < |s|
    requires forall j :: 1 <= j < |s| ==> AtMost(key(s[j]), key(s[k]))
    requires Below(key(s[k]), key(s[0]))
    ensures forall j :: 0 <= j < |s| ==> AtMost(key(s[j]), key(s[0]))
  {
    forall j | 1 <= j < |s|
      ensures AtMost(key(s[j]), key(s[0]))
    {
      AtMostTotalOrder(key(s[j]), key(s[k]), key(s[0]));
    }
  }
}
