/** The account state machine (machine/mod.rs) and the decision step of the
    state-machine library it is built on.

    The library's `Machine::decide` is not part of this model; its semantics
    are an explicit assumption, stated once in `Decide`: if the current state
    is registered, its `exit` hook runs once, then the first outgoing
    transition whose guard holds on the resulting context fires, moving the
    machine to its target and running the target's `entry` hook when the
    target is registered; an unregistered current state does nothing. */
module Machine {
  import opened Wrappers
  import opened Command
  import opened Event
  import opened Context
  import opened NewState

  datatype States = New | Created

  /** The one guard shape used: "a command is present and its name is". */
  datatype Guard = CommandNamed(name: string)

  /** A pre-action attached to a transition. */
  datatype Action = Action(name: string)

  datatype Transition = Transition(target: States, guard: Guard, preActions: seq<Action>)

  /** Which hook implementation a registered state uses. */
  datatype Behaviour = NewBehaviour

  datatype StateDef = StateDef(behaviour: Behaviour, transitions: seq<Transition>)

  datatype AccountMachine = AccountMachine(current: States, states: map<States, StateDef>)

  /** A machine and context after `decide`, with the hash calls made. */
  datatype Decision = Decision(machine: AccountMachine, context: AccountContext, hashCalls: seq<HashCall>)

  /** Evaluate a guard. It reads the command slot only. */
  predicate GuardHolds(g: Guard, c: AccountContext) {
    match g
    case CommandNamed(name) => GetCommand(c).Some? && ToString(GetCommand(c).value) == name
  }

  /** The guard of the `New -> Created` transition. */
  const CreateGuard := CommandNamed(CreateAccountName)

  /** `create_account_machine`: one registered state, `New`, with one
      transition to `Created` guarded by `CreateGuard` and no pre-actions. */
  function CreateAccountMachine(initial: States): (r: AccountMachine)
    ensures r.current == initial
    ensures r.states.Keys == {New}
    ensures r.states[New].behaviour == NewBehaviour
    ensures r.states[New].transitions == [Transition(Created, CreateGuard, [])]
  {
    AccountMachine(initial, map[New := StateDef(NewBehaviour, [Transition(Created, CreateGuard, [])])])
  }

  /** Run a behaviour's `exit` hook. */
  function RunExit(b: Behaviour, c: AccountContext, hasher: Hasher, draw: Fresh): Hooked
    requires GetCommand(c).Some?
  {
    match b
    case NewBehaviour => Exit(c, hasher, draw)
  }

  /** Run a behaviour's `entry` hook. */
  function RunEntry(b: Behaviour, c: AccountContext): AccountContext {
    match b
    case NewBehaviour => Entry(c)
  }

  /** The first transition, in registration order, whose guard holds. */
  function FirstEnabled(ts: seq<Transition>, c: AccountContext): (r: Option<Transition>)
    ensures r.None? <==> forall i :: 0 <= i < |ts| ==> !GuardHolds(ts[i].guard, c)
    ensures r.Some? ==> exists i :: && 0 <= i < |ts| && ts[i] == r.value && GuardHolds(ts[i].guard, c)
                                    && forall j :: 0 <= j < i ==> !GuardHolds(ts[j].guard, c)
  {
    if |ts| == 0 then None
    else if GuardHolds(ts[0].guard, c) then Some(ts[0])
    else
      var rest := FirstEnabled(ts[1..], c);
      assert forall i :: 1 <= i < |ts| ==> ts[i] == ts[1..][i - 1];
      rest
  }

  /** The assumed `Machine::decide`. `exit` unwraps the command, so a
      registered current state needs one. */
  function Decide(m: AccountMachine, c: AccountContext, hasher: Hasher, draw: Fresh): (r: Decision)
    requires m.current in m.states ==> GetCommand(c).Some?
    ensures m.current !in m.states ==> r == Decision(m, c, [])
    ensures m.current in m.states ==> |r.hashCalls| == 1
    ensures r.machine.states == m.states
    ensures GetCommand(r.context) == GetCommand(c)
  {
    if m.current !in m.states then Decision(m, c, [])
    else
      var def := m.states[m.current];
      var exited := RunExit(def.behaviour, c, hasher, draw);
      match FirstEnabled(def.transitions, exited.context)
      case None => Decision(m, exited.context, exited.hashCalls)
      case Some(t) =>
        var entered := if t.target in m.states then RunEntry(m.states[t.target].behaviour, exited.context)
                       else exited.context;
        Decision(m.(current := t.target), entered, exited.hashCalls)
  }

  // ---------------------------------------------------------------------
  // Properties of the account machine

  /** The guard holds iff a command is present: every command is named
      "CreateAccount". */
  lemma CreateGuardIffCommand(c: AccountContext)
    ensures GuardHolds(CreateGuard, c) <==> GetCommand(c).Some?
  {
  }

  /** The guard ignores the event and error slots, so a failed hash does not
      by itself block the transition. */
  lemma GuardReadsOnlyCommand(g: Guard, c: AccountContext, ev: Option<AccountEvent>, err: Option<ContextError>)
    ensures GuardHolds(g, c) == GuardHolds(g, c.(event := ev, error := err))
  {
  }

  /** No state is registered for `Created`: deciding there changes nothing
      and calls no service. */
  lemma CreatedIsFinal(c: AccountContext, hasher: Hasher, draw: Fresh)
    ensures Decide(CreateAccountMachine(Created), c, hasher, draw)
            == Decision(CreateAccountMachine(Created), c, [])
  {
  }

  /** From `New` with a command, the machine always lands in `Created`,
      hashes once, and holds an event iff hashing succeeded (starting from an
      empty event slot). */
  lemma DecideFromNew(c: AccountContext, hasher: Hasher, draw: Fresh)
    requires GetCommand(c).Some? && GetEvent(c).None?
    ensures var r := Decide(CreateAccountMachine(New), c, hasher, draw);
            var h := hasher(GetServices(c), GetCommand(c).value.create.password);
            && r.machine.current == Created
            && r.hashCalls == [HashCall(GetServices(c), GetCommand(c).value.create.password)]
            && (GetEvent(r.context).Some? <==> h.Ok?)
            && (h.Ok? ==> GetEvent(r.context) == Some(CreatedEvent(GetCommand(c).value.create, h.value, draw)))
            && (h.Err? ==> GetError(r.context) == Some(ContextError(HashFailureMessage)))
  {
    var exited := Exit(c, hasher, draw);
    assert GuardHolds(CreateGuard, exited.context);
  }
}
