/** The GraphQL shapes of an account (dtos/transport/graphql.rs). The email
    validation attribute belongs to a validation library and is not part of
    the model. */
module GraphQLDto {
  import opened Wrappers
  import opened Event
  import opened Aggregate

  /** `GraphQLAccount`: the public view of an account. */
  datatype GraphQLAccount = GraphQLAccount(id: Option<string>, email: Option<string>, created_at: Option<DateTime>)

  /** `GraphQLCreateAccountInput`. */
  datatype GraphQLCreateAccountInput = GraphQLCreateAccountInput(email: string, password: string)

  /** `From<AccountAggregate> for GraphQLAccount`. */
  function FromAggregate(a: AccountAggregate): (r: GraphQLAccount)
    ensures r.id == a.id && r.email == a.email && r.created_at == a.created_at
  {
    GraphQLAccount(a.id, a.email, a.created_at)
  }

  /** The view depends on identity, email and creation time only: the hash,
      status, last event and counter never reach a client. */
  lemma FromAggregateHidesSecrets(a: AccountAggregate, b: AccountAggregate)
    ensures FromAggregate(a) == FromAggregate(b) <==>
              a.id == b.id && a.email == b.email && a.created_at == b.created_at
  {
  }

  /** `GraphQLCreateAccountInput::new`. */
  function NewInput(email: string, password: string): (r: GraphQLCreateAccountInput)
    ensures r.email == email && r.password == password
  {
    GraphQLCreateAccountInput(email, password)
  }
}
