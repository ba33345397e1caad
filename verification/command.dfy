/** Account commands (entity/command.rs). */
module Command {

  /** The payload of a create request. */
  datatype CreateAccountCommand = CreateAccountCommand(email: string, password: string)

  /** The closed set of account commands. */
  datatype AccountCommand = CreateAccount(create: CreateAccountCommand)

  const CreateAccountName := "CreateAccount"

  /** `AccountCommand::to_string`: the variant's name. */
  function ToString(c: AccountCommand): (r: string)
    ensures r == CreateAccountName <==> c.CreateAccount?
  {
    match c
    case CreateAccount(_) => CreateAccountName
  }

  /** `Into<AccountCommand> for CreateAccountCommand`. */
  function FromCreate(c: CreateAccountCommand): (r: AccountCommand)
    ensures r.CreateAccount?
    ensures r.create.email == c.email && r.create.password == c.password
    ensures ToString(r) == CreateAccountName
  {
    CreateAccount(c)
  }

  /** The conversion loses nothing: the payload can be read back, and two
      distinct payloads give distinct commands. */
  lemma FromCreateInjective(a: CreateAccountCommand, b: CreateAccountCommand)
    ensures FromCreate(a) == FromCreate(b) <==> a == b
    ensures FromCreate(a).create == a
  {
  }
}
