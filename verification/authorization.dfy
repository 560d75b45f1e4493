/** The role gate in front of every controller operation: each operation
    declares the roles any one of which admits a caller. */
module Authorization {

  /** A granted role name. */
  type RoleName = string

  const Admin: RoleName := "ADMIN"
  const User: RoleName := "USER"

  /** The gated controller operations. */
  datatype Operation =
    | AddUser
    | GetUsers
    | GetCustomerByEmail
    | GetCustomerByPhoneNumber
    | GetAllAccounts
    | GetAccount
    | GetAccountByAccountNumber
    | GetAccountsByUser
    | DepositAccount
    | WithdrawAccount
    | DeleteAccountById
    | CreateAccount

  /** The roles an operation declares. */
  function RequiredRoles(op: Operation): (required: set<RoleName>)
    ensures Admin in required
    ensures required <= {Admin, User}
  {
    match op
    case DepositAccount | WithdrawAccount | CreateAccount => {Admin, User}
    case _ => {Admin}
  }

  /** Any one of the required roles admits the caller. */
  function Authorize(granted: set<RoleName>, required: set<RoleName>): (allowed: bool)
    ensures allowed <==> exists r :: r in granted && r in required
    ensures granted == {} ==> !allowed
    ensures required == {} ==> !allowed
  {
    var shared := granted * required;
    assert shared != {} ==> exists r :: r in shared;
    assert forall r :: r in granted && r in required ==> r in shared;
    shared != {}
  }

  /** The gate applied to an operation: an administrator may do anything; a
      plain user may deposit, withdraw and create an account, nothing else. */
  function Permitted(granted: set<RoleName>, op: Operation): (allowed: bool)
    ensures allowed <==>
      Admin in granted || (User in granted && op in {DepositAccount, WithdrawAccount, CreateAccount})
  {
    Authorize(granted, RequiredRoles(op))
  }
}
