/** The secured controller: every request passes the role gate of its
    operation, then is delegated to the user store, the user-details service
    or the account service; deposit and withdraw also publish an alert. */
module MainController {
  import opened Wrappers
  import opened Domain
  import opened UserStore
  import opened UserDetailsService
  import opened PaymentProxy
  import opened PaymentAlerts
  import Authorization

  /** One inbound request with its parameters. */
  datatype Request =
    | AddUserByAdmin(user: User)
    | ListUsers
    | CustomerByEmail(email: string)
    | CustomerByPhoneNumber(phoneNumber: string)
    | AllAccounts
    | AccountById(accountId: JavaLong)
    | AccountByNumber(accountNumber: JavaInt)
    | AccountsOfUser(userId: JavaInt)
    | Deposit(userId: JavaInt, accountNumber: JavaInt, amount: Amount)
    | Withdraw(userId: JavaInt, accountNumber: JavaInt, amount: Amount)
    | DeleteAccount(accountId: JavaLong)
    | NewAccount(account: AccountProxy)
  {
    /** The gated operation the request invokes. */
    function Operation(): Authorization.Operation {
      match this
      case AddUserByAdmin(_) => Authorization.AddUser
      case ListUsers => Authorization.GetUsers
      case CustomerByEmail(_) => Authorization.GetCustomerByEmail
      case CustomerByPhoneNumber(_) => Authorization.GetCustomerByPhoneNumber
      case AllAccounts => Authorization.GetAllAccounts
      case AccountById(_) => Authorization.GetAccount
      case AccountByNumber(_) => Authorization.GetAccountByAccountNumber
      case AccountsOfUser(_) => Authorization.GetAccountsByUser
      case Deposit(_, _, _) => Authorization.DepositAccount
      case Withdraw(_, _, _) => Authorization.WithdrawAccount
      case DeleteAccount(_) => Authorization.DeleteAccountById
      case NewAccount(_) => Authorization.CreateAccount
    }
  }

  /** What a request answers on success. */
  datatype Payload =
    | Text(text: string)
    | OneUser(user: User)
    | UserList(users: seq<User>)
    | OneAccount(account: AccountProxy)
    | AccountList(accounts: seq<AccountProxy>)

  /** Why a request fails. */
  datatype Failure =
    | AccessDenied
    | UserNotFound(message: string)
    | DownstreamFailure(error: DownstreamError)

  /** The collaborators a request runs against. */
  datatype Env = Env(
    users: Users,
    roles: RoleRepository,
    encode: string -> string,
    proxy: Proxy)

  /** The answer to a request, its effects, and the user collection after it. */
  datatype Reply = Reply(result: Result<Payload, Failure>, events: seq<Event>, users: Users)

  const UserAddedMessage := "user added successfully..."

  /** A downstream answer as the controller surfaces it. */
  function Surface<T>(answer: Result<T, DownstreamError>, wrap: T -> Payload): Result<Payload, Failure>
  {
    match answer
    case Success(v) => Success(wrap(v))
    case Failure(e) => Failure(DownstreamFailure(e))
  }

  /** addUserByAdmin: save the normalised user and confirm. */
  function AddUser(env: Env, u: User): (reply: Reply)
    ensures reply.result == Success(Text(UserAddedMessage))
    ensures reply.users.Keys == env.users.Keys + {u.id}
    ensures forall id :: id in env.users && id != u.id ==> reply.users[id] == env.users[id]
    ensures reply.users[u.id].password == env.encode(u.password)
    ensures reply.users[u.id].enabled
    ensures reply.users[u.id].roles == {FindByRole(env.roles, AdminRoleName)}
    ensures reply.users[u.id].id == u.id && reply.users[u.id].email == u.email
    ensures reply.users[u.id].phoneNumber == u.phoneNumber
    ensures WellKeyed(env.users) ==> WellKeyed(reply.users)
    ensures reply.events == [Saved(reply.users[u.id])]
  {
    var users' := SaveUser(env.users, u, env.encode, env.roles);
    Reply(Success(Text(UserAddedMessage)), [Saved(users'[u.id])], users')
  }

  /** getCustomerByEmail: the stored user with that e-mail, or UserNotFound. */
  method GetCustomerByEmail(users: Users, email: string) returns (r: Result<User, Failure>)
    ensures r.Failure? <==> !HasUserWith(users, ByEmail(email))
    ensures r.Failure? ==> r.error == UserNotFound("User with email :" + email + " not found")
    ensures r.Success? ==> r.value in users.Values && r.value.email == email
  {
    var found := FindOne(users, ByEmail(email));
    match found
    case None => return Failure(UserNotFound("User with email :" + email + " not found"));
    case Some(u) => return Success(u);
  }

  /** getCustomerByPhoneNumber: the stored user with that phone number, or
      UserNotFound. */
  method GetCustomerByPhoneNumber(users: Users, phoneNumber: string) returns (r: Result<User, Failure>)
    ensures r.Failure? <==> !HasUserWith(users, ByPhoneNumber(phoneNumber))
    ensures r.Failure? ==> r.error == UserNotFound("User with Phone Number :" + phoneNumber + " not found")
    ensures r.Success? ==> r.value in users.Values && r.value.phoneNumber == phoneNumber
  {
    var found := FindOne(users, ByPhoneNumber(phoneNumber));
    match found
    case None => return Failure(UserNotFound("User with Phone Number :" + phoneNumber + " not found"));
    case Some(u) => return Success(u);
  }

  /** A monetary flow as a controller reply. */
  function MonetaryReply(f: Flow, users: Users): Reply
  {
    Reply(Surface(f.response, (s: string) => Text(s)), f.events, users)
  }

  /** Dispatch a request: the role gate first, then the operation. */
  method Handle(granted: set<Authorization.RoleName>, req: Request, env: Env) returns (reply: Reply)
    // a caller without a required role is refused before anything happens
    ensures !Authorization.Permitted(granted, req.Operation()) ==>
      reply == Reply(Failure(AccessDenied), [], env.users)
    ensures Authorization.Permitted(granted, req.Operation()) ==> reply.result != Failure(AccessDenied)
    // only adding a user writes the user collection
    ensures !req.AddUserByAdmin? ==> reply.users == env.users
    // alerts come only from deposit and withdraw, at most one per request
    ensures SentAlerts(reply.events) != [] ==> req.Deposit? || req.Withdraw?
    ensures |SentAlerts(reply.events)| <= 1
    // at most one account-service call per request
    ensures |Calls(reply.events)| <= 1
    // a permitted deposit answers the downstream outcome and alerts the user iff found
    ensures Authorization.Permitted(granted, req.Operation()) && req.Deposit? ==>
      && reply.result == Surface(env.proxy.depositAccount(req.accountNumber, req.amount), (s: string) => Text(s))
      && reply.events == DepositAccount(env.proxy, env.users, req.userId, req.accountNumber, req.amount).events
      && (|SentAlerts(reply.events)| == 1 <==>
            env.proxy.depositAccount(req.accountNumber, req.amount).Success? && req.userId in env.users)
    ensures Authorization.Permitted(granted, req.Operation()) && req.Withdraw? ==>
      && reply.result == Surface(env.proxy.withdrawAccount(req.accountNumber, req.amount), (s: string) => Text(s))
      && reply.events == WithdrawAccount(env.proxy, env.users, req.userId, req.accountNumber, req.amount).events
      && (|SentAlerts(reply.events)| == 1 <==>
            env.proxy.withdrawAccount(req.accountNumber, req.amount).Success? && req.userId in env.users)
    // a permitted addUserByAdmin saves the normalised user and confirms
    ensures Authorization.Permitted(granted, req.Operation()) && req.AddUserByAdmin? ==>
      reply == AddUser(env, req.user)
    // a permitted listing answers every stored user exactly once
    ensures Authorization.Permitted(granted, req.Operation()) && req.ListUsers? ==>
      && reply.events == [LookedUp(AllUsers)]
      && reply.result.Success? && reply.result.value.UserList?
      && exists ids :: ListedBy(env.users, reply.result.value.users, ids)
    // a permitted customer lookup answers a matching user, or UserNotFound iff none
    ensures Authorization.Permitted(granted, req.Operation()) && req.CustomerByEmail? ==>
      && reply.events == [LookedUp(ByEmail(req.email))]
      && (reply.result.Failure? <==> !HasUserWith(env.users, ByEmail(req.email)))
      && (reply.result.Failure? ==>
            reply.result.error == UserNotFound("User with email :" + req.email + " not found"))
      && (reply.result.Success? ==>
            && reply.result.value.OneUser?
            && reply.result.value.user in env.users.Values
            && reply.result.value.user.email == req.email)
    ensures Authorization.Permitted(granted, req.Operation()) && req.CustomerByPhoneNumber? ==>
      && reply.events == [LookedUp(ByPhoneNumber(req.phoneNumber))]
      && (reply.result.Failure? <==> !HasUserWith(env.users, ByPhoneNumber(req.phoneNumber)))
      && (reply.result.Failure? ==>
            reply.result.error == UserNotFound("User with Phone Number :" + req.phoneNumber + " not found"))
      && (reply.result.Success? ==>
            && reply.result.value.OneUser?
            && reply.result.value.user in env.users.Values
            && reply.result.value.user.phoneNumber == req.phoneNumber)
    // a permitted account pass-through makes its one call and answers what it answered
    ensures Authorization.Permitted(granted, req.Operation()) && req.AllAccounts? ==>
      && reply.events == [Called(GetAllAccountsCall)]
      && reply.result == Surface(env.proxy.getAllAccount(), (a: seq<AccountProxy>) => AccountList(a))
    ensures Authorization.Permitted(granted, req.Operation()) && req.AccountById? ==>
      && reply.events == [Called(GetAccountCall(req.accountId))]
      && reply.result == Surface(env.proxy.getAccount(req.accountId), (a: AccountProxy) => OneAccount(a))
    ensures Authorization.Permitted(granted, req.Operation()) && req.AccountByNumber? ==>
      && reply.events == [Called(GetAccountByNumberCall(req.accountNumber))]
      && reply.result == Surface(env.proxy.getAccountByAccountNumber(req.accountNumber), (a: AccountProxy) => OneAccount(a))
    ensures Authorization.Permitted(granted, req.Operation()) && req.AccountsOfUser? ==>
      && reply.events == [Called(GetAccountsByUserCall(req.userId))]
      && reply.result == Surface(env.proxy.getAccountByUserId(req.userId), (a: seq<AccountProxy>) => AccountList(a))
    ensures Authorization.Permitted(granted, req.Operation()) && req.DeleteAccount? ==>
      && reply.events == [Called(DeleteAccountCall(req.accountId))]
      && reply.result == Surface(env.proxy.deleteAccountById(req.accountId), (s: string) => Text(s))
    ensures Authorization.Permitted(granted, req.Operation()) && req.NewAccount? ==>
      && reply.events == [Called(CreateAccountCall(req.account))]
      && reply.result == Surface(env.proxy.createAccount(req.account), (s: string) => Text(s))
  {
    if !Authorization.Permitted(granted, req.Operation()) {
      return Reply(Failure(AccessDenied), [], env.users);
    }
    var users := env.users;
    var proxy := env.proxy;
    match req {
      case AddUserByAdmin(u) =>
        reply := AddUser(env, u);
      case ListUsers =>
        var all := FindAll(users);
        reply := Reply(Success(UserList(all)), [LookedUp(AllUsers)], users);
      case CustomerByEmail(email) =>
        var r := GetCustomerByEmail(users, email);
        var result := match r case Success(u) => Success(OneUser(u)) case Failure(e) => Failure(e);
        reply := Reply(result, [LookedUp(ByEmail(email))], users);
      case CustomerByPhoneNumber(phone) =>
        var r := GetCustomerByPhoneNumber(users, phone);
        var result := match r case Success(u) => Success(OneUser(u)) case Failure(e) => Failure(e);
        reply := Reply(result, [LookedUp(ByPhoneNumber(phone))], users);
      case AllAccounts =>
        reply := Reply(Surface(proxy.getAllAccount(), (a: seq<AccountProxy>) => AccountList(a)),
                       [Called(GetAllAccountsCall)], users);
      case AccountById(accountId) =>
        reply := Reply(Surface(proxy.getAccount(accountId), (a: AccountProxy) => OneAccount(a)),
                       [Called(GetAccountCall(accountId))], users);
      case AccountByNumber(accountNumber) =>
        reply := Reply(Surface(proxy.getAccountByAccountNumber(accountNumber), (a: AccountProxy) => OneAccount(a)),
                       [Called(GetAccountByNumberCall(accountNumber))], users);
      case AccountsOfUser(userId) =>
        reply := Reply(Surface(proxy.getAccountByUserId(userId), (a: seq<AccountProxy>) => AccountList(a)),
                       [Called(GetAccountsByUserCall(userId))], users);
      case Deposit(userId, accountNumber, amount) =>
        reply := MonetaryReply(DepositAccount(proxy, users, userId, accountNumber, amount), users);
      case Withdraw(userId, accountNumber, amount) =>
        reply := MonetaryReply(WithdrawAccount(proxy, users, userId, accountNumber, amount), users);
      case DeleteAccount(accountId) =>
        reply := Reply(Surface(proxy.deleteAccountById(accountId), (s: string) => Text(s)),
                       [Called(DeleteAccountCall(accountId))], users);
      case NewAccount(account) =>
        reply := Reply(Surface(proxy.createAccount(account), (s: string) => Text(s)),
                       [Called(CreateAccountCall(account))], users);
    }
  }
}
