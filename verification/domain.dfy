/** The records the gateway handles: users and their roles, the amounts and
    account documents it forwards, the alert it publishes, and the trace of
    effects an operation has on its collaborators. */
module Domain {
  import opened Wrappers

  /** Java's `int` (path variables `userId`, `accountNumber`). */
  type JavaInt = x: int | -0x8000_0000 <= x < 0x8000_0000

  /** Java's `long` (path variable `accountId`). */
  type JavaLong = x: int | -0x8000_0000_0000_0000 <= x < 0x8000_0000_0000_0000

  /** A `BigDecimal`: unscaled value times ten to the minus scale. The gateway
      passes it through to the account service without arithmetic. */
  datatype Amount = Amount(unscaled: int, scale: int)

  /** The account document exchanged with the account service. The gateway
      never looks inside it, so it is kept as its serialised body. */
  datatype AccountProxy = AccountProxy(body: string)

  /** A role document, looked up by its name. */
  datatype Role = Role(role: string)

  /** A user document. An element `None` of `roles` is a null reference, which
      is what the role set holds when a looked-up role does not exist. */
  datatype User = User(
    id: JavaInt,
    email: string,
    phoneNumber: string,
    password: string,
    enabled: bool,
    roles: set<Option<Role>>)

  /** The payload published on the payment-alert topic. */
  datatype AlertMessage = AlertMessage(email: string, phoneNumber: string, message: string)

  /** The user-store queries the gateway issues. */
  datatype UserQuery =
    | ById(id: JavaInt)
    | ByEmail(email: string)
    | ByPhoneNumber(phoneNumber: string)
    | AllUsers

  /** Does the user answer the query? */
  predicate Matches(u: User, q: UserQuery) {
    match q
    case ById(id) => u.id == id
    case ByEmail(email) => u.email == email
    case ByPhoneNumber(phone) => u.phoneNumber == phone
    case AllUsers => true
  }

  /** The calls the gateway makes on the downstream account service. */
  datatype AccountCall =
    | DepositCall(accountNumber: JavaInt, amount: Amount)
    | WithdrawCall(accountNumber: JavaInt, amount: Amount)
    | CreateAccountCall(account: AccountProxy)
    | DeleteAccountCall(accountId: JavaLong)
    | GetAccountCall(accountId: JavaLong)
    | GetAccountByNumberCall(accountNumber: JavaInt)
    | GetAccountsByUserCall(userId: JavaInt)
    | GetAllAccountsCall

  /** One effect on a collaborator, in the order it happens. */
  datatype Event =
    | Called(call: AccountCall)      // request to the account service
    | LookedUp(query: UserQuery)     // read of the user store
    | Saved(user: User)              // write of the user store
    | Sent(alert: AlertMessage)      // publication on the alert topic

  /** The alerts published by a trace of effects. Order and multiplicity
      are fixed by SentAlertsAppend: a trace's alerts are its parts' alerts,
      concatenated. */
  function SentAlerts(events: seq<Event>): (alerts: seq<AlertMessage>)
    ensures |alerts| <= |events|
    ensures forall a :: a in alerts <==> Sent(a) in events
  {
    if events == [] then []
    else
      var rest := SentAlerts(events[1..]);
      assert forall a :: Sent(a) in events <==> events[0] == Sent(a) || Sent(a) in events[1..];
      if events[0].Sent? then [events[0].alert] + rest else rest
  }

  /** The account-service calls issued by a trace of effects; CallsAppend
      fixes their order and multiplicity. */
  function Calls(events: seq<Event>): (calls: seq<AccountCall>)
    ensures |calls| <= |events|
    ensures forall c :: c in calls <==> Called(c) in events
  {
    if events == [] then []
    else
      var rest := Calls(events[1..]);
      assert forall c :: Called(c) in events <==> events[0] == Called(c) || Called(c) in events[1..];
      if events[0].Called? then [events[0].call] + rest else rest
  }

  /** Publishing is appending: the alerts of two traces run one after the
      other are the first trace's alerts followed by the second's. */
  lemma {:induction false} SentAlertsAppend(a: seq<Event>, b: seq<Event>)
    ensures SentAlerts(a + b) == SentAlerts(a) + SentAlerts(b)
  {
    if a == [] {
      assert a + b == b;
    } else {
      assert (a + b)[1..] == a[1..] + b;
      SentAlertsAppend(a[1..], b);
    }
  }

  /** The calls of two traces run one after the other are the first trace's
      calls followed by the second's. */
  lemma {:induction false} CallsAppend(a: seq<Event>, b: seq<Event>)
    ensures Calls(a + b) == Calls(a) + Calls(b)
  {
    if a == [] {
      assert a + b == b;
    } else {
      assert (a + b)[1..] == a[1..] + b;
      CallsAppend(a[1..], b);
    }
  }
}
