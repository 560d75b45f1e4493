/** Deposit and withdraw: perform the monetary call downstream, then, if it
    returned, look up the user the request names and publish one alert
    carrying the call's outcome when that user exists. */
module PaymentAlerts {
  import opened Wrappers
  import opened Domain
  import opened UserStore
  import opened PaymentProxy

  /** What a monetary operation answers, and the effects it had. */
  datatype Flow = Flow(response: Result<string, DownstreamError>, events: seq<Event>)

  /** The alert a completed monetary call produces for a user. */
  function AlertFor(u: User, outcome: string): AlertMessage
  {
    AlertMessage(u.email, u.phoneNumber, outcome)
  }

  /** The flow shared by deposit and withdraw, given the call issued, the
      answer it got, the user collection and the user id of the request. */
  function NotifyAfter(call: AccountCall, reply: Result<string, DownstreamError>, users: Users, userId: JavaInt): (f: Flow)
    // the answer is the downstream answer, alert or no alert
    ensures f.response == reply
    // exactly one downstream call, and it comes first
    ensures Calls(f.events) == [call] && f.events[0] == Called(call)
    // a failed call ends the flow: no lookup, no alert
    ensures reply.Failure? ==> f.events == [Called(call)]
    // a returned call is followed by the lookup of the request's user
    ensures reply.Success? ==> |f.events| >= 2 && f.events[1] == LookedUp(ById(userId))
    // one alert exactly when the call returned and the user exists
    ensures |SentAlerts(f.events)| == (if reply.Success? && userId in users then 1 else 0)
    // the alert goes to the found user and carries the downstream outcome
    ensures forall a :: a in SentAlerts(f.events) ==>
      && reply.Success? && userId in users
      && a.email == users[userId].email && a.phoneNumber == users[userId].phoneNumber
      && a.message == reply.value
    // nothing follows: the call, then the lookup and the alert if any
    ensures |f.events| == (if reply.Success? then 2 + |SentAlerts(f.events)| else 1)
  {
    match reply
    case Failure(_) =>
      Flow(reply, [Called(call)])
    case Success(outcome) =>
      var lookup := [Called(call), LookedUp(ById(userId))];
      match FindById(users, userId)
      case None => Flow(reply, lookup)
      case Some(u) =>
        var events := lookup + [Sent(AlertFor(u, outcome))];
        assert events[1..] == [LookedUp(ById(userId)), Sent(AlertFor(u, outcome))];
        assert events[1..][1..] == [Sent(AlertFor(u, outcome))];
        assert events[1..][1..][1..] == [];
        assert Calls(events[1..][1..]) == [];
        assert Calls(events[1..]) == [];
        Flow(reply, events)
  }

  /** depositAccount: deposit downstream, then alert the request's user. */
  function DepositAccount(proxy: Proxy, users: Users, userId: JavaInt, accountNumber: JavaInt, amount: Amount): (f: Flow)
    ensures f.response == proxy.depositAccount(accountNumber, amount)
    ensures |f.events| >= 1 && f.events[0] == Called(DepositCall(accountNumber, amount))
    ensures f.response.Failure? ==> |f.events| == 1
    ensures f.response.Success? ==> |f.events| >= 2 && f.events[1] == LookedUp(ById(userId))
    ensures |SentAlerts(f.events)| == (if f.response.Success? && userId in users then 1 else 0)
    ensures forall a :: a in SentAlerts(f.events) ==>
      && a.email == users[userId].email && a.phoneNumber == users[userId].phoneNumber
      && a.message == f.response.value
    ensures |f.events| == (if f.response.Success? then 2 + |SentAlerts(f.events)| else 1)
  {
    NotifyAfter(DepositCall(accountNumber, amount), proxy.depositAccount(accountNumber, amount), users, userId)
  }

  /** withdrawAccount: withdraw downstream, then alert the request's user. */
  function WithdrawAccount(proxy: Proxy, users: Users, userId: JavaInt, accountNumber: JavaInt, amount: Amount): (f: Flow)
    ensures f.response == proxy.withdrawAccount(accountNumber, amount)
    ensures |f.events| >= 1 && f.events[0] == Called(WithdrawCall(accountNumber, amount))
    ensures f.response.Failure? ==> |f.events| == 1
    ensures f.response.Success? ==> |f.events| >= 2 && f.events[1] == LookedUp(ById(userId))
    ensures |SentAlerts(f.events)| == (if f.response.Success? && userId in users then 1 else 0)
    ensures forall a :: a in SentAlerts(f.events) ==>
      && a.email == users[userId].email && a.phoneNumber == users[userId].phoneNumber
      && a.message == f.response.value
    ensures |f.events| == (if f.response.Success? then 2 + |SentAlerts(f.events)| else 1)
  {
    NotifyAfter(WithdrawCall(accountNumber, amount), proxy.withdrawAccount(accountNumber, amount), users, userId)
  }

  /** Deposit and withdraw differ only in the call they issue: given the same
      downstream answer they publish the same alerts and answer the same. */
  lemma DepositWithdrawAgree(proxy: Proxy, users: Users, userId: JavaInt, accountNumber: JavaInt, amount: Amount)
    requires proxy.depositAccount(accountNumber, amount) == proxy.withdrawAccount(accountNumber, amount)
    ensures DepositAccount(proxy, users, userId, accountNumber, amount).response
         == WithdrawAccount(proxy, users, userId, accountNumber, amount).response
    ensures SentAlerts(DepositAccount(proxy, users, userId, accountNumber, amount).events)
         == SentAlerts(WithdrawAccount(proxy, users, userId, accountNumber, amount).events)
  {
  }
}
