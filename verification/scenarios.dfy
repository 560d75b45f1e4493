/** Worked requests: a user deposits on behalf of a known account owner; a
    plain user asks for an administrator operation; a withdrawal times out. */
module Scenarios {
  import opened Wrappers
  import opened Domain
  import opened PaymentProxy
  import opened PaymentAlerts
  import Authorization

  /** An account service whose deposit and withdraw answer as given and
      whose other calls are never reached. */
  function MonetaryOnly(deposit: Result<string, DownstreamError>, withdraw: Result<string, DownstreamError>): Proxy
  {
    Proxy(
      (n: JavaInt, a: Amount) => deposit,
      (n: JavaInt, a: Amount) => withdraw,
      (acc: AccountProxy) => Failure(Unreachable),
      (id: JavaLong) => Failure(Unreachable),
      (id: JavaLong) => Failure(Unreachable),
      (n: JavaInt) => Failure(Unreachable),
      (n: JavaInt) => Failure(Unreachable),
      () => Failure(Unreachable))
  }

  const Owner := User(7, "a@x.com", "555", "secret", true, {})
  const FiftyUnits := Amount(5000, 2)

  /** A USER deposits 50.00 into account 100 for user 7, who exists: the
      answer is the downstream message and one alert carries it to user 7. */
  lemma DepositForKnownUser()
    ensures Authorization.Permitted({Authorization.User}, Authorization.DepositAccount)
    ensures var f := DepositAccount(MonetaryOnly(Success("Deposited 50.00"), Failure(Unreachable)),
                                    map[7 := Owner], 7, 100, FiftyUnits);
      && f.response == Success("Deposited 50.00")
      && SentAlerts(f.events) == [AlertMessage("a@x.com", "555", "Deposited 50.00")]
  {
  }

  /** A plain USER is refused every operation other than deposit, withdraw
      and account creation, and admitted to those three. */
  lemma UserRefusedAdminOperations()
    ensures forall op: Authorization.Operation ::
      Authorization.Permitted({Authorization.User}, op) <==>
        (op.DepositAccount? || op.WithdrawAccount? || op.CreateAccount?)
  {
  }

  /** A withdrawal that times out surfaces Timeout and publishes nothing,
      even though the request's user exists. */
  lemma WithdrawTimeout()
    ensures var f := WithdrawAccount(MonetaryOnly(Failure(Unreachable), Failure(Timeout)),
                                     map[7 := Owner], 7, 100, FiftyUnits);
      && f.response == Failure(Timeout)
      && SentAlerts(f.events) == []
  {
  }
}
