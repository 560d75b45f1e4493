/** The downstream account service as the gateway's client sees it: one
    remote call per operation, each answering a value or a failure. What the
    service does behind the call is not modelled; each call is an oracle. */
module PaymentProxy {
  import opened Wrappers
  import opened Domain

  /** A failed remote call, surfaced to the caller as it is. */
  datatype DownstreamError =
    | BusinessRejection(message: string)
    | Unreachable
    | Timeout

  /** The answers the account service would give, one oracle per call. */
  datatype Proxy = Proxy(
    depositAccount: (JavaInt, Amount) -> Result<string, DownstreamError>,
    withdrawAccount: (JavaInt, Amount) -> Result<string, DownstreamError>,
    createAccount: AccountProxy -> Result<string, DownstreamError>,
    deleteAccountById: JavaLong -> Result<string, DownstreamError>,
    getAccount: JavaLong -> Result<AccountProxy, DownstreamError>,
    getAccountByAccountNumber: JavaInt -> Result<AccountProxy, DownstreamError>,
    getAccountByUserId: JavaInt -> Result<seq<AccountProxy>, DownstreamError>,
    getAllAccount: () -> Result<seq<AccountProxy>, DownstreamError>)
}
