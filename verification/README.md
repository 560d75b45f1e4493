# Payment user gateway: role-gated operations and payment alerts

This project is a Dafny model of the secured controller of the Wells Fargo payment user gateway and of the user-details service behind it. The gateway does three things:

- It gates every operation on the caller's roles. Each endpoint declares `hasAnyRole(...)`, and any one of the listed roles admits the caller.
- It forwards account operations to the downstream account service.
- After a deposit or a withdrawal, it looks up the user the request names. If that user exists, it publishes one payment alert carrying the downstream outcome.

The user-details service resolves a login e-mail to a user. It also normalises a new user before saving it: the password is encoded, the account is enabled, and the role set is replaced by the ADMIN role.

The model is functional. Collaborators are abstracted:
- The user collection is a map from id to user.
- The role collection is a map from name to role.
- The password encoder is a function parameter.
- Each remote call on the account service is an oracle, a function field of `PaymentProxy.Proxy` that answers a value or a `DownstreamError`.
- The effects of a request are returned as a trace of events: account-service calls, user-store reads and writes, and published alerts. Publishing on the alert topic is an append of a `Sent` event.

Modules:
- `Wrappers`: `Option` and `Result`.
- `Domain`: users, roles, amounts, alerts and the event trace. `SentAlerts` and `Calls` extract the published alerts and the downstream calls from a trace.
- `UserStore`: lookups by id, by e-mail and by phone number, listing, and save.
- `UserDetailsService`: `loadUserByUsername` and `saveUser`.
- `Authorization`: the role table and the any-role gate.
- `PaymentProxy`: the downstream client as oracles.
- `PaymentAlerts`: the deposit and withdraw flow.
- `MainController`: request dispatch behind the gate.
- `Scenarios`: worked requests.

Behaviour of the code that the model keeps as written:
- `createAccount` is open to USER as well as ADMIN (`@PreAuthorize("hasAnyRole('ADMIN','USER')")`), although account creation could be expected to be an administrator operation.
- Password checking and disabled-account refusal are done by the security framework, not by this code.
- A missing user on the customer queries raises `UserNotFoundException` with a message that names the e-mail or phone number. The model keeps these exact messages.
- The user id that drives the alert is not compared with the caller's identity. The model keeps this behaviour: the gate looks only at the caller's roles.

## Model

| member | source | states |
|---|---|---|
| Authorization.RequiredRoles | wells-fargo-payment-user/src/main/java/com/wellsfargo/payment/app/controller/MainController.java:43-124 | every operation admits ADMIN, and no operation names a role other than ADMIN or USER |
| Authorization.Authorize | wells-fargo-payment-user/src/main/java/com/wellsfargo/payment/app/controller/MainController.java:93 | `hasAnyRole` admits the caller iff some granted role is among the required ones; an empty role set is always refused |
| Authorization.Permitted | wells-fargo-payment-user/src/main/java/com/wellsfargo/payment/app/controller/MainController.java:43-128 | the gate of an operation admits exactly ADMIN holders, plus USER holders for deposit, withdraw and createAccount |
| UserStore.FindById | wells-fargo-payment-user/src/main/java/com/wellsfargo/payment/app/controller/MainController.java:98 | the lookup by user id finds a user iff the id is stored, and then it is the stored user |
| UserStore.FindOne | wells-fargo-payment-user/src/main/java/com/wellsfargo/payment/app/service/impl/CustomUserDetailsService.java:39 | a lookup by e-mail or phone answers a stored user with that field iff one exists, and nothing otherwise |
| UserStore.FindAll | wells-fargo-payment-user/src/main/java/com/wellsfargo/payment/app/controller/MainController.java:55-59 | listing pairs its entries with the stored keys, each key exactly once (`ListedBy`), so every stored document appears once and nothing else appears |
| UserStore.Save | wells-fargo-payment-user/src/main/java/com/wellsfargo/payment/app/service/impl/CustomUserDetailsService.java:53 | saving stores the user under its id, adds no other key, leaves every other document unchanged and keeps each document under its own id |
| UserDetailsService.LoadUserByUsername | wells-fargo-payment-user/src/main/java/com/wellsfargo/payment/app/service/impl/CustomUserDetailsService.java:38-46 | fails with UsernameNotFound("Username not found") iff no user has the e-mail; otherwise the details wrap a stored user with that e-mail |
| UserDetailsService.Normalise | wells-fargo-payment-user/src/main/java/com/wellsfargo/payment/app/service/impl/CustomUserDetailsService.java:49-52 | the record to save has the encoded password, is enabled, and has exactly the looked-up ADMIN role as its role set; id, e-mail and phone are kept |
| UserDetailsService.SaveUser | wells-fargo-payment-user/src/main/java/com/wellsfargo/payment/app/service/impl/CustomUserDetailsService.java:48-54 | after saveUser one document changes: the one under the user's id, which holds the encoded password, enabled = true, roles = {ADMIN role} and the input's id, e-mail and phone |
| UserDetailsService.SavedUserCanBeLoaded | wells-fargo-payment-user/src/main/java/com/wellsfargo/payment/app/service/impl/CustomUserDetailsService.java:38-54 | a saved user is found by its e-mail, so its login lookup succeeds; when the ADMIN role exists, the saved role set is that one role |
| Domain.SentAlerts | wells-fargo-payment-user/src/main/java/com/wellsfargo/payment/app/controller/MainController.java:102 | the alerts published by a trace are exactly its `Sent` events, never more alerts than events |
| Domain.Calls | wells-fargo-payment-user/src/main/java/com/wellsfargo/payment/app/controller/MainController.java:97 | the downstream calls a trace issues are exactly its `Called` events, never more calls than events |
| Domain.CallsAppend | wells-fargo-payment-user/src/main/java/com/wellsfargo/payment/app/controller/MainController.java:110 | the calls of two traces in sequence are the first trace's calls followed by the second's, which fixes their order and multiplicity |
| Domain.SentAlertsAppend | wells-fargo-payment-user/src/main/java/com/wellsfargo/payment/app/controller/MainController.java:102 | publishing is appending: the alerts of two traces in sequence are the first trace's alerts followed by the second's, which fixes their order and multiplicity |
| PaymentAlerts.NotifyAfter | wells-fargo-payment-user/src/main/java/com/wellsfargo/payment/app/controller/MainController.java:97-104 | the answer is the downstream answer; the one downstream call comes first; a failed call is followed by nothing; a returned call is followed by the user lookup; exactly one alert iff the call returned and the user exists, and it goes to that user carrying the outcome; nothing follows the lookup and the alert |
| PaymentAlerts.DepositAccount | wells-fargo-payment-user/src/main/java/com/wellsfargo/payment/app/controller/MainController.java:93-105 | deposit answers the downstream deposit answer, calls the service first, does nothing more on failure, and alerts the found user exactly once with the deposit message iff the deposit returned and the user exists |
| PaymentAlerts.WithdrawAccount | wells-fargo-payment-user/src/main/java/com/wellsfargo/payment/app/controller/MainController.java:106-118 | withdraw satisfies the same contract as deposit with the downstream withdraw answer |
| PaymentAlerts.DepositWithdrawAgree | wells-fargo-payment-user/src/main/java/com/wellsfargo/payment/app/controller/MainController.java:97-117 | given the same downstream answer, deposit and withdraw answer the same and publish the same alerts |
| MainController.AddUser | wells-fargo-payment-user/src/main/java/com/wellsfargo/payment/app/controller/MainController.java:43-48 | addUserByAdmin answers "user added successfully..." and writes one normalised document: encoded password, enabled, roles {ADMIN role}, with the input's id, e-mail and phone. No other document changes, and each document stays under its own id |
| MainController.GetCustomerByEmail | wells-fargo-payment-user/src/main/java/com/wellsfargo/payment/app/controller/MainController.java:60-65 | answers a stored user with the e-mail, or fails with UserNotFound and the exact message iff there is none; never an empty answer |
| MainController.GetCustomerByPhoneNumber | wells-fargo-payment-user/src/main/java/com/wellsfargo/payment/app/controller/MainController.java:66-72 | answers a stored user with the phone number, or fails with UserNotFound and the exact message iff there is none |
| MainController.Handle | wells-fargo-payment-user/src/main/java/com/wellsfargo/payment/app/controller/MainController.java:43-128 | a request the gate refuses fails with AccessDenied and has no effect; a permitted one is never denied; only addUserByAdmin writes users; alerts come only from deposit and withdraw, at most one; at most one downstream call. Each permitted request answers as its endpoint does: addUserByAdmin saves and confirms; getUsers lists every stored user once; the customer lookups answer a matching user, or UserNotFound with the exact message iff none matches; deposits and withdrawals answer the downstream outcome and have exactly the effects of the deposit or withdraw flow (the call with the request's account number and amount, the lookup, and the alert to the found user carrying the outcome); the account pass-throughs make their one call and answer its answer |
| Scenarios.DepositForKnownUser | wells-fargo-payment-user/src/main/java/com/wellsfargo/payment/app/controller/MainController.java:93-105 | a USER's deposit of 50.00 for an existing user 7 answers "Deposited 50.00" and publishes exactly the alert {a@x.com, 555, "Deposited 50.00"} |
| Scenarios.UserRefusedAdminOperations | wells-fargo-payment-user/src/main/java/com/wellsfargo/payment/app/controller/MainController.java:43-128 | a caller holding only USER is admitted to exactly deposit, withdraw and createAccount, and refused every other operation |
| Scenarios.WithdrawTimeout | wells-fargo-payment-user/src/main/java/com/wellsfargo/payment/app/controller/MainController.java:106-118 | a withdrawal whose downstream call times out answers Timeout and publishes no alert, although the user exists |

## Left out

- `securedHello` (MainController.java:50-54) is a constant greeting behind the gate, with no behaviour to model.
- The HTTP filter chain, `httpBasic`, CSRF settings and the `BCryptPasswordEncoder` bean (SecurityConfig.java) are framework configuration. So is the framework's own authentication: password comparison and disabled-account refusal. Nothing in the modelled code does these.
- The mapping from a user's roles to granted authorities and Spring's `ROLE_` prefix belong to `CustomUserDetails`, which is not part of this model. The gate works on role names directly.
- `UserService` and the repositories are not part of this model. Their lookups are modelled as the queries they name, over maps.
- When several users share an e-mail or phone number, `UserStore.FindOne` may answer any of them. The repository's behaviour in that case (an error, or the first document) is not modelled.
- UserDetailsService.SaveUser: the fields of an incoming user are never null. A request body without a password makes the encoder throw before anything is saved; that error path is not modelled.
- MainController.AddUser: for the same reason it always saves and confirms. The failure that a null password causes in the source, where nothing is saved and no confirmation is sent, is not modelled.
- Generation of an id for a user saved without one is left out: every user record carries an id.
- BCrypt hashing is an uninterpreted function parameter. Its random salt, which makes two encodings of one password differ, is not modelled.
- The Feign client's transport, retries and HTTP error decoding are not modelled. Every remote failure is one of the `DownstreamError` kinds.
- Kafka transport and asynchronous delivery are not modelled. A publication is the `Sent` event in the trace, and publish failures are not modelled.
- `BigDecimal` amounts are passed through untouched as unscaled value and scale, with no arithmetic.
- Parsing of path variables and the mapping of exceptions to HTTP statuses are framework behaviour and are left out.
