# Peer-to-peer transfer orchestration

A Dafny model of `TransactionService.createTransaction` and its two gateway
helpers. One call moves an amount from a sender to a receiver:

1. it resolves the sender and the receiver;
2. the user service validates the transfer;
3. the external authorization gateway must answer, or the transfer is refused;
4. the sender is debited and the receiver credited by the exact amount;
5. the notification gateway is called once per party, and an error response becomes a status text;
6. both users are saved and one transaction record is persisted.

Every failure leaves the stored balances and the record list untouched, for
one of two reasons. A missing user, a refused validation and a refused
authorization all come before the first balance write (line 41), so there is
nothing to undo. The authorization refusal is a checked `Exception`, on which
the `@Transactional` boundary commits rather than rolls back, harmlessly. A
failure after line 41 (an escaping notification exception, a storage failure)
is unchecked, and the transactional boundary rolls the unit of work back.

Files:

- `balances.dfy` (module `Balances`) defines the account store. It maps a
  user id to an exact decimal balance (`real`, since BigDecimal `add` and
  `subtract` are exact). It also defines the store's `Total` and how
  overwriting one balance changes that total.
- `transactions.dfy` (module `Transactions`) holds the request, the record,
  the gateway outcomes, `authorizeTransaction`, `sendNotificationEmail` and
  `Execute`. `Execute` is the specification of one `createTransaction` call:
  it returns a committed record with the new store, or an abort reason.
- `transfer_laws.dfy` (module `TransferLaws`) holds the lemmas about
  `Execute`.
- `services.dfy` (module `Services`) holds the class `TransactionService`.
  Its fields are the persisted balances and the transaction records.
  `CreateTransaction` updates the balances in place and restores them on
  a failure after that write. This restore is the rollback of the
  transactional boundary; earlier failures return before anything is
  written. The method is proved against `Execute` and proved to keep the
  store's total.

Modelling choices:

- The collaborators are inputs. `validate` stands for
  `userService.validadeTransaction`; it is an arbitrary predicate on the
  resolved sender and the amount, because its rule is not part of this
  model. A lookup succeeds exactly when the id is in the store.
  `Gateways` gives how each REST call ends and whether persisting succeeds.
- A REST call ends in one of three ways. `Responded` means the call
  returned. `ClientError` is a `ClientWebApplicationException`, which is
  what the code catches. `TransportError` is any other exception, which
  escapes.
- A self-transfer (same id twice) is not guarded by the code. Within one
  JPA transaction both lookups return the same managed entity, so the debit
  and then the credit hit the same balance. The model does the two updates
  one after the other on the map, so the balances end as they were and a
  record is still created.

Notification failures are not always turned into data. The comment on
`sendNotificationEmail` (TransactionService.java lines 82-83) says it returns
the notification feedback, success or failure. But line 91 catches only
`ClientWebApplicationException`. Any other exception from the notification
client, such as a connection failure, is unchecked (the method declares no
`throws`), escapes `createTransaction`, and rolls the whole transfer back. The
model follows the code: this is the abort reason `NotificationAborted`.
Amount and funds rules (a positive amount, a sufficient balance) are not in
this file at all; the code leaves them to `validadeTransaction`, which the
model keeps abstract. `TransferLaws.RequiresFunds` states such a rule as an
assumption where a lemma needs it.

## Model

| member | source | states |
|---|---|---|
| `Transactions.AuthorizeTransaction` | src/main/java/projeto-Java/services/TransactionService.java:68-73 | the gate passes exactly when the authorization call returns; any error is a refusal |
| `Transactions.SendNotificationEmail` | src/main/java/projeto-Java/services/TransactionService.java:84-94 | an error response yields the failure text and does not fail; a returned call yields the success text; the status reads back as delivered exactly when the call returned; only a non-HTTP exception escapes |
| `Transactions.Move` | src/main/java/projeto-Java/services/TransactionService.java:41-42 | debiting then crediting keeps the set of accounts and touches no account other than the two parties |
| `Transactions.Execute` | src/main/java/projeto-Java/services/TransactionService.java:28-58 | a committed transfer has resolved both parties and keeps the set of accounts |
| `Services.TransactionService.CreateTransaction` | src/main/java/projeto-Java/services/TransactionService.java:28-58 | on abort, returns the reason and leaves balances and records unchanged; on commit, returns the record, installs the new balances and appends exactly that record; the total of all balances is unchanged |
| `TransferLaws.ConservesTotal` | src/main/java/projeto-Java/services/TransactionService.java:41-42 | a committed transfer neither creates nor destroys money across the whole store |
| `TransferLaws.ExactDebitAndCredit` | src/main/java/projeto-Java/services/TransactionService.java:41-42 | between distinct parties, the sender loses exactly the amount and the receiver gains exactly the amount, so their sum is conserved |
| `TransferLaws.OnlyPartiesChange` | src/main/java/projeto-Java/services/TransactionService.java:41-42 | the committed store is exactly the debit-then-credit of `Move`, so every account other than the sender and the receiver keeps its balance and no account appears or disappears |
| `TransferLaws.SelfTransferKeepsBalances` | src/main/java/projeto-Java/services/TransactionService.java:33-42 | a committed self-transfer leaves every balance as it was |
| `TransferLaws.CommitsExactlyWhen` | src/main/java/projeto-Java/services/TransactionService.java:28-58 | a transfer commits if and only if both users exist, validation accepts, authorization returns, neither notification call throws a non-HTTP exception, and persisting succeeds |
| `TransferLaws.FailsBeforeAuthorization` | src/main/java/projeto-Java/services/TransactionService.java:33-38 | a failed lookup or validation aborts with its own reason, whatever every gateway would have done |
| `TransferLaws.AuthorizationGate` | src/main/java/projeto-Java/services/TransactionService.java:38-42 | after lookups and validation pass, the transfer is refused at the gate if and only if the authorization call does not return, before any balance changes |
| `TransferLaws.NotificationFailureNotFatal` | src/main/java/projeto-Java/services/TransactionService.java:50-51 | an error response for the sender, the receiver or both changes neither the commit nor the balances; each status field independently records success or failure text |
| `TransferLaws.RecordFields` | src/main/java/projeto-Java/services/TransactionService.java:45-51 | the committed record carries the requested amount, the resolved sender and receiver, and each party's delivery status |
| `TransferLaws.KeepsBalancesNonNegative` | src/main/java/projeto-Java/services/TransactionService.java:35-42 | if validation demands a positive amount that the sender covers, no committed transfer makes a balance negative |
| `Balances.TotalUpdate` | src/main/java/projeto-Java/services/TransactionService.java:41-42 | overwriting one balance changes the store's total by exactly the difference |

## Left out

- Quarkus dependency injection and the REST client wiring: the collaborators are passed as parameters.
- The internals of `UserService` are not part of this model: `findUserSenderById`, `findUserReceiverById` and `validadeTransaction`. A lookup is membership in the store, and validation is a predicate supplied by the caller.
- TransferLaws.KeepsBalancesNonNegative: holds only under the premise that validation demands a positive amount the sender can cover, because that rule lives in `validadeTransaction`.
- The other fields of the user entity (only id and balance are modelled). The response payloads and the empty `RequestSendNotification` body are left out too.
- JPA persistence: `saveUser` and `persist` become one `storageOk` outcome. The model does not say which of the three writes failed.
- A storage failure with `storageOk == false` stands for an unchecked exception such as `PersistenceException`, which rolls back. A checked exception from `saveUser(receiver)` (its code is not part of this model) would make the transactional boundary commit both changed balances without a record; the model does not cover that case.
- Exception types and messages: each cause of failure is one `TransferError` value. An error response and any other exception from the authorization call both give `AuthorizationDenied`.
- Calls already made to the gateways, such as a notification sent before a later rollback, are external effects. The model does not record them.
- The short-circuit between the two notification calls: the code does not call the receiver's if the sender's throws. Both orders give the same abort, so the model does not record which calls happened.
- Concurrent transfers, locking and lost updates: the model is sequential.
