/** The transfer orchestration of TransactionService: resolve both users,
    let the user service validate, pass the external authorization gate,
    move the amount, ask the notification gateway twice, and persist the
    updated users and one new transaction record, all inside one
    transactional unit of work. */
module Transactions {
  import opened Balances

  /** The status texts that sendNotificationEmail records. */
  const NotifySent: string := "Notificação enviada com sucesso"
  const NotifyFailed: string := "Falha ao enviar a notificação"

  /** How one REST call into a gateway ended. `ClientError` is the
      ClientWebApplicationException the REST client throws for an error
      response, the only exception the service catches; `TransportError`
      stands for any other exception escaping the call. */
  datatype CallOutcome = Responded | ClientError | TransportError

  /** What the environment does during one transfer: the outcome of the
      authorization call, of the two notification calls (sender first),
      and whether saving the users and persisting the record succeeds. */
  datatype Gateways = Gateways(
    authorize: CallOutcome,
    notifySender: CallOutcome,
    notifyReceiver: CallOutcome,
    storageOk: bool)

  /** The incoming transfer request. */
  datatype TransferRequest = TransferRequest(senderId: UserId, receiverId: UserId, amount: Money)

  /** A resolved user as the user service's validation sees it. */
  datatype Account = Account(id: UserId, balance: Money)

  /** The persisted transaction record; sender and receiver are references
      to the user entities, modelled by their ids. */
  datatype Transaction = Transaction(
    amount: Money,
    sender: UserId,
    receiver: UserId,
    notifySender: string,
    notifyReceiver: string)

  /** Why a transfer was aborted. Each is an exception leaving
      createTransaction. The first four arise before any balance is written
      (lines 33-38 come before line 41), so they change nothing whether or not
      the unit of work is rolled back; authorization refusal is even a checked
      exception, on which the transactional boundary commits. Only the last
      two arise after the balances changed and rely on the rollback that an
      unchecked exception triggers. */
  datatype TransferError =
    | SenderNotFound
    | ReceiverNotFound
    | ValidationRejected
    | AuthorizationDenied
    | NotificationAborted
    | PersistenceFailed

  datatype Result<T> = Success(value: T) | Failure(error: TransferError)

  /** The whole effect of one transfer on the persisted state: either a
      committed record with the new store, or an abort that leaves the
      store and the record list as they were. */
  datatype Outcome = Committed(record: Transaction, store: Store) | Aborted(reason: TransferError)

  /** authorizeTransaction: the gate passes exactly when the authorization
      call returns; an error response is rethrown as a refusal and any other
      exception escapes as well. */
  function AuthorizeTransaction(call: CallOutcome): (r: Result<()>)
    ensures r.Success? <==> call.Responded?
    ensures r.Failure? ==> r.error == AuthorizationDenied
  {
    match call
    case Responded => Success(())
    case ClientError => Failure(AuthorizationDenied)
    case TransportError => Failure(AuthorizationDenied)
  }

  /** Reads a recorded notification status back: was it delivered? */
  predicate Delivered(status: string)
  {
    status == NotifySent
  }

  /** sendNotificationEmail: an error response is turned into the failure
      text instead of an exception; an exception of any other kind is not
      caught and escapes. */
  function SendNotificationEmail(call: CallOutcome): (r: Result<string>)
    ensures r.Success? <==> !call.TransportError?
    ensures r.Success? ==> (Delivered(r.value) <==> call.Responded?)
    ensures r.Success? ==> r.value in {NotifySent, NotifyFailed}
  {
    match call
    case Responded => Success(NotifySent)
    case ClientError => Success(NotifyFailed)
    case TransportError => Failure(NotificationAborted)
  }

  /** The balances after the sender is debited and then the receiver is
      credited, one update after the other, as the two entity writes do. */
  function Move(store: Store, senderId: UserId, receiverId: UserId, amount: Money): (moved: Store)
    requires senderId in store && receiverId in store
    ensures moved.Keys == store.Keys
    ensures forall id :: id in store && id != senderId && id != receiverId ==> moved[id] == store[id]
  {
    var debited := store[senderId := store[senderId] - amount];
    debited[receiverId := debited[receiverId] + amount]
  }

  /** The specification of createTransaction: what one call does to the
      store, given the user service's validation and the gateways'
      behaviour. */
  function Execute(store: Store, req: TransferRequest, validate: (Account, Money) -> bool, gw: Gateways): (o: Outcome)
    ensures o.Committed? ==> o.store.Keys == store.Keys
    ensures o.Committed? ==> req.senderId in store && req.receiverId in store
  {
    if req.senderId !in store then Aborted(SenderNotFound)
    else if req.receiverId !in store then Aborted(ReceiverNotFound)
    else if !validate(Account(req.senderId, store[req.senderId]), req.amount) then Aborted(ValidationRejected)
    else if AuthorizeTransaction(gw.authorize).Failure? then Aborted(AuthorizationDenied)
    else
      var moved := Move(store, req.senderId, req.receiverId, req.amount);
      var toSender := SendNotificationEmail(gw.notifySender);
      var toReceiver := SendNotificationEmail(gw.notifyReceiver);
      if toSender.Failure? || toReceiver.Failure? then Aborted(NotificationAborted)
      else if !gw.storageOk then Aborted(PersistenceFailed)
      else Committed(Transaction(req.amount, req.senderId, req.receiverId, toSender.value, toReceiver.value), moved)
  }
}
