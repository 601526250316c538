/** What createTransaction promises, stated over its specification
    Execute: conservation of money, the exact debit and credit, the order
    of the gates before any mutation, and notifications as data. */
module TransferLaws {
  import opened Balances
  import opened Transactions

  /** An assumed rule of validadeTransaction: it accepts only a positive
      amount the sender can cover. The validation itself is not part of this
      model, so the lemmas that need such a rule take it as a premise. */
  ghost predicate RequiresFunds(validate: (Account, Money) -> bool)
  {
    forall sender: Account, amount: Money :: validate(sender, amount) ==> 0.0 < amount <= sender.balance
  }

  ghost predicate NonNegative(store: Store)
  {
    forall id :: id in store ==> store[id] >= 0.0
  }

  /** No money is created or destroyed: the store's total is the same
      after a committed transfer, self-transfers included. */
  lemma ConservesTotal(store: Store, req: TransferRequest, validate: (Account, Money) -> bool, gw: Gateways)
    requires Execute(store, req, validate, gw).Committed?
    ensures Total(Execute(store, req, validate, gw).store) == Total(store)
  {
    var (s, r, a) := (req.senderId, req.receiverId, req.amount);
    var debited := store[s := store[s] - a];
    TotalUpdate(store, s, store[s] - a);
    TotalUpdate(debited, r, debited[r] + a);
  }

  /** With two distinct parties the sender loses exactly the amount and
      the receiver gains exactly the amount, so their sum is unchanged. */
  lemma ExactDebitAndCredit(store: Store, req: TransferRequest, validate: (Account, Money) -> bool, gw: Gateways)
    requires req.senderId != req.receiverId
    requires Execute(store, req, validate, gw).Committed?
    ensures var after := Execute(store, req, validate, gw).store;
      && after[req.senderId] == store[req.senderId] - req.amount
      && after[req.receiverId] == store[req.receiverId] + req.amount
      && after[req.senderId] + after[req.receiverId] == store[req.senderId] + store[req.receiverId]
  {
  }

  /** Only the two parties' balances can change; every other account and
      the set of accounts stay as they were. This is the frame of Move,
      carried through a committed Execute. */
  lemma OnlyPartiesChange(store: Store, req: TransferRequest, validate: (Account, Money) -> bool, gw: Gateways)
    requires Execute(store, req, validate, gw).Committed?
    ensures var after := Execute(store, req, validate, gw).store;
      && after == Move(store, req.senderId, req.receiverId, req.amount)
      && after.Keys == store.Keys
      && forall id :: id in store && id != req.senderId && id != req.receiverId ==> after[id] == store[id]
  {
  }

  /** A transfer to oneself debits and credits the same entity, which
      leaves every balance as it was; the record is still created. */
  lemma SelfTransferKeepsBalances(store: Store, req: TransferRequest, validate: (Account, Money) -> bool, gw: Gateways)
    requires req.senderId == req.receiverId
    requires Execute(store, req, validate, gw).Committed?
    ensures Execute(store, req, validate, gw).store == store
  {
  }

  /** Exactly when a transfer commits: both users exist, the validation
      accepts, the authorization call returns, neither notification call
      throws anything but an error response, and persisting succeeds. */
  lemma CommitsExactlyWhen(store: Store, req: TransferRequest, validate: (Account, Money) -> bool, gw: Gateways)
    ensures Execute(store, req, validate, gw).Committed? <==>
      && req.senderId in store
      && req.receiverId in store
      && validate(Account(req.senderId, store[req.senderId]), req.amount)
      && gw.authorize.Responded?
      && !gw.notifySender.TransportError?
      && !gw.notifyReceiver.TransportError?
      && gw.storageOk
  {
  }

  /** A failed lookup or validation aborts with its own reason, before the
      authorization gateway or anything later is consulted: the outcome does
      not depend on the gateways at all. */
  lemma FailsBeforeAuthorization(store: Store, req: TransferRequest, validate: (Account, Money) -> bool, gw: Gateways, gw': Gateways)
    requires
      || req.senderId !in store
      || req.receiverId !in store
      || !validate(Account(req.senderId, store[req.senderId]), req.amount)
    ensures Execute(store, req, validate, gw) == Execute(store, req, validate, gw')
    ensures Execute(store, req, validate, gw) ==
      if req.senderId !in store then Aborted(SenderNotFound)
      else if req.receiverId !in store then Aborted(ReceiverNotFound)
      else Aborted(ValidationRejected)
  {
  }

  /** The authorization gate: once lookups and validation pass, an
      authorization call that does not return aborts the transfer whatever
      the notification and storage outcomes would have been. */
  lemma AuthorizationGate(store: Store, req: TransferRequest, validate: (Account, Money) -> bool, gw: Gateways)
    requires req.senderId in store && req.receiverId in store
    requires validate(Account(req.senderId, store[req.senderId]), req.amount)
    ensures !gw.authorize.Responded? <==> Execute(store, req, validate, gw) == Aborted(AuthorizationDenied)
  {
  }

  /** An error response from the notification gateway is recorded, not
      raised: it changes neither whether the transfer commits nor the new
      balances, only the status text of the party concerned. */
  lemma NotificationFailureNotFatal(store: Store, req: TransferRequest, validate: (Account, Money) -> bool, gw: Gateways)
    requires !gw.notifySender.TransportError? && !gw.notifyReceiver.TransportError?
    ensures var delivered := gw.(notifySender := Responded, notifyReceiver := Responded);
      var o, o' := Execute(store, req, validate, gw), Execute(store, req, validate, delivered);
      && (o.Committed? <==> o'.Committed?)
      && (o.Committed? ==>
        && o.store == o'.store
        && o.record == o'.record.(notifySender := o.record.notifySender, notifyReceiver := o.record.notifyReceiver)
        && o.record.notifySender == (if gw.notifySender.Responded? then NotifySent else NotifyFailed)
        && o.record.notifyReceiver == (if gw.notifyReceiver.Responded? then NotifySent else NotifyFailed))
  {
  }

  /** The committed record carries the requested amount, the resolved
      sender and receiver, and for each party whether its notification was
      delivered. */
  lemma RecordFields(store: Store, req: TransferRequest, validate: (Account, Money) -> bool, gw: Gateways)
    requires Execute(store, req, validate, gw).Committed?
    ensures var t := Execute(store, req, validate, gw).record;
      && t.amount == req.amount
      && t.sender == req.senderId
      && t.receiver == req.receiverId
      && (Delivered(t.notifySender) <==> gw.notifySender.Responded?)
      && (Delivered(t.notifyReceiver) <==> gw.notifyReceiver.Responded?)
  {
  }

  /** If the validation demands a positive amount that the sender can
      cover, a committed transfer never drives a balance below zero. */
  lemma KeepsBalancesNonNegative(store: Store, req: TransferRequest, validate: (Account, Money) -> bool, gw: Gateways)
    requires RequiresFunds(validate)
    requires NonNegative(store)
    requires Execute(store, req, validate, gw).Committed?
    ensures NonNegative(Execute(store, req, validate, gw).store)
  {
  }
}
