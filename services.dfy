/** TransactionService as a stateful object over the persisted users and
    transaction records. */
module Services {
  import opened Balances
  import opened Transactions
  import TransferLaws

  /** The persisted state the service acts on: every user's balance and
      the list of transaction records persisted so far. */
  class TransactionService {
    var balances: Store
    var transactions: seq<Transaction>

    /** createTransaction. The balances are updated in place; a failure
        after that point restores them, as the transactional boundary
        rolls the unit of work back. */
    method CreateTransaction(req: TransferRequest, validate: (Account, Money) -> bool, gw: Gateways)
      returns (r: Result<Transaction>)
      modifies this
      ensures Execute(old(balances), req, validate, gw).Aborted? ==>
        && r == Failure(Execute(old(balances), req, validate, gw).reason)
        && balances == old(balances)
        && transactions == old(transactions)
      ensures Execute(old(balances), req, validate, gw).Committed? ==>
        && r == Success(Execute(old(balances), req, validate, gw).record)
        && balances == Execute(old(balances), req, validate, gw).store
        && transactions == old(transactions) + [r.value]
      ensures Total(balances) == Total(old(balances))
    {
      var amount := req.amount;
      if req.senderId !in balances {
        return Failure(SenderNotFound);
      }
      if req.receiverId !in balances {
        return Failure(ReceiverNotFound);
      }
      if !validate(Account(req.senderId, balances[req.senderId]), req.amount) {
        return Failure(ValidationRejected);
      }

      var authorized := AuthorizeTransaction(gw.authorize);
      if authorized.Failure? {
        return Failure(authorized.error);
      }

      var snapshot := balances;
      balances := balances[req.senderId := balances[req.senderId] - req.amount];
      balances := balances[req.receiverId := balances[req.receiverId] + req.amount];

      var toSender := SendNotificationEmail(gw.notifySender);
      if toSender.Failure? {
        balances := snapshot;
        return Failure(toSender.error);
      }
      var toReceiver := SendNotificationEmail(gw.notifyReceiver);
      if toReceiver.Failure? {
        balances := snapshot;
        return Failure(toReceiver.error);
      }
      var transaction := Transaction(amount, req.senderId, req.receiverId, toSender.value, toReceiver.value);

      if !gw.storageOk {
        balances := snapshot;
        return Failure(PersistenceFailed);
      }
      transactions := transactions + [transaction];
      r := Success(transaction);
      TransferLaws.ConservesTotal(snapshot, req, validate, gw);
    }
  }
}
