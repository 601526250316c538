/** The account store as the transfer sees it: a table from user id to
    balance. Balances are exact decimals (BigDecimal in the source), so they
    are modelled as `real`: `add` and `subtract` never round. */
module Balances {

  type UserId = int
  type Money = real
  type Store = map<UserId, Money>

  /** The money held by all accounts of the store together. */
  ghost function Total(store: Store): Money
    decreases |store|
  {
    if store.Keys == {} then 0.0
    else
      assert exists id :: id in store.Keys by {
        if forall id :: id !in store.Keys {
          assert false;
        }
      }
      var id :| id in store.Keys;
      assert |store - {id}| < |store| by {
        assert (store - {id}).Keys == store.Keys - {id};
      }
      store[id] + Total(store - {id})
  }

  /** Any one account can be taken out of the total first, whichever
      account the definition happens to pick. */
  lemma {:induction false} TotalRemove(store: Store, id: UserId)
    requires id in store
    ensures Total(store) == store[id] + Total(store - {id})
    decreases |store|
  {
    var picked :| picked in store && Total(store) == store[picked] + Total(store - {picked});
    if picked != id {
      var rest := store - {picked};
      assert (rest.Keys == store.Keys - {picked}) && |rest| < |store|;
      TotalRemove(rest, id);
      var rest' := store - {id};
      assert (rest'.Keys == store.Keys - {id}) && |rest'| < |store|;
      TotalRemove(rest', picked);
      assert rest - {id} == rest' - {picked};
    }
  }

  /** Overwriting one existing balance changes the total by exactly the
      difference between the new and the old balance. */
  lemma {:induction false} TotalUpdate(store: Store, id: UserId, balance: Money)
    requires id in store
    ensures Total(store[id := balance]) == Total(store) - store[id] + balance
  {
    var updated := store[id := balance];
    TotalRemove(updated, id);
    TotalRemove(store, id);
    assert updated - {id} == store - {id};
  }
}
