/** The transaction records and the in-memory store they are appended to.
    Time is a count of microseconds (the resolution of the source's timestamps);
    amounts are exact reals. */
module Transaction {

  /** One stored transaction record. */
  datatype Txn = Txn(
    id: string,
    userId: string,
    amount: real,
    merchant: string,
    category: string,
    location: string,
    deviceId: string,
    timestamp: int)

  /** What a client submits for ingestion; the store adds the id and the time. */
  datatype TxnInput = TxnInput(
    userId: string,
    amount: real,
    merchant: string,
    category: string,
    location: string,
    deviceId: string)

  /** The acknowledgement returned by an ingestion. */
  datatype IngestResponse = IngestResponse(transactionId: string, status: string, receivedAt: int)

  const Accepted: string := "accepted"

  /** The record the store builds from an input, a fresh id and the current time. */
  function MakeRecord(input: TxnInput, id: string, now: int): (t: Txn)
    ensures t.id == id && t.timestamp == now
    ensures t.userId == input.userId && t.amount == input.amount
    ensures t.merchant == input.merchant && t.category == input.category
    ensures t.location == input.location && t.deviceId == input.deviceId
  {
    Txn(id, input.userId, input.amount, input.merchant, input.category,
        input.location, input.deviceId, now)
  }

  /** The records of one user, in store order. */
  function UserTxns(store: seq<Txn>, user: string): (r: seq<Txn>)
    ensures |r| <= |store|
    ensures forall s :: s in r <==> s in store && s.userId == user
  {
    if store == [] then []
    else
      assert store == [store[0]] + store[1..];
      (if store[0].userId == user then [store[0]] else []) + UserTxns(store[1..], user)
  }

  /** A user's history holds each of the user's records as often as the store
      does, and no record of anyone else. */
  lemma {:induction false} UserTxnsCount(store: seq<Txn>, user: string)
    ensures forall s ::
      multiset(UserTxns(store, user))[s] == (if s.userId == user then multiset(store)[s] else 0)
  {
    if store != [] {
      var head := if store[0].userId == user then [store[0]] else [];
      UserTxnsCount(store[1..], user);
      assert store == [store[0]] + store[1..];
      assert multiset(store) == multiset([store[0]]) + multiset(store[1..]);
      assert UserTxns(store, user) == head + UserTxns(store[1..], user);
      assert multiset(UserTxns(store, user)) == multiset(head) + multiset(UserTxns(store[1..], user));
    }
  }

  /** Appending to the store appends to the history of the record's user, and to no other. */
  lemma {:induction false} UserTxnsAppend(store: seq<Txn>, t: Txn, user: string)
    ensures UserTxns(store + [t], user)
         == UserTxns(store, user) + (if t.userId == user then [t] else [])
  {
    var tail := if t.userId == user then [t] else [];
    if store == [] {
      assert [t][1..] == [];
      assert UserTxns([t], user) == tail + UserTxns([], user);
    } else {
      var head := if store[0].userId == user then [store[0]] else [];
      assert (store + [t])[0] == store[0];
      assert (store + [t])[1..] == store[1..] + [t];
      calc {
        UserTxns(store + [t], user);
        head + UserTxns(store[1..] + [t], user);
        { UserTxnsAppend(store[1..], t, user); }
        head + (UserTxns(store[1..], user) + tail);
        (head + UserTxns(store[1..], user)) + tail;
        UserTxns(store, user) + tail;
      }
    }
  }

  /** The process-wide transaction list, as an object whose one field is appended to. */
  class TransactionStore {
    var records: seq<Txn>

    /** Every stored amount is positive and no two records share an id. */
    ghost predicate Valid()
      reads this
    {
      (forall i :: 0 <= i < |records| ==> records[i].amount > 0.0) &&
      (forall i, j :: 0 <= i < j < |records| ==> records[i].id != records[j].id)
    }

    constructor ()
      ensures Valid() && records == []
    {
      records := [];
    }

    /** Append one record built from `input`; `freshId` and `now` stand for the
        identifier generator and the clock. */
    method Ingest(input: TxnInput, freshId: string, now: int) returns (resp: IngestResponse)
      requires Valid()
      requires input.amount > 0.0
      requires forall i :: 0 <= i < |records| ==> records[i].id != freshId
      modifies this
      ensures Valid()
      ensures records == old(records) + [MakeRecord(input, freshId, now)]
      ensures |records| == |old(records)| + 1
      ensures resp.transactionId == records[|records| - 1].id
      ensures resp.receivedAt == records[|records| - 1].timestamp
      ensures resp.status == Accepted
    {
      var record := MakeRecord(input, freshId, now);
      records := records + [record];
      resp := IngestResponse(record.id, Accepted, record.timestamp);
    }

    /** The whole store, unchanged. */
    method GetAll() returns (all: seq<Txn>)
      ensures all == records
    {
      all := records;
    }
  }
}
