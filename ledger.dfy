/**
 * The ledger of bookings (`Transaction`): an insertion-ordered map from a
 * counter to parties, with status-filtered views.
 */
module Ledger {
  import opened Errors
  import opened Parties

  class Transaction {
    /** `_transactions`.  Keys are inserted in increasing order, so insertion order is key order. */
    var entries: map<int, Party>
    /** `__next_transaction_no`. */
    var nextNo: int

    /** The keys are exactly the numbers handed out so far. */
    ghost predicate Valid()
      reads this
    {
      nextNo >= 0 && forall id :: id in entries <==> 0 <= id < nextNo
    }

    constructor ()
      ensures Valid() && entries == map[] && nextNo == 0
    {
      entries := map[];
      nextNo := 0;
    }

    /** `add`: stores the party under the next number and moves the counter on. */
    method Add(party: Party)
      requires Valid()
      modifies this
      ensures Valid()
      ensures old(nextNo) !in old(entries)
      ensures entries == old(entries)[old(nextNo) := party]
      ensures nextNo == old(nextNo) + 1
    {
      entries := entries[nextNo := party];
      nextNo := nextNo + 1;
    }

    /** `get`: the party under `iden`, or a `KeyError`. */
    method Get(iden: int) returns (r: Result<Party>)
      ensures iden in entries ==> r == Ok(entries[iden])
      ensures iden !in entries ==> r == Err(KeyError)
    {
      if iden in entries {
        r := Ok(entries[iden]);
      } else {
        r := Err(KeyError);
      }
    }

    /** The entries whose party has the given status. */
    function StatusView(status: int): (view: map<int, Party>)
      reads this, entries.Values
      ensures forall id :: id in view <==> id in entries && entries[id].status == status
      ensures forall id :: id in view ==> view[id] == entries[id]
    {
      map id | id in entries && entries[id].status == status :: entries[id]
    }

    /** The scan behind the three views: every entry, in insertion order, kept when its status matches. */
    method Filter(status: int) returns (view: map<int, Party>)
      requires Valid()
      ensures view == StatusView(status)
    {
      view := map[];
      for id := 0 to nextNo
        invariant forall k :: k in view <==> 0 <= k < id && entries[k].status == status
        invariant forall k :: k in view ==> view[k] == entries[k]
      {
        if entries[id].status == status {
          view := view[id := entries[id]];
        }
      }
      ghost var expected := StatusView(status);
      forall k ensures k in view <==> k in expected {
        assert k in entries <==> 0 <= k < nextNo;
      }
      assert forall k :: k in view ==> view[k] == expected[k];
    }

    /** `pending_transcations`. */
    method PendingTransactions() returns (view: map<int, Party>)
      requires Valid()
      ensures forall id :: id in view <==> id in entries && entries[id].Pending()
      ensures forall id :: id in view ==> view[id] == entries[id]
    {
      view := Filter(PENDING);
    }

    /** `completed_transcations`. */
    method CompletedTransactions() returns (view: map<int, Party>)
      requires Valid()
      ensures forall id :: id in view <==> id in entries && entries[id].Complete()
      ensures forall id :: id in view ==> view[id] == entries[id]
    {
      view := Filter(COMPLETE);
    }

    /** `cancelled_transcations`. */
    method CancelledTransactions() returns (view: map<int, Party>)
      requires Valid()
      ensures forall id :: id in view <==> id in entries && entries[id].Cancelled()
      ensures forall id :: id in view ==> view[id] == entries[id]
    {
      view := Filter(CANCELLED);
    }

    /** Every party's status is one of the three the setters assign. */
    ghost predicate KnownStatuses()
      reads this, entries.Values
    {
      forall id :: id in entries ==> entries[id].status in {PENDING, COMPLETE, CANCELLED}
    }

    /** With known statuses, the three views are disjoint and together hold the whole ledger. */
    lemma ViewsPartition()
      requires KnownStatuses()
      ensures StatusView(PENDING).Keys !! StatusView(COMPLETE).Keys
      ensures StatusView(PENDING).Keys !! StatusView(CANCELLED).Keys
      ensures StatusView(COMPLETE).Keys !! StatusView(CANCELLED).Keys
      ensures StatusView(PENDING).Keys + StatusView(COMPLETE).Keys + StatusView(CANCELLED).Keys == entries.Keys
    {
      var all := StatusView(PENDING).Keys + StatusView(COMPLETE).Keys + StatusView(CANCELLED).Keys;
      forall id | id in entries ensures id in all {
        assert entries[id].status in {PENDING, COMPLETE, CANCELLED};
      }
    }
  }
}
