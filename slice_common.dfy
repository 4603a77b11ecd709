/** What the two Redux slices share: the request status machine, the message a
    rejected fetch stores, and how a fulfilled update reconciles the cached list. */
module SliceCommon {
  import opened Wrappers
  import opened Values
  import Db

  /** `'idle' | 'loading' | 'succeeded' | 'failed'` */
  datatype Status = Idle | Loading | Succeeded | Failed

  /** `action.error.message || fallback`: an absent or empty message gives the fallback. */
  function RejectionMessage(message: Option<string>, fallback: string): (r: string)
    ensures fallback != "" ==> r != ""
    ensures message.Some? && message.value != "" ==> r == message.value
    ensures (message.None? || message.value == "") ==> r == fallback
  {
    if message.Some? && message.value != "" then message.value else fallback
  }

  /** No record before index `j` has id `id`. */
  predicate FirstWithId(items: seq<Record>, j: int, id: Value)
    requires 0 <= j <= |items|
  {
    forall k :: 0 <= k < j ==> IdOf(items[k]) != id
  }

  /** The cached list after `items[findIndex(x => x.id === p.id)] = p`: the first
      entry with the payload's id becomes the payload, nothing else changes. */
  function Replaced(items: seq<Record>, p: Record): (r: seq<Record>)
    ensures |r| == |items|
    ensures forall j :: 0 <= j < |items| ==>
      r[j] == (if IdOf(items[j]) == IdOf(p) && FirstWithId(items, j, IdOf(p)) then p else items[j])
  {
    if items == [] then []
    else if IdOf(items[0]) == IdOf(p) then [p] + items[1..]
    else
      var rest := Replaced(items[1..], p);
      assert forall j :: 1 <= j < |items| ==> (FirstWithId(items, j, IdOf(p)) <==> FirstWithId(items[1..], j - 1, IdOf(p))) by {
        forall j | 1 <= j < |items|
          ensures FirstWithId(items, j, IdOf(p)) <==> FirstWithId(items[1..], j - 1, IdOf(p))
        {
          if FirstWithId(items[1..], j - 1, IdOf(p)) {
            forall k | 0 <= k < j ensures IdOf(items[k]) != IdOf(p) {
              if k > 0 { assert items[k] == items[1..][k - 1]; }
            }
          }
        }
      }
      [items[0]] + rest
  }

  /** Replacing where `i` is the first index with the payload's id puts the
      payload at `i` and leaves every other entry as it was. */
  lemma ReplacedAt(items: seq<Record>, p: Record, i: int)
    requires 0 <= i < |items| && IdOf(items[i]) == IdOf(p) && FirstWithId(items, i, IdOf(p))
    ensures Replaced(items, p)[i] == p
    ensures forall j :: 0 <= j < |items| && j != i ==> Replaced(items, p)[j] == items[j]
  {
    forall j | i < j < |items| ensures !FirstWithId(items, j, IdOf(p)) {
      assert IdOf(items[i]) == IdOf(p);
    }
  }

  /** `Replaced` is the reducer's assignment at `findIndex`, and no change when
      the index is -1. */
  lemma ReplacedIsIndexUpdate(items: seq<Record>, p: Record)
    ensures var i := Db.FindIndex(items, IdOf(p));
            Replaced(items, p) == if i == -1 then items else items[i := p]
  {
    var i := Db.FindIndex(items, IdOf(p));
    if i != -1 {
      ReplacedAt(items, p, i);
      assert Replaced(items, p) == items[i := p];
    } else {
      assert Replaced(items, p) == items;
    }
  }

  /** Replacing by id keeps the set of cached ids. */
  lemma ReplacedKeepsIds(items: seq<Record>, p: Record)
    ensures IdsOf(Replaced(items, p)) == IdsOf(items)
  {
    var r := Replaced(items, p);
    forall x | x in IdsOf(r) ensures x in IdsOf(items) {
      var j :| 0 <= j < |r| && IdOf(r[j]) == x;
      assert IdOf(items[j]) == x;
    }
    forall x | x in IdsOf(items) ensures x in IdsOf(r) {
      var j :| 0 <= j < |items| && IdOf(items[j]) == x;
      assert IdOf(r[j]) == x;
    }
  }

  /** An id that is not cached leaves the list as it is. */
  lemma ReplacedAbsentIsNoOp(items: seq<Record>, p: Record)
    requires IdOf(p) !in IdsOf(items)
    ensures Replaced(items, p) == items
  {
    var r := Replaced(items, p);
    forall j | 0 <= j < |items| ensures r[j] == items[j] {
      assert IdOf(items[j]) in IdsOf(items);
    }
  }
}
