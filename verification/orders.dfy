/** The purchase-order aggregate: line-item objects, the orders that refer
    to them, the item-cost total and the two limit checks an order answers. */
module Orders {

  /** A monetary amount. The source uses `decimal`; the model keeps the
      arithmetic exact and unbounded. */
  type Money = int

  /** A reference to a line-item object. Orders hold references, so one
      object can sit in several slots, and a cost change is seen in all. */
  type ItemRef = nat

  /** A child entity. `purchaseOrderId` names the owning order by value,
      never by reference. */
  datatype LineItem = LineItem(id: int, purchaseOrderId: int, cost: Money)

  /** The line-item objects created so far, and the next unused reference. */
  datatype Heap = Heap(objects: map<ItemRef, LineItem>, next: ItemRef)

  const EmptyHeap := Heap(map[], 0)

  /** The aggregate root: references to its items in insertion order, and
      its spend limit. */
  datatype PurchaseOrder = PurchaseOrder(id: int, items: seq<ItemRef>, spendLimit: Money)

  /** The outcome of a guarded mutation: whether it was accepted, and the
      state after it (the old state when it was rejected). */
  datatype Attempt<S> = Attempt(accepted: bool, state: S)

  /** The faults a guarded mutation can raise instead of answering. */
  datatype Fault =
    | IncorrectParent  // the order handed to a line item is not its owner
    | ParentNotFound   // the owner id names no order in the repository

  /** Every reference in use is below `next`, so `next` is fresh. */
  predicate HeapOk(heap: Heap) {
    forall r :: r in heap.objects ==> r < heap.next
  }

  /** `new LineItem(cost)`: id and owner id keep their default, 0. */
  function NewLineItem(cost: Money): LineItem {
    LineItem(0, 0, cost)
  }

  /** `new PurchaseOrder() { SpendLimit = limit }`: id 0, no items. */
  function NewPurchaseOrder(limit: Money): PurchaseOrder {
    PurchaseOrder(0, [], limit)
  }

  /** Creating a line-item object: it gets a reference no existing object
      has, and every existing object is left as it was. */
  function Allocate(heap: Heap, item: LineItem): (r: (Heap, ItemRef))
    requires HeapOk(heap)
    ensures HeapOk(r.0)
    ensures r.1 !in heap.objects
    ensures r.0.objects == heap.objects[r.1 := item]
  {
    (Heap(heap.objects[heap.next := item], heap.next + 1), heap.next)
  }

  /** Every reference in `refs` names an existing object. */
  predicate Allocated(refs: seq<ItemRef>, heap: Heap) {
    forall r :: r in refs ==> r in heap.objects
  }

  /** The sum of the costs of the objects `refs` refers to, one term per slot. */
  function Sum(refs: seq<ItemRef>, heap: Heap): Money
    requires Allocated(refs, heap)
  {
    if |refs| == 0 then 0 else heap.objects[refs[0]].cost + Sum(refs[1..], heap)
  }

  /** How many slots of `refs` hold the object `r`. */
  function Count(refs: seq<ItemRef>, r: ItemRef): nat {
    if |refs| == 0 then 0 else (if refs[0] == r then 1 else 0) + Count(refs[1..], r)
  }

  /** No object sits in two slots. */
  predicate Distinct(refs: seq<ItemRef>) {
    forall r :: r in refs ==> Count(refs, r) <= 1
  }

  function Total(po: PurchaseOrder, heap: Heap): Money
    requires Allocated(po.items, heap)
  {
    Sum(po.items, heap)
  }

  /** The budget invariant the aggregate exists to protect. */
  predicate WithinLimit(po: PurchaseOrder, heap: Heap) {
    Allocated(po.items, heap) && Total(po, heap) <= po.spendLimit
  }

  /** Every object `po` holds names `id` as its owner. */
  predicate OwnedBy(po: PurchaseOrder, heap: Heap, id: int) {
    forall r :: r in po.items ==> r in heap.objects && heap.objects[r].purchaseOrderId == id
  }

  /** `po` with the reference `item` appended: what a successful add leaves. */
  function Appended(po: PurchaseOrder, item: ItemRef): PurchaseOrder {
    po.(items := po.items + [item])
  }

  /** The object `r` with its cost replaced; every slot of every order that
      refers to it sees the new cost. */
  function SetCost(heap: Heap, r: ItemRef, cost: Money): Heap
    requires r in heap.objects
  {
    heap.(objects := heap.objects[r := heap.objects[r].(cost := cost)])
  }

  lemma {:induction false} SumAppend(refs: seq<ItemRef>, x: ItemRef, heap: Heap)
    requires Allocated(refs, heap) && x in heap.objects
    ensures Allocated(refs + [x], heap)
    ensures Sum(refs + [x], heap) == Sum(refs, heap) + heap.objects[x].cost
  {
    if |refs| == 0 {
      assert refs + [x] == [x];
    } else {
      assert (refs + [x])[1..] == refs[1..] + [x];
      SumAppend(refs[1..], x, heap);
    }
  }

  lemma {:induction false} CountAppend(refs: seq<ItemRef>, x: ItemRef, r: ItemRef)
    ensures Count(refs + [x], r) == Count(refs, r) + if x == r then 1 else 0
  {
    if |refs| == 0 {
      assert refs + [x] == [x];
    } else {
      assert (refs + [x])[1..] == refs[1..] + [x];
      CountAppend(refs[1..], x, r);
    }
  }

  lemma {:induction false} CountAbsent(refs: seq<ItemRef>, r: ItemRef)
    ensures r !in refs <==> Count(refs, r) == 0
  {
    if |refs| > 0 {
      assert r in refs <==> refs[0] == r || r in refs[1..];
      CountAbsent(refs[1..], r);
    }
  }

  /** Changing the cost of one object moves the total of any list of slots
      by the change times the number of slots that hold that object. */
  lemma {:induction false} SumSetCost(refs: seq<ItemRef>, heap: Heap, r: ItemRef, cost: Money)
    requires Allocated(refs, heap) && r in heap.objects
    ensures Allocated(refs, SetCost(heap, r, cost))
    ensures Sum(refs, SetCost(heap, r, cost))
         == Sum(refs, heap) + Count(refs, r) * (cost - heap.objects[r].cost)
  {
    if |refs| > 0 {
      SumSetCost(refs[1..], heap, r, cost);
      var d := cost - heap.objects[r].cost;
      var c := Count(refs[1..], r);
      assert (c + 1) * d == c * d + d;
    }
  }

  /** Totals of one and two slots, for concrete scenarios. */
  lemma SumOfTwo(a: ItemRef, b: ItemRef, heap: Heap)
    requires a in heap.objects && b in heap.objects
    ensures Allocated([a], heap) && Allocated([a, b], heap)
    ensures Sum([a], heap) == heap.objects[a].cost
    ensures Sum([a, b], heap) == heap.objects[a].cost + heap.objects[b].cost
    ensures Count([a, b], b) == (if a == b then 2 else 1)
  {
    assert [a][1..] == [] && [b][1..] == [];
    assert [a, b][1..] == [b];
    assert Count([b], b) == 1 + Count([], b);
  }

  /** Creating an object changes no total over existing references. */
  lemma {:induction false} SumAfterAllocate(refs: seq<ItemRef>, heap: Heap, item: LineItem)
    requires HeapOk(heap) && Allocated(refs, heap)
    ensures Allocated(refs, Allocate(heap, item).0)
    ensures Sum(refs, Allocate(heap, item).0) == Sum(refs, heap)
  {
    if |refs| > 0 {
      SumAfterAllocate(refs[1..], heap, item);
    }
  }

  /** `Items.Sum(i => i.Cost)`, computed front to back as the enumeration does. */
  method SumCosts(refs: seq<ItemRef>, heap: Heap) returns (total: Money)
    requires Allocated(refs, heap)
    ensures total == Sum(refs, heap)
  {
    total := 0;
    var k := 0;
    while k < |refs|
      invariant 0 <= k <= |refs|
      invariant Allocated(refs[..k], heap)
      invariant total == Sum(refs[..k], heap)
    {
      assert refs[..k + 1] == refs[..k] + [refs[k]];
      SumAppend(refs[..k], refs[k], heap);
      total := total + heap.objects[refs[k]].cost;
      k := k + 1;
    }
    assert refs[..k] == refs;
  }

  /** The add check `CheckLimit(newItem)`: the current total plus the new
      item's cost is within the limit, which is exactly the invariant of the
      order with the item appended. */
  function CheckLimitNew(po: PurchaseOrder, heap: Heap, newItem: ItemRef): (ok: bool)
    requires Allocated(po.items, heap) && newItem in heap.objects
    ensures ok <==> WithinLimit(Appended(po, newItem), heap)
  {
    SumAppend(po.items, newItem, heap);
    Total(po, heap) + heap.objects[newItem].cost <= po.spendLimit
  }

  /** The replacement check `CheckLimit(item, newValue)`: the current total,
      less the item's cost once, plus the proposed cost, is within the
      limit. Only when the item sits in exactly one slot of the order does
      that answer whether the order stays within its limit; it never checks
      membership, and for a non-member or a twice-held item it answers a
      different question. */
  function CheckLimitReplace(po: PurchaseOrder, heap: Heap, item: ItemRef, newValue: Money): (ok: bool)
    requires Allocated(po.items, heap) && item in heap.objects
    ensures Count(po.items, item) == 1 ==> (ok <==> WithinLimit(po, SetCost(heap, item, newValue)))
  {
    SumSetCost(po.items, heap, item, newValue);
    Total(po, heap) + (newValue - heap.objects[item].cost) <= po.spendLimit
  }
}
