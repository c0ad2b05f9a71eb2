/** The design in which the order checks its own limit: `PurchaseOrder.TryAddItem`
    and the two `LineItem.TryUpdateCost` overloads, one handed its parent
    order directly and one looking the parent up in a repository. */
module Aggregate {
  import opened Wrappers
  import opened Orders
  import opened Repository

  /** `PurchaseOrder.TryAddItem`: appends the reference exactly when the add
      check passes. The item's owner id is left as the caller set it. */
  function TryAddItem(po: PurchaseOrder, heap: Heap, item: ItemRef): (r: Attempt<PurchaseOrder>)
    requires Allocated(po.items, heap) && item in heap.objects
    ensures r.accepted <==> WithinLimit(Appended(po, item), heap)
    ensures r.state == if r.accepted then Appended(po, item) else po
    ensures WithinLimit(po, heap) ==> WithinLimit(r.state, heap)
  {
    if CheckLimitNew(po, heap, item) then Attempt(true, Appended(po, item)) else Attempt(false, po)
  }

  /** `LineItem.TryUpdateCost(cost, parent)`: a fault when `parent` is not the
      order the item names, raised before any check; otherwise the object's
      cost is replaced exactly when the replacement check passes. On a fault
      no new heap is produced, so the cost is unchanged. The parent stays
      within its limit when the object sits in at most one of its slots. */
  function TryUpdateCost(heap: Heap, item: ItemRef, cost: Money, parent: PurchaseOrder): (r: Result<Attempt<Heap>, Fault>)
    requires item in heap.objects && Allocated(parent.items, heap)
    ensures r.Failure? <==> parent.id != heap.objects[item].purchaseOrderId
    ensures r.Failure? ==> r.error == IncorrectParent
    ensures r.Success? ==> (r.value.accepted <==> CheckLimitReplace(parent, heap, item, cost))
    ensures r.Success? ==> r.value.state == if r.value.accepted then SetCost(heap, item, cost) else heap
    ensures r.Success? && Count(parent.items, item) == 1 ==>
              (r.value.accepted <==> WithinLimit(parent, SetCost(heap, item, cost)))
    ensures r.Success? && Count(parent.items, item) <= 1 && WithinLimit(parent, heap) ==>
              WithinLimit(parent, r.value.state)
  {
    SumSetCost(parent.items, heap, item, cost);
    if parent.id != heap.objects[item].purchaseOrderId then Failure(IncorrectParent)
    else if CheckLimitReplace(parent, heap, item, cost) then Success(Attempt(true, SetCost(heap, item, cost)))
    else Success(Attempt(false, heap))
  }

  /** The direct overload checks only that the ids agree, and order ids
      default to 0: an item of one order, handed another order with the same
      id, is checked against the wrong total and can push its real owner
      over the limit. */
  lemma WrongParentBreaksBudget()
    ensures var h1 := Allocate(EmptyHeap, NewLineItem(50));
            var h2 := Allocate(h1.0, NewLineItem(25));
            var owner := PurchaseOrder(0, [h1.1, h2.1], 100);
            var stranger := NewPurchaseOrder(100);
            && WithinLimit(owner, h2.0)
            && TryUpdateCost(h2.0, h2.1, 51, stranger) == Success(Attempt(true, SetCost(h2.0, h2.1, 51)))
            && !WithinLimit(owner, SetCost(h2.0, h2.1, 51))
  {
    var h1 := Allocate(EmptyHeap, NewLineItem(50));
    var h2 := Allocate(h1.0, NewLineItem(25));
    assert h1.1 == 0 && h2.1 == 1;
    SumOfTwo(0, 1, h2.0);
    SumOfTwo(0, 1, SetCost(h2.0, 1, 51));
    assert Sum([], h2.0) == 0;
  }

  /** `TryAddItem` accepts an object the order already holds, and the
      replacement check then subtracts its old cost once while the order
      counts it twice: with limit 100, adding one 30-cost item twice and
      raising it to 60 is accepted and leaves a total of 120. */
  lemma DuplicateAddBreaksBudget()
    ensures var h := Allocate(EmptyHeap, NewLineItem(30));
            var once := TryAddItem(NewPurchaseOrder(100), h.0, h.1);
            var twice := TryAddItem(once.state, h.0, h.1);
            && once.accepted && twice.accepted
            && TryUpdateCost(h.0, h.1, 60, twice.state) == Success(Attempt(true, SetCost(h.0, h.1, 60)))
            && Total(twice.state, SetCost(h.0, h.1, 60)) == 120
  {
    var h := Allocate(EmptyHeap, NewLineItem(30));
    assert h.1 == 0;
    SumOfTwo(0, 0, h.0);
    SumOfTwo(0, 0, SetCost(h.0, 0, 60));
    var once := TryAddItem(NewPurchaseOrder(100), h.0, 0);
    assert Appended(NewPurchaseOrder(100), 0).items == [0];
    var twice := TryAddItem(once.state, h.0, 0);
    assert Appended(once.state, 0).items == [0, 0];
  }

  /** `LineItem.TryUpdateCost(cost, repository)`: the parent is looked up by
      the item's owner id. The source dereferences the lookup without a null
      check; that fault is `ParentNotFound`. The mismatched-parent fault
      cannot arise. */
  function TryUpdateCostWithRepository(heap: Heap, item: ItemRef, cost: Money, repo: Repo): (r: Result<Attempt<Heap>, Fault>)
    requires item in heap.objects && AllAllocated(repo, heap)
    ensures r.Failure? <==> heap.objects[item].purchaseOrderId !in repo
    ensures r.Failure? ==> r.error == ParentNotFound
    ensures r.Success? ==>
              (r.value.accepted <==> CheckLimitReplace(repo[heap.objects[item].purchaseOrderId], heap, item, cost))
    ensures r.Success? ==> r.value.state == if r.value.accepted then SetCost(heap, item, cost) else heap
  {
    match GetById(repo, heap.objects[item].purchaseOrderId)
    case None => Failure(ParentNotFound)
    case Some(parent) =>
      if CheckLimitReplace(parent, heap, item, cost) then Success(Attempt(true, SetCost(heap, item, cost)))
      else Success(Attempt(false, heap))
  }

  /** When the item's owner is registered under its own id, looking it up
      and handing it over directly give the same answer. */
  lemma RepositoryAgreesWithDirect(heap: Heap, item: ItemRef, cost: Money, repo: Repo)
    requires item in heap.objects && AllAllocated(repo, heap)
    requires KeysMatchIds(repo)
    requires heap.objects[item].purchaseOrderId in repo
    ensures TryUpdateCostWithRepository(heap, item, cost, repo)
         == TryUpdateCost(heap, item, cost, repo[heap.objects[item].purchaseOrderId])
  {
  }

  /** A lookup-based update keeps every stored order consistent: the object
      can only sit in the order it names, at most once, and that is the
      order checked; every other stored order's total is untouched. */
  lemma UpdateKeepsConsistent(repo: Repo, heap: Heap, item: ItemRef, cost: Money)
    requires Consistent(repo, heap) && item in heap.objects
    ensures AllAllocated(repo, heap)
    ensures TryUpdateCostWithRepository(heap, item, cost, repo).Success? ==>
              Consistent(repo, TryUpdateCostWithRepository(heap, item, cost, repo).value.state)
  {
    var r := TryUpdateCostWithRepository(heap, item, cost, repo);
    if r.Success? && r.value.accepted {
      var owner := heap.objects[item].purchaseOrderId;
      var h := SetCost(heap, item, cost);
      forall k | k in repo
        ensures WithinLimit(repo[k], h) && Distinct(repo[k].items) && OwnedBy(repo[k], h, k)
      {
        SumSetCost(repo[k].items, heap, item, cost);
        if item in repo[k].items {
          assert k == owner;
          CountAbsent(repo[k].items, item);
        } else {
          CountAbsent(repo[k].items, item);
        }
      }
    }
  }

  /** `po.TryAddItem(item)` on an order the repository holds: the repository
      stores the order object itself, so the add is visible through it. */
  function AddItemToRegistered(repo: Repo, heap: Heap, id: int, item: ItemRef): (r: Attempt<Repo>)
    requires id in repo && Allocated(repo[id].items, heap) && item in heap.objects
    ensures r.accepted <==> WithinLimit(Appended(repo[id], item), heap)
    ensures r.state == if r.accepted then repo[id := Appended(repo[id], item)] else repo
  {
    var a := TryAddItem(repo[id], heap, item);
    Attempt(a.accepted, repo[id := a.state])
  }

  /** Creating a line item that names a stored order and adding it there
      keeps every stored order consistent, whether the add is accepted or
      not. */
  lemma AddNewKeepsConsistent(repo: Repo, heap: Heap, id: int, item: LineItem)
    requires Consistent(repo, heap) && HeapOk(heap)
    requires id in repo && item.purchaseOrderId == id
    ensures AllAllocated(repo, Allocate(heap, item).0)
    ensures Consistent(AddItemToRegistered(repo, Allocate(heap, item).0, id, Allocate(heap, item).1).state,
                       Allocate(heap, item).0)
  {
    var (h, x) := Allocate(heap, item);
    forall k | k in repo
      ensures WithinLimit(repo[k], h) && Distinct(repo[k].items) && OwnedBy(repo[k], h, k)
      ensures x !in repo[k].items
    {
      SumAfterAllocate(repo[k].items, heap, item);
    }
    var a := AddItemToRegistered(repo, h, id, x);
    if a.accepted {
      var items := repo[id].items + [x];
      assert Distinct(items) by {
        forall y | y in items
          ensures Count(items, y) <= 1
        {
          CountAppend(repo[id].items, x, y);
          if y == x {
            CountAbsent(repo[id].items, x);
          }
        }
      }
    }
  }

  /** Adding 50 and then 51 to an order limited to 100: the second add is
      rejected. */
  lemma ScenarioAddItemAboveLimit()
    ensures var h1 := Allocate(EmptyHeap, NewLineItem(50));
            var first := TryAddItem(NewPurchaseOrder(100), h1.0, h1.1);
            var h2 := Allocate(h1.0, NewLineItem(51));
            && first.accepted
            && !TryAddItem(first.state, h2.0, h2.1).accepted
  {
    var h1 := Allocate(EmptyHeap, NewLineItem(50));
    var h2 := Allocate(h1.0, NewLineItem(51));
    assert h1.1 == 0 && h2.1 == 1;
    SumOfTwo(0, 1, h1.0.(objects := h1.0.objects[1 := NewLineItem(51)]));
    SumOfTwo(0, 1, h2.0);
    var first := TryAddItem(NewPurchaseOrder(100), h1.0, 0);
    assert Appended(NewPurchaseOrder(100), 0).items == [0];
    assert Appended(first.state, 1).items == [0, 1];
  }

  /** With items 50 and 25 under a limit of 100, raising the 25 item to 51 is
      rejected and changes nothing. */
  lemma ScenarioUpdateItemAboveLimit()
    ensures var h1 := Allocate(EmptyHeap, NewLineItem(50));
            var h2 := Allocate(h1.0, NewLineItem(25));
            var po := TryAddItem(TryAddItem(NewPurchaseOrder(100), h2.0, h1.1).state, h2.0, h2.1).state;
            TryUpdateCost(h2.0, h2.1, 51, po) == Success(Attempt(false, h2.0))
  {
    var h1 := Allocate(EmptyHeap, NewLineItem(50));
    var h2 := Allocate(h1.0, NewLineItem(25));
    assert h1.1 == 0 && h2.1 == 1;
    SumOfTwo(0, 1, h2.0);
    var first := TryAddItem(NewPurchaseOrder(100), h2.0, 0);
    assert Appended(NewPurchaseOrder(100), 0).items == [0];
    assert Appended(first.state, 1).items == [0, 1];
  }

  /** The same scenario with the order registered in a repository and the
      parent found by lookup. */
  lemma ScenarioUpdateItemAboveLimitWithRepository()
    ensures var h1 := Allocate(EmptyHeap, NewLineItem(50));
            var h2 := Allocate(h1.0, NewLineItem(25));
            var repo0 := Add(Empty, NewPurchaseOrder(100));
            var repo := AddItemToRegistered(AddItemToRegistered(repo0, h2.0, 0, h1.1).state, h2.0, 0, h2.1).state;
            TryUpdateCostWithRepository(h2.0, h2.1, 51, repo) == Success(Attempt(false, h2.0))
  {
    var h1 := Allocate(EmptyHeap, NewLineItem(50));
    var h2 := Allocate(h1.0, NewLineItem(25));
    assert h1.1 == 0 && h2.1 == 1;
    SumOfTwo(0, 1, h2.0);
    var repo0 := Add(Empty, NewPurchaseOrder(100));
    assert repo0 == map[0 := NewPurchaseOrder(100)];
    var first := AddItemToRegistered(repo0, h2.0, 0, 0);
    assert Appended(repo0[0], 0).items == [0];
    assert Appended(first.state[0], 1).items == [0, 1];
  }
}
