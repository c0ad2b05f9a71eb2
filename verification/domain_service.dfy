/** The design in which a `PurchaseOrderService`, backed by the in-memory
    repository, owns the limit decision and both entities ask it. The
    service is modelled by the repository it holds. */
module DomainService {
  import opened Wrappers
  import opened Orders
  import opened Repository
  import Aggregate

  /** `WouldAddBeUnderLimit`: judged against the order it is handed, not the
      repository. It agrees with the order's own add check. */
  function WouldAddBeUnderLimit(order: PurchaseOrder, heap: Heap, newItem: ItemRef): (ok: bool)
    requires Allocated(order.items, heap) && newItem in heap.objects
    ensures ok <==> WithinLimit(Appended(order, newItem), heap)
    ensures ok == CheckLimitNew(order, heap, newItem)
  {
    SumAppend(order.items, newItem, heap);
    Sum(order.items, heap) + heap.objects[newItem].cost <= order.spendLimit
  }

  /** `WouldUpdateBeUnderLimit`: looks the order up by id and applies the
      replacement arithmetic. Neither a missing order nor membership of the
      item is checked; dereferencing the missing order is `ParentNotFound`.
      When found, it agrees with that order's own replacement check, and so
      answers the budget question only for an item held in one slot. */
  function WouldUpdateBeUnderLimit(repo: Repo, heap: Heap, purchaseOrderId: int, existingItem: ItemRef, newCost: Money): (r: Result<bool, Fault>)
    requires existingItem in heap.objects && AllAllocated(repo, heap)
    ensures r.Failure? <==> purchaseOrderId !in repo
    ensures r.Failure? ==> r.error == ParentNotFound
    ensures r.Success? ==> r.value == CheckLimitReplace(repo[purchaseOrderId], heap, existingItem, newCost)
    ensures r.Success? && Count(repo[purchaseOrderId].items, existingItem) == 1 ==>
              (r.value <==> WithinLimit(repo[purchaseOrderId], SetCost(heap, existingItem, newCost)))
  {
    match GetById(repo, purchaseOrderId)
    case None => Failure(ParentNotFound)
    case Some(po) =>
      SumSetCost(po.items, heap, existingItem, newCost);
      Success(Sum(po.items, heap) + (newCost - heap.objects[existingItem].cost) <= po.spendLimit)
  }

  /** `PurchaseOrder.TryAddItem(item, service)`: appends exactly when the
      service approves. */
  function TryAddItem(po: PurchaseOrder, heap: Heap, item: ItemRef): (r: Attempt<PurchaseOrder>)
    requires Allocated(po.items, heap) && item in heap.objects
    ensures r.accepted <==> WithinLimit(Appended(po, item), heap)
    ensures r.state == if r.accepted then Appended(po, item) else po
  {
    if WouldAddBeUnderLimit(po, heap, item) then Attempt(true, Appended(po, item)) else Attempt(false, po)
  }

  /** Adding through the service and letting the order check itself are the
      same operation. */
  lemma TryAddItemAgreesWithAggregate(po: PurchaseOrder, heap: Heap, item: ItemRef)
    requires Allocated(po.items, heap) && item in heap.objects
    ensures TryAddItem(po, heap, item) == Aggregate.TryAddItem(po, heap, item)
  {
  }

  /** `LineItem.TryUpdateCost(cost, service)`: the object's cost is replaced
      exactly when the service approves for the item's owner id; a missing
      owner is a fault and produces no new heap. */
  function TryUpdateCost(heap: Heap, item: ItemRef, cost: Money, repo: Repo): (r: Result<Attempt<Heap>, Fault>)
    requires item in heap.objects && AllAllocated(repo, heap)
    ensures r.Failure? <==> heap.objects[item].purchaseOrderId !in repo
    ensures r.Failure? ==> r.error == ParentNotFound
    ensures r.Success? ==>
              (r.value.accepted <==> CheckLimitReplace(repo[heap.objects[item].purchaseOrderId], heap, item, cost))
    ensures r.Success? ==> r.value.state == if r.value.accepted then SetCost(heap, item, cost) else heap
  {
    match WouldUpdateBeUnderLimit(repo, heap, heap.objects[item].purchaseOrderId, item, cost)
    case Failure(e) => Failure(e)
    case Success(ok) =>
      if ok then Success(Attempt(true, SetCost(heap, item, cost))) else Success(Attempt(false, heap))
  }

  /** Updating through the service and through a repository lookup give the
      same answer on every input. */
  lemma TryUpdateCostAgreesWithRepositoryLookup(heap: Heap, item: ItemRef, cost: Money, repo: Repo)
    requires item in heap.objects && AllAllocated(repo, heap)
    ensures TryUpdateCost(heap, item, cost, repo) == Aggregate.TryUpdateCostWithRepository(heap, item, cost, repo)
  {
  }

  /** `po.TryAddItem(item, service)` on the order the repository holds. */
  function AddItemToRegistered(repo: Repo, heap: Heap, id: int, item: ItemRef): (r: Attempt<Repo>)
    requires id in repo && Allocated(repo[id].items, heap) && item in heap.objects
    ensures r.accepted <==> WithinLimit(Appended(repo[id], item), heap)
    ensures r.state == if r.accepted then repo[id := Appended(repo[id], item)] else repo
  {
    var a := TryAddItem(repo[id], heap, item);
    Attempt(a.accepted, repo[id := a.state])
  }

  /** The service does not stop an object being added to a registered order
      twice: with limit 100, one 30-cost item added twice and raised to 60 is
      approved (60 + (60 - 30) = 90) while the order's total becomes 120. */
  lemma DuplicateAddBreaksBudget()
    ensures var h := Allocate(EmptyHeap, NewLineItem(30));
            var repo0 := Add(Empty, NewPurchaseOrder(100));
            var once := AddItemToRegistered(repo0, h.0, 0, h.1);
            var twice := AddItemToRegistered(once.state, h.0, 0, h.1);
            && once.accepted && twice.accepted
            && TryUpdateCost(h.0, h.1, 60, twice.state) == Success(Attempt(true, SetCost(h.0, h.1, 60)))
            && Total(twice.state[0], SetCost(h.0, h.1, 60)) == 120
  {
    var h := Allocate(EmptyHeap, NewLineItem(30));
    assert h.1 == 0;
    SumOfTwo(0, 0, h.0);
    SumOfTwo(0, 0, SetCost(h.0, 0, 60));
    var repo0 := Add(Empty, NewPurchaseOrder(100));
    assert repo0 == map[0 := NewPurchaseOrder(100)];
    var once := AddItemToRegistered(repo0, h.0, 0, 0);
    assert Appended(repo0[0], 0).items == [0];
    assert Appended(once.state[0], 0).items == [0, 0];
  }

  /** The repository and the line-item objects: the whole state the service
      design mutates. */
  datatype World = World(repo: Repo, heap: Heap)

  /** A caller's request against one registered order: create a line item
      and add it, or change the cost of the object in a slot. */
  datatype Command =
    | AddItem(item: LineItem)
    | UpdateCost(index: nat, cost: Money)

  /** Runs `cmds` against the order stored under `id`, stopping at the first
      fault. An update naming an index past the order's items addresses no
      slot of it, so it leaves the state as it is. */
  function Run(w: World, id: int, cmds: seq<Command>): (r: Result<World, Fault>)
    requires id in w.repo && HeapOk(w.heap) && AllAllocated(w.repo, w.heap)
    ensures r.Success? ==> r.value.repo.Keys == w.repo.Keys
    ensures r.Success? ==> forall k :: k in w.repo && k != id ==> r.value.repo[k] == w.repo[k]
    decreases |cmds|
  {
    if |cmds| == 0 then Success(w)
    else match cmds[0]
      case AddItem(item) =>
        var (h, x) := Allocate(w.heap, item);
        var a := AddItemToRegistered(w.repo, h, id, x);
        Run(World(a.state, h), id, cmds[1..])
      case UpdateCost(i, cost) =>
        if i < |w.repo[id].items| then
          match TryUpdateCost(w.heap, w.repo[id].items[i], cost, w.repo)
          case Failure(e) => Failure(e)
          case Success(a) => Run(World(w.repo, a.state), id, cmds[1..])
        else Run(w, id, cmds[1..])
  }

  /** Every item created names `id` as its owner. */
  predicate AddsOwnedBy(cmds: seq<Command>, id: int) {
    forall j :: 0 <= j < |cmds| && cmds[j].AddItem? ==> cmds[j].item.purchaseOrderId == id
  }

  /** Budget invariant across any run of service-gated adds of new items and
      updates of member items, starting from consistent stored orders, when
      every new item names the order it is added to: no fault is raised and
      every stored order stays within its limit, with no object in two slots
      and every object naming its order. */
  lemma {:induction false} RunPreservesBudget(w: World, id: int, cmds: seq<Command>)
    requires id in w.repo && HeapOk(w.heap)
    requires Consistent(w.repo, w.heap)
    requires AddsOwnedBy(cmds, id)
    ensures AllAllocated(w.repo, w.heap)
    ensures Run(w, id, cmds).Success?
    ensures Consistent(Run(w, id, cmds).value.repo, Run(w, id, cmds).value.heap)
    decreases |cmds|
  {
    ConsistentIsAllocated(w.repo, w.heap);
    if |cmds| > 0 {
      assert AddsOwnedBy(cmds[1..], id) by {
        forall j | 0 <= j < |cmds[1..]| && cmds[1..][j].AddItem?
          ensures cmds[1..][j].item.purchaseOrderId == id
        {
          assert cmds[1..][j] == cmds[j + 1];
        }
      }
      match cmds[0]
      case AddItem(item) =>
        assert cmds[0].item.purchaseOrderId == id;
        var (h, x) := Allocate(w.heap, item);
        Aggregate.AddNewKeepsConsistent(w.repo, w.heap, id, item);
        TryAddItemAgreesWithAggregate(w.repo[id], h, x);
        RunPreservesBudget(World(AddItemToRegistered(w.repo, h, id, x).state, h), id, cmds[1..]);
      case UpdateCost(i, cost) =>
        if i < |w.repo[id].items| {
          var item := w.repo[id].items[i];
          assert item in w.repo[id].items;
          Aggregate.UpdateKeepsConsistent(w.repo, w.heap, item, cost);
          TryUpdateCostAgreesWithRepositoryLookup(w.heap, item, cost, w.repo);
          RunPreservesBudget(World(w.repo, TryUpdateCost(w.heap, item, cost, w.repo).value.state), id, cmds[1..]);
        } else {
          RunPreservesBudget(w, id, cmds[1..]);
        }
    }
  }

  /** Adding 50 and then 51 through the service to a registered order limited
      to 100: the second add is rejected. */
  lemma ScenarioAddItemAboveLimit()
    ensures var h1 := Allocate(EmptyHeap, NewLineItem(50));
            var h2 := Allocate(h1.0, NewLineItem(51));
            var repo := Add(Empty, NewPurchaseOrder(100));
            var first := AddItemToRegistered(repo, h2.0, 0, h1.1);
            first.accepted && !AddItemToRegistered(first.state, h2.0, 0, h2.1).accepted
  {
    var h1 := Allocate(EmptyHeap, NewLineItem(50));
    var h2 := Allocate(h1.0, NewLineItem(51));
    assert h1.1 == 0 && h2.1 == 1;
    SumOfTwo(0, 1, h2.0);
    var repo := Add(Empty, NewPurchaseOrder(100));
    assert repo == map[0 := NewPurchaseOrder(100)];
    var first := AddItemToRegistered(repo, h2.0, 0, 0);
    assert Appended(repo[0], 0).items == [0];
    assert Appended(first.state[0], 1).items == [0, 1];
  }

  /** With items 50 and 25 under a limit of 100, raising the 25 item to 51
      through the service is rejected and changes nothing. */
  lemma ScenarioUpdateItemAboveLimit()
    ensures var h1 := Allocate(EmptyHeap, NewLineItem(50));
            var h2 := Allocate(h1.0, NewLineItem(25));
            var repo0 := Add(Empty, NewPurchaseOrder(100));
            var repo := AddItemToRegistered(AddItemToRegistered(repo0, h2.0, 0, h1.1).state, h2.0, 0, h2.1).state;
            TryUpdateCost(h2.0, h2.1, 51, repo) == Success(Attempt(false, h2.0))
  {
    var h1 := Allocate(EmptyHeap, NewLineItem(50));
    var h2 := Allocate(h1.0, NewLineItem(25));
    assert h1.1 == 0 && h2.1 == 1;
    SumOfTwo(0, 1, h2.0);
    var repo0 := Add(Empty, NewPurchaseOrder(100));
    assert repo0 == map[0 := NewPurchaseOrder(100)];
    var first := AddItemToRegistered(repo0, h2.0, 0, 0);
    assert Appended(repo0[0], 0).items == [0];
    assert Appended(first.state[0], 1).items == [0, 1];
  }
}
