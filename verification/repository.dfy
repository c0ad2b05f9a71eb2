/** `InMemoryPurchaseOrderRepository`: a dictionary from order id to the
    order stored under it. Insertion never overwrites, nothing is removed. */
module Repository {
  import opened Wrappers
  import opened Orders

  type Repo = map<int, PurchaseOrder>

  const Empty: Repo := map[]

  /** Every order is stored under its own id; `Add` keeps this true. */
  predicate KeysMatchIds(repo: Repo) {
    forall k :: k in repo ==> repo[k].id == k
  }

  /** Every object held by a stored order exists. */
  predicate AllAllocated(repo: Repo, heap: Heap) {
    forall k :: k in repo ==> Allocated(repo[k].items, heap)
  }

  /** The state the budget design is meant to keep for stored orders: each
      is within its limit, holds no object in two slots, and every object it
      holds names it as owner. Ownership also keeps two stored orders from
      sharing an object. */
  predicate Consistent(repo: Repo, heap: Heap) {
    forall k :: k in repo ==>
      && WithinLimit(repo[k], heap)
      && Distinct(repo[k].items)
      && OwnedBy(repo[k], heap, k)
  }

  lemma ConsistentIsAllocated(repo: Repo, heap: Heap)
    requires Consistent(repo, heap)
    ensures AllAllocated(repo, heap)
  {
  }

  /** `Add`: stores `po` under its id unless that id is already taken, in
      which case the stored order is kept and `po` is dropped silently. */
  function Add(repo: Repo, po: PurchaseOrder): (r: Repo)
    ensures r.Keys == repo.Keys + {po.id}
    ensures forall k :: k in repo ==> r[k] == repo[k]
    ensures po.id !in repo ==> r[po.id] == po
    ensures KeysMatchIds(repo) ==> KeysMatchIds(r)
  {
    if po.id in repo then repo else repo[po.id := po]
  }

  /** `GetById`: the stored order, or none (the source's null) when absent. */
  function GetById(repo: Repo, id: int): (r: Option<PurchaseOrder>)
    ensures r.None? <==> id !in repo
    ensures r.Some? ==> r.value == repo[id]
  {
    if id !in repo then None else Some(repo[id])
  }

  /** A second `Add` under an id already taken leaves the first order in
      place, and `GetById` still returns it. */
  lemma AddDoesNotOverwrite(repo: Repo, first: PurchaseOrder, second: PurchaseOrder)
    requires first.id !in repo
    requires second.id == first.id
    ensures Add(Add(repo, first), second) == Add(repo, first)
    ensures GetById(Add(Add(repo, first), second), first.id) == Some(first)
  {
  }

  /** What `GetById` sees after `Add`: the new order under its id if that id
      was free, and otherwise exactly what it saw before. */
  lemma GetByIdAfterAdd(repo: Repo, po: PurchaseOrder, id: int)
    ensures GetById(Add(repo, po), id)
         == if id == po.id && po.id !in repo then Some(po) else GetById(repo, id)
  {
  }
}
