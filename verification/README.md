# Purchase-order budget invariant

A Dafny model of the purchase-order aggregate from the DoubleDispatchSample
repository. A `PurchaseOrder` holds `LineItem`s and a `SpendLimit`. The one
invariant the design protects is that the sum of the item costs never exceeds
the limit. Adding an item and changing an item's cost go through a limit
check. The public setters of `Id`, `SpendLimit` and `PurchaseOrderId` do not
(see "Left out"). The repository implements the check in two ways, and the
model covers both:

- **Aggregate** (`aggregate.dfy`): the order checks its own limit.
  `LineItem.TryUpdateCost` is either handed its parent order directly, which
  is a fault when the ids differ, or looks the parent up in an
  `InMemoryPurchaseOrderRepository`.
- **DomainService** (`domain_service.dfy`): a `PurchaseOrderService`, backed
  by the repository, owns the limit arithmetic. Both entities ask the service.

The two source files give `PurchaseOrder` and `LineItem` identical fields and
identical `CheckLimit` checks. Their `TryAddItem` and `TryUpdateCost` methods
differ, and so do their repository interfaces. The model defines the shared
part once:

- `orders.dfy` holds the entities, the line-item heap, the total and the two
  `CheckLimit` checks.
- `repository.dfy` holds the repository.
- `wrappers.dfy` holds `Option` and `Result`.

Each design's own operations live in its module.

Modelling choices that the source leaves implicit:

- **Money.** `decimal` becomes `int`, so the arithmetic is exact.
- **Line items are objects.** `Heap` maps an `ItemRef` to the current
  `LineItem`. `Allocate` models `new LineItem(...)`, and an order holds
  `ItemRef`s.
  - A cost update rewrites the object itself (`SetCost`), so every slot of
    every order that holds it sees the new cost.
  - `SumSetCost` states the effect: a total moves by the cost change times the
    number of slots holding the object.
  - Nothing stops an object from sitting in two slots. The replacement check
    subtracts the old cost only once, so it answers the budget question only
    for an object held in exactly one slot (`CheckLimitReplace`).
  - `DuplicateAddBreaksBudget` shows the consequence in both designs. With
    limit 100, one 30-cost item added twice and then raised to 60 is accepted,
    and the order's total becomes 120.
- **Orders are values.** A repository stores its orders, and a caller who
  registered an order keeps sharing it. The model treats the stored value as
  that shared order, so changing a registered order replaces the stored value
  (`AddItemToRegistered`).
- **Faults.** Two situations become `Failure` outcomes:
  - `IncorrectParent` is the exception the direct overload throws.
  - `ParentNotFound` is the null dereference that occurs when a lookup finds
    no order. The source checks for neither null nor membership.

  A fault produces no new state, so the caller keeps the heap it had.
- **Membership and ownership.** The update functions accept any object, as
  the source does. Their budget guarantees state when they hold:
  - The object must sit in at most one slot of the order that is checked.
  - `WrongParentBreaksBudget` shows why the right order must be checked.
    Order ids default to 0, so the direct overload accepts another order with
    the same id, checks against the wrong total, and pushes the real owner
    over its limit.
  - For the repository and service designs, `Consistent` names the state to
    keep: every stored order is within its limit, holds each object at most
    once, and every object it holds names it as owner.
- **Owner id.** `TryAddItem` does not set the item's `purchaseOrderId`, and
  neither does the source. The tests rely on both ids keeping their default
  of 0. `DomainService.RunPreservesBudget` therefore requires every new item
  to name its order already.
- **New orders.** `NewLineItem` and `NewPurchaseOrder` give the values that
  `new LineItem(cost)` and `new PurchaseOrder() { SpendLimit = limit }`
  produce, with every id at its default of 0. They carry no contract of
  their own.

## Model

| member | source | states |
|---|---|---|
| `Orders.Allocate` | DoubleDispatchSample/AggregateTest.cs:43-46 | `new LineItem(...)` yields an object under a reference no existing object has, and every existing object is unchanged |
| `Orders.SumCosts` | DoubleDispatchSample/AggregateTest.cs:17 | `Items.Sum(i => i.Cost)` computed by a front-to-back loop equals the recursive total over the order's slots |
| `Orders.SumSetCost` | DoubleDispatchSample/AggregateTest.cs:55 | assigning `Cost` on a shared object moves every total by the cost change times the number of slots that hold that object |
| `Orders.CheckLimitNew` | DoubleDispatchSample/AggregateTest.cs:23-26 | the add check passes iff the order with the new item appended is within its spend limit |
| `Orders.CheckLimitReplace` | DoubleDispatchSample/AggregateTest.cs:15-21 | when the item sits in exactly one slot of the order, the replacement check (total − item cost + new value ≤ limit) passes iff the order is within its limit after the cost change. For a non-member or a twice-held item the answer does not decide the budget, and nothing in the check tests membership |
| `Aggregate.TryAddItem` | DoubleDispatchSample/AggregateTest.cs:28-36 | accepted iff the appended order is within the limit. When accepted, the state is the order with exactly that reference appended at the end. When rejected, the order is unchanged. A within-limit order stays within limit either way |
| `Aggregate.TryUpdateCost` | DoubleDispatchSample/AggregateTest.cs:49-59 | a fault (`IncorrectParent`) iff the parent's id differs from the item's owner id, raised before any check. Otherwise the object's cost becomes the new value iff the replacement check passes, and the heap is unchanged when the check fails. For an object held once, acceptance is equivalent to the parent staying within its limit. A parent holding the object at most once keeps its invariant |
| `Aggregate.WrongParentBreaksBudget` | DoubleDispatchSample/AggregateTest.cs:49-58 | an item of a within-limit order {50, 25}/100, handed another order with the same default id 0, is allowed to become 51 and pushes its owner to 101 |
| `Aggregate.DuplicateAddBreaksBudget` | DoubleDispatchSample/AggregateTest.cs:28-58 | limit 100: adding one 30-cost object twice is accepted both times, and raising it to 60 is then accepted, leaving a total of 120 |
| `Aggregate.TryUpdateCostWithRepository` | DoubleDispatchSample/AggregateTest.cs:62-72 | a fault (`ParentNotFound`) iff the owner id is not in the repository, and never `IncorrectParent`. Otherwise the cost becomes the new value iff the looked-up order's replacement check passes, and the heap is unchanged when it fails |
| `Aggregate.RepositoryAgreesWithDirect` | DoubleDispatchSample/AggregateTest.cs:49-72 | in a repository whose orders sit under their own ids, the lookup overload gives exactly the direct overload's result on the owner |
| `Aggregate.UpdateKeepsConsistent` | DoubleDispatchSample/AggregateTest.cs:62-72 | from consistent stored orders, a non-faulting lookup update leaves every stored order consistent. In particular, every stored order stays within its limit |
| `Aggregate.AddItemToRegistered` | DoubleDispatchSample/AggregateTest.cs:126-130 | `TryAddItem` on an order the repository holds: accepted iff the appended order is within limit. The repository changes exactly at that order, and only when accepted |
| `Aggregate.AddNewKeepsConsistent` | DoubleDispatchSample/AggregateTest.cs:28-46 | creating an item that names a stored order and adding it there leaves every stored order consistent, whether or not the add is accepted |
| `Aggregate.ScenarioAddItemAboveLimit` | DoubleDispatchSample/AggregateTest.cs:100-107 | limit 100: adding 50 is accepted, then adding 51 is rejected |
| `Aggregate.ScenarioUpdateItemAboveLimit` | DoubleDispatchSample/AggregateTest.cs:109-118 | limit 100 with items 50 and 25: raising the 25 item to 51 through the direct overload is rejected and changes nothing |
| `Aggregate.ScenarioUpdateItemAboveLimitWithRepository` | DoubleDispatchSample/AggregateTest.cs:120-133 | the same scenario, with the order registered and the parent found by lookup |
| `Repository.Add` | DoubleDispatchSample/AggregateTest.cs:83-89 | the stored ids become the old ids plus the order's id. Existing entries are never overwritten. A new id stores the order. Keys keep matching ids |
| `Repository.GetById` | DoubleDispatchSample/AggregateTest.cs:91-95 | none iff the id is absent, otherwise the stored order |
| `Repository.AddDoesNotOverwrite` | DoubleDispatchSample/DomainService.cs:96-102 | a second `Add` under a taken id leaves the repository unchanged, and lookup still returns the first order |
| `Repository.GetByIdAfterAdd` | DoubleDispatchSample/DomainService.cs:96-108 | after `Add`, lookup returns the new order under its id if that id was free, and otherwise exactly what it returned before |
| `DomainService.WouldAddBeUnderLimit` | DoubleDispatchSample/DomainService.cs:21-24 | true iff the order with the new item appended is within its limit. Agrees with the order's own add check (DomainService.cs:50-53) |
| `DomainService.WouldUpdateBeUnderLimit` | DoubleDispatchSample/DomainService.cs:26-31 | a fault iff the id is absent, because the source does not check for null. Otherwise it equals the found order's own replacement check (DomainService.cs:42-48). For an item held once, that answer is whether the order stays within its limit |
| `DomainService.TryAddItem` | DoubleDispatchSample/DomainService.cs:55-63 | accepted iff the service approves, which happens iff the appended order is within limit. The state is the order with the item appended, or the unchanged order |
| `DomainService.TryAddItemAgreesWithAggregate` | DoubleDispatchSample/DomainService.cs:55-63 | the service-gated add and the self-checking add of AggregateTest.cs:28-36 are the same operation on every input |
| `DomainService.TryUpdateCost` | DoubleDispatchSample/DomainService.cs:76-84 | a fault (`ParentNotFound`) iff the owner id is absent. Otherwise the cost becomes the new value iff the service approves for the owner id, and the heap is unchanged otherwise |
| `DomainService.TryUpdateCostAgreesWithRepositoryLookup` | DoubleDispatchSample/DomainService.cs:76-84 | the service-gated update equals the repository-lookup overload of AggregateTest.cs:62-72 on every input |
| `DomainService.AddItemToRegistered` | DoubleDispatchSample/DomainService.cs:126-130 | the service-gated add on a stored order: accepted iff the appended order is within its limit. The repository changes exactly at that order, and only when accepted |
| `DomainService.DuplicateAddBreaksBudget` | DoubleDispatchSample/DomainService.cs:55-84 | registered, limit 100: the service approves adding one 30-cost object twice, then approves raising it to 60 (60 + (60 − 30) = 90), while the order's total becomes 120 |
| `DomainService.Run` | DoubleDispatchSample/DomainService.cs:55-84 | a run of adds and updates on one registered order never adds or removes stored ids and never changes another stored order's value |
| `DomainService.RunPreservesBudget` | DoubleDispatchSample/DomainService.cs:55-84 | from consistent stored orders, over any sequence of service-gated adds of newly created items that name the order and updates of its member items: no fault occurs, and every stored order stays consistent, hence within its limit |
| `DomainService.ScenarioAddItemAboveLimit` | DoubleDispatchSample/DomainService.cs:122-131 | limit 100, registered: adding 50 is accepted, then adding 51 is rejected |
| `DomainService.ScenarioUpdateItemAboveLimit` | DoubleDispatchSample/DomainService.cs:133-143 | limit 100 with items 50 and 25, registered: raising the 25 item to 51 through the service is rejected and changes nothing |

## Left out

- `decimal` precision, rounding and overflow: costs and limits are unbounded integers and the arithmetic is exact.
- The public setters of `Id`, `SpendLimit` and `PurchaseOrderId` (AggregateTest.cs:9,13,42 and DomainService.cs:36,40,69): they change fields without any limit check. Lowering `SpendLimit` below the total breaks the invariant. Changing `Id` after `Add` breaks `KeysMatchIds`. Owner ids are modelled only as the values items are created with.
- `DomainService.RunPreservesBudget`: its add commands create a new line item each time. Re-adding an object the order already holds is not a command, because the invariant does not survive it (`DuplicateAddBreaksBudget`).
- `Aggregate.TryUpdateCost`: the invariant is promised only for a parent that holds the object at most once, and acceptance equals the budget answer only for an object held exactly once. In the source, the check is wrong for an object held twice (`Aggregate.DuplicateAddBreaksBudget`).
- `DomainService.Run`: an update command whose index is past the order's items addresses no slot of it, so the run leaves the state as it is. The source's answer for such an object is not modelled.
- `DoubleDispatch.cs` and `SingleDispatch.cs`: they only append fixed strings to show virtual dispatch versus overload resolution, and carry no state or invariant.
- The `IPurchaseOrderService` and `IPurchaseOrderRepository` interfaces: only their single concrete implementations are modelled. The service is represented by the repository it holds. Its add check never consults that repository, so the add functions take no repository.
- The `ToList` copy behind `Items`: its only effect is that callers cannot append to `_items`. In the model, the add operations are the only way to append.
- Exceptions as control flow: the thrown exception and the null dereference are `Failure` values, and no stack unwinding is modelled.
- The xunit attributes and test-class plumbing: the tests appear only as the scenario lemmas.
