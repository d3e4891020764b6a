# Inventory slots and click-to-transfer, in Dafny

This project models the data core of a Unity inventory system: item
definitions, the mutable `ItemSlot` that holds an item, an amount and a
condition and clamps every write against the item's caps, and the click
handler's transfer rule that either swaps two slots or merges the cursor's
stack into the clicked slot, leaving any overflow on the cursor.

Files:

- `Wrappers.dfy`: `Option`, which stands for a nullable reference.
- `Items.dfy`: the immutable `Item` definition with its two caps and the
  derived `IsStackable` / `IsDegradable` flags.
- `Slots.dfy`: the value `SlotState` (item, amount, condition), the setter
  clamps `ClampAmount` / `ClampCondition`, the slot invariant `ValidState`,
  the merge-identity test `Equivalent`, the swap result `Swapped`, and the
  class `ItemSlot` whose setters, `Clear`, `Swap` and constructors rewrite
  its fields in place.
- `Clicks.dfy`: the transfer rule as written (`ClickAsWritten`), the rule
  the model uses (`Click`), the class `ClickHandler` whose `ProcessClick`
  mutates the cursor and clicked slots, and the laws of the rule:
  branch-by-branch outcomes and conservation of item quantities, for two
  slots and for a whole sequence of slots.

Design decisions:

- Items are compared by reference in the original. Here an `Item` is a
  datatype value carrying an `id`, and two slots hold "the same reference"
  exactly when their item values are equal.
- The pure functions reproduce the setters' clamps exactly, for any caps and
  any state. The lemmas then show that, on states satisfying the slot
  invariant, re-storing through the setters changes nothing. That is what
  makes `Swap` exact and the merges conserve quantities.
- The slot invariant (`ValidState`): an empty slot holds amount 0 and
  condition 0; a slot with an item holds an amount in `[0, maxStack]` and a
  condition at most `maxCondition`. An item with amount 0 is allowed, since
  the named constructor can produce it (a requested amount below 1).
- The item lookup by name becomes a `catalog: string -> Option<Item>`
  parameter of the named constructor.
- The model follows the code: a null click target is logged and ignored;
  "stackable" means `maxStack > 1`; the caps are unconstrained integers.
- A click between two empty slots throws in the original (see Findings).
  Only `ClickAsWritten` models that throw. `Click` and `ProcessClick` make
  that click a no-op.

## Model

| member | source | states |
|---|---|---|
| `Slots.ClampAmount` | ItemSlot.cs:12-24 | The stored amount is 0 without an item, lies in [0, maxStack] whenever maxStack is not negative, and equals the written value when that value is in [1, maxStack]. |
| `Slots.ClampCondition` | ItemSlot.cs:29-40 | The stored condition is 0 without an item, never exceeds maxCondition, and equals the written value whenever that value is at most maxCondition. |
| `Slots.AmountClampLaw` | ItemSlot.cs:17-20 | Writing v stores maxStack when v > maxStack, 0 when v < 1, v otherwise; with maxStack >= 1 the stored amount lies in [0, maxStack]. |
| `Slots.NoItemStoresZero` | ItemSlot.cs:17-34 | On a slot without an item both setters store 0, whatever value is written. |
| `Slots.AmountClampIdempotent` | ItemSlot.cs:14-20 | When the cap is not negative, writing back the amount just read stores it unchanged. |
| `Slots.NegativeCapNotIdempotent` | ItemSlot.cs:18-19 | With a negative maxStack the first write of 1 stores the cap and writing that back stores 0, so the clamp range [0, maxStack] needs a non-negative cap. |
| `Slots.ConditionClampLaw` | ItemSlot.cs:34-36 | Writing v stores min(v, maxCondition): the cap above v, v itself otherwise, with no lower bound. |
| `Slots.NonDegradableConditionBound` | Item.cs:19-24 | For a non-degradable item (maxCondition <= -1) every stored condition is at most -1. |
| `Slots.StackableIffHoldsTwo` | Item.cs:23 | An item is stackable exactly when a slot holding it stores a written amount of 2 unchanged, so maxStack is the cap the amount setter enforces. |
| `Slots.DegradableIffHoldsZeroCondition` | Item.cs:24 | An item is degradable exactly when a slot holding it stores condition 0 unchanged, so maxCondition is the cap the condition setter enforces. |
| `Slots.NonStackableHoldsAtMostOne` | Item.cs:16-17 | A slot satisfying the invariant that holds a non-stackable item holds at most one unit. |
| `Slots.NoItemIffEmpty` | ItemSlot.cs:45 | In a slot satisfying the invariant, having no item is the same as being the empty triple (no item, 0, 0). |
| `Slots.Store` | ItemSlot.cs:80-87 | Assigning an item and then writing amount and condition through the setters keeps that item, gives the empty slot when there is no item, and gives a slot satisfying the invariant when maxStack is not negative. |
| `Slots.StoreValidIsIdentity` | ItemSlot.cs:80-87 | Re-storing the triple of a slot that satisfies the invariant reproduces it exactly. |
| `Slots.Swapped` | ItemSlot.cs:72-93 | For two slots satisfying the invariant, the swap result is exactly the two triples exchanged. |
| `Slots.SwapTwice` | ItemSlot.cs:72-93 | Swapping two slots that satisfy the invariant twice restores both. |
| `Slots.EquivalentIsEquivalence` | ItemSlot.cs:61-69 | The merge-identity test is reflexive, symmetric and transitive, and two empty slots compare equal. |
| `Slots.EquivalentIgnoresAmount` | ItemSlot.cs:64 | Changing either slot's amount never changes the result of the merge-identity test. |
| `Items.Item.IsStackable` | Item.cs:23 | The flag holds exactly when the stack cap admits at least two units in one slot. |
| `Items.Item.IsDegradable` | Item.cs:24 | The flag holds exactly when the condition cap admits condition 0; a maxCondition of -1 marks an item that does not degrade. |
| `Slots.ItemSlot.HasItem` | ItemSlot.cs:45 | For a slot satisfying the invariant, holding no item is the same as being the empty slot (no item, 0, 0). |
| `Slots.ItemSlot.Compare` | ItemSlot.cs:61-69 | The test is symmetric, a slot passes it with itself, two valid empty slots pass it, and passing it means both slots hold the same item, whatever their amounts. |
| `Slots.ItemSlot.constructor` | ItemSlot.cs:156-162 | The no-argument constructor yields the empty slot (no item, 0, 0), which satisfies the invariant. |
| `Slots.ItemSlot.FromCatalog` | ItemSlot.cs:135-153 | An unknown name yields the empty slot; a known one stores the catalog's item with the given amount (default 1) and condition (default 0) passed through the setter clamps; the result satisfies the invariant when maxStack is not negative. |
| `Slots.ItemSlot.SetAmount` | ItemSlot.cs:15-23 | Only the amount changes, to the clamped value, and the invariant is preserved. |
| `Slots.ItemSlot.SetCondition` | ItemSlot.cs:32-39 | Only the condition changes, to the clamped value, and the invariant is preserved. |
| `Slots.ItemSlot.Clear` | ItemSlot.cs:124-131 | The slot ends as (no item, 0, 0) whatever it held, so clearing an empty slot changes nothing. |
| `Slots.ItemSlot.Swap` | ItemSlot.cs:72-93 | Both slots end as `Swapped` of their old triples (also when they are the same object); for slots satisfying the invariant the triples are exchanged exactly. |
| `Clicks.ClickAsWritten` | ClickHandler.cs:44-99 | The handler as written throws exactly when the two slots compare equal and hold no item; wherever it does not throw, slots satisfying the invariant stay so. |
| `Clicks.Click` | ClickHandler.cs:44-99 | The transfer rule keeps both slots satisfying the invariant. |
| `Clicks.ClickExtendsAsWritten` | ClickHandler.cs:44-99 | The rule `ProcessClick` follows and the handler as written agree wherever the latter does not throw; where it throws, the former leaves both slots unchanged. |
| `Clicks.ClickFaultsExactlyOnEmptyPair` | ClickHandler.cs:62-67 | On slots satisfying the invariant, the handler as written throws exactly when both slots are empty. |
| `Clicks.ClickOnEmptyPairIsNoOp` | ClickHandler.cs:62-67 | In the model, a click between two empty slots changes nothing. |
| `Clicks.ClickSwapsDifferentSlots` | ClickHandler.cs:53-57 | When the slots do not compare equal, the click is exactly a swap of their triples. |
| `Clicks.ClickLeavesNonStackable` | ClickHandler.cs:62-67 | When the slots compare equal and the item is not stackable, neither slot changes. |
| `Clicks.ClickLeavesFullStack` | ClickHandler.cs:72-73 | When the slots compare equal and the clicked slot already holds maxStack, neither slot changes. |
| `Clicks.ClickMergesAll` | ClickHandler.cs:78-86 | When the two amounts fit in one stack, the clicked slot holds their sum with its item and condition and the cursor ends empty. |
| `Clicks.ClickSplitsOverflow` | ClickHandler.cs:89-92 | When they overflow, the clicked slot holds maxStack and the cursor keeps item and condition with the remainder total - maxStack, which lies in [1, old cursor amount). |
| `Clicks.ClickConserves` | ClickHandler.cs:78-92 | Every click conserves, for every item, the units held by the two slots, and when the slots compare equal the clicked slot keeps its item and condition. |
| `Clicks.ClickConservesAcrossSlots` | ClickHandler.cs:44-99 | A click between the cursor and any slot of a sequence conserves each item's total over the cursor and the whole sequence, and keeps every slot satisfying the invariant. |
| `Clicks.ClickHandler.ProcessClick` | ClickHandler.cs:44-99 | A null target changes nothing; otherwise the cursor and clicked slots end exactly as `Click` says of their old triples, and no other object is modified. |

## Left out

- The UI notifications (`RefreshUISlot`, `AttachUI`, `DetachUI` and the
  refresh calls inside the setters, in `Swap`, `Clear` and `ProcessClick`):
  presentation callbacks with no effect on slot data.
- The item lookup's internals (lower-casing the name, loading the asset,
  logging a warning when it is missing): replaced by the `catalog` parameter.
  The warnings logged for a missing item and for a null click target are not
  modelled.
- The click handler's `Awake` and `Update`: mouse input and raycasting that
  only decide which slot was clicked.
- `UIItemSlot` (sprite and text rendering, cursor following, the
  floating-point condition bar) and `ItemContainer` (instantiating and
  destroying slot prefabs, key handling, random demo contents): presentation
  and demo code. The container appears only as a plain sequence of slot
  states in `Clicks.ClickConservesAcrossSlots`.
- The item's icon and description: asset metadata with no behaviour.
- Clicks.ClickHandler.ProcessClick: requires the clicked slot to be a
  different object from the cursor slot. In the original, a click that hit
  the cursor slot itself would merge a stack with itself: when twice its
  amount fits in one stack, the slot is set to that sum and then cleared, so
  the whole stack is lost. Nothing in the click handler rules this out; it
  rests on the scene setup keeping the cursor slot out of the raycast.
- Clicks.ClickHandler.ProcessClick: the click between two empty slots ends
  as a no-op, not with the exception the original throws (see Findings).
- The `cursor` field is a `UIItemSlot` in the original; the model holds the
  `ItemSlot` it wraps, and the clicked target is given directly as a possibly
  null `ItemSlot`.
- Items.Item: the model treats an item's caps as fixed. In the original they
  are writable public fields of the asset; no code writes them, so the model
  assumes they never change at runtime.
- 32-bit integer overflow: amounts and caps are unbounded integers. The sum
  of two amounts that satisfy the invariant is at most twice `maxStack`, so
  overflow can occur only for caps above 2^30.

## Findings

| source | as written | input that shows it | evidently intended | confidence | as-written member | corrected member |
|---|---|---|---|---|---|---|
| ClickHandler.cs:62-67 | `Compare` holds for two empty slots (both items null, both conditions 0), and the handler then reads `isStackable` through the cursor's null item | cursor slot empty, clicked slot empty | the click changes nothing | high; not executed | `Clicks.ClickFaultsExactlyOnEmptyPair` | `Clicks.ClickOnEmptyPairIsNoOp` |
