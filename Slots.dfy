/**
 * One inventory slot: at most one item type, a quantity of it and a condition.
 * The value layer (SlotState and the functions over it) says what the setters
 * store; the class ItemSlot is the mutable slot whose setters, Clear, Swap and
 * constructors rewrite its fields in place.
 */
module Slots {

  import opened Wrappers
  import opened Items

  /** The (item, amount, condition) triple a slot holds; `None` is the empty item. */
  datatype SlotState = SlotState(item: Option<Item>, amount: int, condition: int)

  /** What an empty slot holds. */
  const EmptySlot := SlotState(None, 0, 0)

  /**
   * The amount the `amount` setter stores when `v` is written while the slot holds
   * `item`: nothing without an item, at most the item's stack cap, nothing below 1.
   */
  function ClampAmount(item: Option<Item>, v: int): (r: int)
    ensures item.None? ==> r == 0
    ensures item.Some? && item.value.maxStack >= 0 ==> 0 <= r <= item.value.maxStack
    ensures item.Some? && 1 <= v <= item.value.maxStack ==> r == v
  {
    match item
    case None => 0
    case Some(it) =>
      if v > it.maxStack then it.maxStack
      else if v < 1 then 0
      else v
  }

  /**
   * The condition the `condition` setter stores when `v` is written while the slot
   * holds `item`: 0 without an item, otherwise capped above by the item's
   * maxCondition and not bounded below.
   */
  function ClampCondition(item: Option<Item>, v: int): (r: int)
    ensures item.None? ==> r == 0
    ensures item.Some? ==> r <= item.value.maxCondition
    ensures item.Some? && v <= item.value.maxCondition ==> r == v
  {
    match item
    case None => 0
    case Some(it) => if v > it.maxCondition then it.maxCondition else v
  }

  /**
   * The slot invariant: an empty slot holds amount 0 and condition 0; a full one
   * holds between 0 and maxStack units and a condition no higher than maxCondition.
   * An item with amount 0 is allowed.
   */
  predicate ValidState(s: SlotState) {
    match s.item
    case None => s.amount == 0 && s.condition == 0
    case Some(it) => 0 <= s.amount <= it.maxStack && s.condition <= it.maxCondition
  }

  /**
   * The state a slot ends in when `item` is assigned and then `amount` and
   * `condition` are written through their setters, in that order.
   */
  function Store(item: Option<Item>, amount: int, condition: int): (s: SlotState)
    ensures s.item == item
    ensures item.None? ==> s == EmptySlot
    ensures item.None? || item.value.maxStack >= 0 ==> ValidState(s)
  {
    SlotState(item, ClampAmount(item, amount), ClampCondition(item, condition))
  }

  /** Writing back through the setters what a valid slot already holds changes nothing. */
  lemma StoreValidIsIdentity(s: SlotState)
    requires ValidState(s)
    ensures Store(s.item, s.amount, s.condition) == s
  {
  }

  /**
   * The merge-identity test: the same item (or both empty) in the same condition.
   * The amount plays no part.
   */
  predicate Equivalent(a: SlotState, b: SlotState) {
    a.item == b.item && a.condition == b.condition
  }

  /** The two states after Swap(a, b): each slot re-stores the other's triple. */
  function Swapped(a: SlotState, b: SlotState): (r: (SlotState, SlotState))
    ensures ValidState(a) && ValidState(b) ==> r == (b, a)
  {
    (Store(b.item, b.amount, b.condition), Store(a.item, a.amount, a.condition))
  }

  // ---------------------------------------------------------------------------
  // Laws of the setters and of the item flags

  /** The amount setter, case by case; with a cap of at least 1 the stored amount lies in [0, cap]. */
  lemma AmountClampLaw(it: Item, v: int)
    ensures v > it.maxStack ==> ClampAmount(Some(it), v) == it.maxStack
    ensures v <= it.maxStack && v < 1 ==> ClampAmount(Some(it), v) == 0
    ensures 1 <= v <= it.maxStack ==> ClampAmount(Some(it), v) == v
    ensures it.maxStack >= 1 ==> 0 <= ClampAmount(Some(it), v) <= it.maxStack
  {
  }

  /** Without an item, both setters store 0 whatever is written. */
  lemma NoItemStoresZero(amount: int, condition: int)
    ensures ClampAmount(None, amount) == 0 && ClampCondition(None, condition) == 0
  {
  }

  /**
   * Writing back the amount just read changes nothing when the cap is not negative;
   * with a negative cap it does not hold (see NegativeCapNotIdempotent).
   */
  lemma AmountClampIdempotent(item: Option<Item>, v: int)
    requires item.None? || item.value.maxStack >= 0
    ensures ClampAmount(item, ClampAmount(item, v)) == ClampAmount(item, v)
  {
  }

  /** A negative stack cap: the first write stores the cap, the second write of it stores 0. */
  lemma NegativeCapNotIdempotent(it: Item)
    requires it.maxStack < 0
    ensures ClampAmount(Some(it), 1) == it.maxStack
    ensures ClampAmount(Some(it), ClampAmount(Some(it), 1)) == 0
  {
  }

  /** The condition setter: min(v, maxCondition), with no lower bound. */
  lemma ConditionClampLaw(it: Item, v: int)
    ensures v > it.maxCondition ==> ClampCondition(Some(it), v) == it.maxCondition
    ensures v <= it.maxCondition ==> ClampCondition(Some(it), v) == v
  {
  }

  /** A non-degradable item (maxCondition -1, or below) always ends with a condition of at most -1. */
  lemma NonDegradableConditionBound(it: Item, v: int)
    requires !it.IsDegradable()
    ensures ClampCondition(Some(it), v) <= -1
  {
  }

  /** An item is stackable exactly when a slot holding it can store two units. */
  lemma StackableIffHoldsTwo(it: Item)
    ensures it.IsStackable() <==> ClampAmount(Some(it), 2) == 2
  {
  }

  /** An item is degradable exactly when a slot holding it can store condition 0. */
  lemma DegradableIffHoldsZeroCondition(it: Item)
    ensures it.IsDegradable() <==> ClampCondition(Some(it), 0) == 0
  {
  }

  /** A valid slot holding a non-stackable item holds at most one unit. */
  lemma NonStackableHoldsAtMostOne(s: SlotState)
    requires ValidState(s) && s.item.Some? && !s.item.value.IsStackable()
    ensures 0 <= s.amount <= 1
  {
  }

  /** In a valid slot, having no item and being the empty slot are the same thing. */
  lemma NoItemIffEmpty(s: SlotState)
    requires ValidState(s)
    ensures s.item.None? <==> s == EmptySlot
  {
  }

  // ---------------------------------------------------------------------------
  // Laws of the merge-identity test and of Swap

  /** Equivalent is an equivalence relation, and two empty slots are equivalent. */
  lemma EquivalentIsEquivalence(a: SlotState, b: SlotState, c: SlotState)
    ensures Equivalent(a, a)
    ensures Equivalent(a, b) ==> Equivalent(b, a)
    ensures Equivalent(a, b) && Equivalent(b, c) ==> Equivalent(a, c)
    ensures Equivalent(EmptySlot, EmptySlot)
  {
  }

  /** Equivalent ignores the amounts: only item and condition decide. */
  lemma EquivalentIgnoresAmount(a: SlotState, b: SlotState, m: int, n: int)
    ensures Equivalent(a, b) <==> Equivalent(a.(amount := m), b.(amount := n))
  {
  }

  /** Swapping twice restores both valid slots. */
  lemma SwapTwice(a: SlotState, b: SlotState)
    requires ValidState(a) && ValidState(b)
    ensures Swapped(Swapped(a, b).0, Swapped(a, b).1) == (a, b)
  {
  }

  // ---------------------------------------------------------------------------
  // The mutable slot

  class ItemSlot {

    var item: Option<Item>
    var amount: int
    var condition: int

    /** The triple this slot holds. */
    function State(): (s: SlotState)
      reads this
    {
      SlotState(item, amount, condition)
    }

    predicate Valid()
      reads this
    {
      ValidState(State())
    }

    /** The slot holds an item; a valid slot without one is the empty slot. */
    predicate HasItem(): (b: bool)
      reads this
      ensures Valid() ==> (!b <==> State() == EmptySlot)
    {
      item.Some?
    }

    /** The constructor for an empty slot. */
    constructor ()
      ensures State() == EmptySlot
      ensures Valid()
    {
      item := None;
      amount := 0;
      condition := 0;
    }

    /**
     * The constructor that looks `itemName` up in `catalog`. An unknown name gives
     * an empty slot; a known one stores the item and writes the amount and the
     * condition through the setters.
     */
    constructor FromCatalog(catalog: string -> Option<Item>, itemName: string,
                            initialAmount: int := 1, initialCondition: int := 0)
      ensures catalog(itemName).None? ==> State() == EmptySlot
      ensures catalog(itemName).Some? ==>
                item == catalog(itemName) &&
                amount == ClampAmount(item, initialAmount) &&
                condition == ClampCondition(item, initialCondition)
      ensures catalog(itemName).None? || catalog(itemName).value.maxStack >= 0 ==> Valid()
    {
      item := None;
      amount := 0;
      condition := 0;
      new;
      var found := catalog(itemName);
      if found.None? {
        item := None;
        SetAmount(0);
        SetCondition(0);
      } else {
        item := found;
        SetAmount(initialAmount);
        SetCondition(initialCondition);
      }
    }

    /** The `amount` setter. */
    method SetAmount(v: int)
      modifies this
      ensures State() == old(State()).(amount := ClampAmount(item, v))
      ensures old(Valid()) ==> Valid()
    {
      if item.None? {
        amount := 0;
      } else if v > item.value.maxStack {
        amount := item.value.maxStack;
      } else if v < 1 {
        amount := 0;
      } else {
        amount := v;
      }
    }

    /** The `condition` setter. */
    method SetCondition(v: int)
      modifies this
      ensures State() == old(State()).(condition := ClampCondition(item, v))
      ensures old(Valid()) ==> Valid()
    {
      if item.None? {
        condition := 0;
      } else if v > item.value.maxCondition {
        condition := item.value.maxCondition;
      } else {
        condition := v;
      }
    }

    /** Empties the slot; clearing an empty slot therefore changes nothing. */
    method Clear()
      modifies this
      ensures State() == EmptySlot
    {
      item := None;
      SetAmount(0);
      SetCondition(0);
    }

    /**
     * The merge-identity test on two slots: it is symmetric, a slot passes it with
     * itself, two valid empty slots pass it, and passing it means holding the
     * same item, whatever the amounts.
     */
    static predicate Compare(a: ItemSlot, b: ItemSlot): (r: bool)
      reads a, b
      ensures r == Equivalent(b.State(), a.State())
      ensures a == b ==> r
      ensures a.Valid() && b.Valid() && !a.HasItem() && !b.HasItem() ==> r
      ensures r ==> a.item == b.item
    {
      Equivalent(a.State(), b.State())
    }

    /**
     * Exchanges the contents of two slots: a's triple is cached, b's is written
     * into a and the cached one into b, amounts and conditions through the setters.
     * For valid slots the exchange is exact.
     */
    static method Swap(a: ItemSlot, b: ItemSlot)
      modifies a, b
      ensures (a.State(), b.State()) == Swapped(old(a.State()), old(b.State()))
      ensures old(a.Valid()) && old(b.Valid()) ==>
                a.State() == old(b.State()) && b.State() == old(a.State())
    {
      var cachedItem, cachedAmount, cachedCondition := a.item, a.amount, a.condition;

      a.item := b.item;
      a.SetAmount(b.amount);
      a.SetCondition(b.condition);

      b.item := cachedItem;
      b.SetAmount(cachedAmount);
      b.SetCondition(cachedCondition);
    }
  }

}
