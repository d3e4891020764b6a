/**
 * The click-to-transfer rule: a click on a slot while the cursor slot holds
 * something either swaps the two slots' contents or merges the cursor's stack
 * into the clicked one, leaving any overflow on the cursor.
 */
module Clicks {

  import opened Wrappers
  import opened Items
  import opened Slots

  /**
   * The new (cursor, clicked) states after a click, as the handler is written.
   * `None` is the click on which the handler dereferences the item of an empty
   * cursor and throws, after no write (see the Findings in the README).
   */
  function ClickAsWritten(cursor: SlotState, clicked: SlotState): (r: Option<(SlotState, SlotState)>)
    ensures r.None? <==> Equivalent(cursor, clicked) && cursor.item.None? && clicked.item.None?
    ensures r.Some? && ValidState(cursor) && ValidState(clicked) ==>
              ValidState(r.value.0) && ValidState(r.value.1)
  {
    if !Equivalent(cursor, clicked) then
      Some(Swapped(cursor, clicked))
    else if cursor.item.None? then
      None
    else
      var it := cursor.item.value;
      if !it.IsStackable() then
        Some((cursor, clicked))
      else if clicked.amount == it.maxStack then
        Some((cursor, clicked))
      else
        var total := cursor.amount + clicked.amount;
        if total <= it.maxStack then
          Some((EmptySlot, clicked.(amount := ClampAmount(clicked.item, total))))
        else
          Some((cursor.(amount := ClampAmount(cursor.item, total - it.maxStack)),
                clicked.(amount := ClampAmount(clicked.item, it.maxStack))))
  }

  /**
   * The new (cursor, clicked) states after a click, as ProcessClick computes them:
   * slots that differ are swapped; equivalent slots that are empty, hold a
   * non-stackable item or a full clicked stack are left alone; otherwise the
   * cursor's units move into the clicked slot, up to its cap. Valid slots stay valid.
   */
  function Click(cursor: SlotState, clicked: SlotState): (r: (SlotState, SlotState))
    ensures ValidState(cursor) && ValidState(clicked) ==> ValidState(r.0) && ValidState(r.1)
  {
    if !Equivalent(cursor, clicked) then
      Swapped(cursor, clicked)
    else if cursor.item.None? then
      (cursor, clicked)
    else
      var maxStack := cursor.item.value.maxStack;
      if !cursor.item.value.IsStackable() || clicked.amount == maxStack then
        (cursor, clicked)
      else
        var total := cursor.amount + clicked.amount;
        if total <= maxStack then
          (EmptySlot, clicked.(amount := ClampAmount(clicked.item, total)))
        else
          (cursor.(amount := ClampAmount(cursor.item, total - maxStack)),
           clicked.(amount := ClampAmount(clicked.item, maxStack)))
  }

  /** How many units of `x` a slot holds. */
  function Quantity(s: SlotState, x: Item): (n: int) {
    if s.item == Some(x) then s.amount else 0
  }

  /** How many units of `x` a sequence of slots holds in all. */
  function Total(slots: seq<SlotState>, x: Item): (n: int) {
    if slots == [] then 0 else Quantity(slots[0], x) + Total(slots[1..], x)
  }

  /** Every slot of the sequence satisfies the slot invariant. */
  predicate AllValid(slots: seq<SlotState>) {
    forall k :: 0 <= k < |slots| ==> ValidState(slots[k])
  }

  // ---------------------------------------------------------------------------
  // The handler as written, and the click it fails on

  /** The handler as written fails exactly on a click between two empty valid slots. */
  lemma ClickFaultsExactlyOnEmptyPair(cursor: SlotState, clicked: SlotState)
    requires ValidState(cursor) && ValidState(clicked)
    ensures ClickAsWritten(cursor, clicked).None? <==> cursor == EmptySlot && clicked == EmptySlot
  {
  }

  /** A click between two empty slots changes nothing, so repeating it changes nothing either. */
  lemma ClickOnEmptyPairIsNoOp()
    ensures Click(EmptySlot, EmptySlot) == (EmptySlot, EmptySlot)
  {
  }

  /**
   * The two formulations of the rule agree wherever the handler as written does
   * not fail, and where it fails Click leaves both slots as they are.
   */
  lemma ClickExtendsAsWritten(cursor: SlotState, clicked: SlotState)
    ensures ClickAsWritten(cursor, clicked).Some? ==>
              Click(cursor, clicked) == ClickAsWritten(cursor, clicked).value
    ensures ClickAsWritten(cursor, clicked).None? ==> Click(cursor, clicked) == (cursor, clicked)
  {
  }

  // ---------------------------------------------------------------------------
  // The cascade, branch by branch

  /** Slots that are not equivalent are swapped, exactly. */
  lemma ClickSwapsDifferentSlots(cursor: SlotState, clicked: SlotState)
    requires ValidState(cursor) && ValidState(clicked)
    requires !Equivalent(cursor, clicked)
    ensures Click(cursor, clicked) == (clicked, cursor)
  {
  }

  /** Equivalent slots holding a non-stackable item are left alone. */
  lemma ClickLeavesNonStackable(cursor: SlotState, clicked: SlotState, it: Item)
    requires Equivalent(cursor, clicked) && cursor.item == Some(it)
    requires !it.IsStackable()
    ensures Click(cursor, clicked) == (cursor, clicked)
  {
  }

  /** A click on a full equivalent stack is left alone. */
  lemma ClickLeavesFullStack(cursor: SlotState, clicked: SlotState, it: Item)
    requires Equivalent(cursor, clicked) && cursor.item == Some(it)
    requires clicked.amount == it.maxStack
    ensures Click(cursor, clicked) == (cursor, clicked)
  {
  }

  /**
   * When everything fits, the clicked slot receives the whole of both stacks and
   * the cursor ends empty.
   */
  lemma ClickMergesAll(cursor: SlotState, clicked: SlotState, it: Item)
    requires ValidState(cursor) && ValidState(clicked)
    requires Equivalent(cursor, clicked) && cursor.item == Some(it) && it.IsStackable()
    requires clicked.amount != it.maxStack
    requires cursor.amount + clicked.amount <= it.maxStack
    ensures Click(cursor, clicked) == (EmptySlot, clicked.(amount := cursor.amount + clicked.amount))
  {
  }

  /**
   * When the stacks overflow, the clicked slot is filled to maxStack and the
   * remainder, at least 1 and less than what the cursor held, stays on the cursor
   * with its item and condition.
   */
  lemma ClickSplitsOverflow(cursor: SlotState, clicked: SlotState, it: Item)
    requires ValidState(cursor) && ValidState(clicked)
    requires Equivalent(cursor, clicked) && cursor.item == Some(it) && it.IsStackable()
    requires clicked.amount != it.maxStack
    requires cursor.amount + clicked.amount > it.maxStack
    ensures Click(cursor, clicked)
              == (cursor.(amount := cursor.amount + clicked.amount - it.maxStack),
                  clicked.(amount := it.maxStack))
    ensures 1 <= Click(cursor, clicked).0.amount < cursor.amount
  {
  }

  /**
   * No click creates or destroys items: for every item, the units in the two
   * slots are the same before and after, and a merge leaves the clicked slot's
   * item and condition as they were.
   */
  lemma ClickConserves(cursor: SlotState, clicked: SlotState, x: Item)
    requires ValidState(cursor) && ValidState(clicked)
    ensures Quantity(Click(cursor, clicked).0, x) + Quantity(Click(cursor, clicked).1, x)
              == Quantity(cursor, x) + Quantity(clicked, x)
    ensures Equivalent(cursor, clicked) ==>
              Click(cursor, clicked).1.item == clicked.item &&
              Click(cursor, clicked).1.condition == clicked.condition
  {
  }

  /** Replacing one slot of a sequence changes the total by that slot's difference. */
  lemma {:induction false} TotalUpdate(slots: seq<SlotState>, i: int, s: SlotState, x: Item)
    requires 0 <= i < |slots|
    ensures Total(slots[i := s], x) == Total(slots, x) - Quantity(slots[i], x) + Quantity(s, x)
  {
    if i == 0 {
      assert slots[i := s][1..] == slots[1..];
    } else {
      assert slots[i := s][1..] == slots[1..][i - 1 := s];
      TotalUpdate(slots[1..], i - 1, s, x);
    }
  }

  /**
   * A click on any slot of a container conserves, for every item, the units held
   * by the cursor and the container together, and keeps every slot valid.
   */
  lemma ClickConservesAcrossSlots(cursor: SlotState, slots: seq<SlotState>, i: int, x: Item)
    requires 0 <= i < |slots|
    requires ValidState(cursor) && AllValid(slots)
    ensures Quantity(Click(cursor, slots[i]).0, x) + Total(slots[i := Click(cursor, slots[i]).1], x)
              == Quantity(cursor, x) + Total(slots, x)
    ensures ValidState(Click(cursor, slots[i]).0)
    ensures AllValid(slots[i := Click(cursor, slots[i]).1])
  {
    ClickConserves(cursor, slots[i], x);
    TotalUpdate(slots, i, Click(cursor, slots[i]).1, x);
  }

  // ---------------------------------------------------------------------------
  // The handler

  /** Routes clicks on slots to the transfer rule against its cursor slot. */
  class ClickHandler {

    /** The slot that follows the mouse and holds what is being dragged. */
    var cursor: ItemSlot

    constructor (cursor: ItemSlot)
      ensures this.cursor == cursor
    {
      this.cursor := cursor;
    }

    /**
     * Applies a click on `clicked`: a missing target changes nothing; otherwise
     * the cursor and clicked slots end as Click says, and no other object changes.
     */
    method ProcessClick(clicked: ItemSlot?)
      requires clicked != cursor
      modifies cursor, clicked
      ensures clicked == null ==> unchanged(cursor)
      ensures clicked != null ==>
                (cursor.State(), clicked.State()) == Click(old(cursor.State()), old(clicked.State()))
    {
      if clicked == null {
        return;
      }

      if !ItemSlot.Compare(cursor, clicked) {
        ItemSlot.Swap(cursor, clicked);
        return;
      }

      if ItemSlot.Compare(cursor, clicked) {
        // Both slots empty: the handler as written throws here, having written nothing.
        if !cursor.HasItem() {
          return;
        }

        if !cursor.item.value.IsStackable() {
          return;
        }

        if clicked.amount == clicked.item.value.maxStack {
          return;
        }

        var total := cursor.amount + clicked.amount;
        var maxStack := cursor.item.value.maxStack;

        if total <= maxStack {
          clicked.SetAmount(total);
          cursor.Clear();
        } else {
          clicked.SetAmount(maxStack);
          cursor.SetAmount(total - maxStack);
        }
      }
    }
  }

}
