/**
 * The static definition of an item type: an immutable asset that slots refer to.
 * The asset's icon and description carry no behaviour and are not modelled.
 */
module Items {

  /**
   * An item definition, treated as immutable: nothing writes its fields once the
   * asset exists. Slots compare items by reference; here two values are the
   * same reference exactly when they are equal, and `id` tells apart two assets
   * whose other fields happen to coincide.
   * `maxStack` is the per-slot quantity cap and `maxCondition` the condition cap;
   * a `maxCondition` of -1 marks an item that does not degrade. Neither is
   * constrained by the item itself.
   */
  datatype Item = Item(id: nat, itemName: string, maxStack: int, maxCondition: int)
  {
    /** More than one unit of this item fits in a slot: the cap admits at least two. */
    predicate IsStackable(): (b: bool)
      ensures b <==> maxStack >= 2
    {
      maxStack > 1
    }

    /**
     * This item has a condition that can wear down: its cap admits condition 0.
     * A maxCondition of -1 marks an item that does not degrade.
     */
    predicate IsDegradable(): (b: bool)
      ensures b <==> maxCondition >= 0
      ensures maxCondition == -1 ==> !b
    {
      maxCondition > -1
    }
  }

}
