/** When a stock transaction is accepted, and what it does to the levels and the ledger. */
module StockChanges {
  import opened Arithmetic
  import opened Common
  import opened StockLedger

  /** Stock is kept only of tracked items that exist, at active locations that exist. */
  predicate Usable(c: Context, k: Key) {
    && k.item in c.items && c.items[k.item].tracked
    && k.location in c.locations && c.locations[k.location]
  }

  ghost predicate OthersKept(before: Stock, after: Stock, changed: set<Key>) {
    forall k | k !in changed :: LevelAt(after.levels, k) == LevelAt(before.levels, k)
  }

  /**
   * An adjustment moves the level by its delta: accepted exactly when the item and the
   * location are usable, the result is not below zero unless stock is added or overselling
   * allowed, and the result is at most a million away from zero.
   */
  lemma AdjustsExactly(s: Stock, c: Context, item: nat, location: nat, delta: int, reason: Reason)
    ensures var r := Execute(s, c, Adjust(item, location, delta, reason)); var k := Key(item, location);
      var resulting := LevelAt(s.levels, k) + delta;
      && (r.Ok? <==>
          && Usable(c, k)
          && (0 <= resulting || 0 < delta || c.items[item].overselling)
          && -1000000 <= resulting <= 1000000)
      && (r.Err? && Usable(c, k) ==>
          r.error == if resulting < -1000000 || 1000000 < resulting then TooLarge else NotEnough)
      && (r.Ok? ==>
          && LevelAt(r.value.levels, k) == resulting
          && OthersKept(s, r.value, {k})
          && r.value.movements == s.movements + [Movement(k, delta, resulting, reason)])
  {
  }

  /**
   * Setting a level makes it the quantity, and records the difference: as INITIAL when the
   * level had no history, and not at all when the quantity was already there.
   */
  lemma SetsExactly(s: Stock, c: Context, item: nat, location: nat, quantity: int, reason: Reason)
    requires ValidInput(SetTo(item, location, quantity, reason))
    ensures var r := Execute(s, c, SetTo(item, location, quantity, reason)); var k := Key(item, location);
      var was := LevelAt(s.levels, k);
      && (r.Ok? <==> Usable(c, k) && (0 <= quantity || c.items[item].overselling))
      && (r.Err? && Usable(c, k) ==> r.error == BelowZero)
      && (r.Ok? ==>
          && LevelAt(r.value.levels, k) == quantity
          && OthersKept(s, r.value, {k})
          && (was == quantity ==> r.value.movements == s.movements)
          && (was != quantity ==>
              && |r.value.movements| == |s.movements| + 1 && s.movements <= r.value.movements
              && var m := r.value.movements[|s.movements|];
              && m.key == k && m.delta == quantity - was && m.resulting == quantity
              && ((exists i | 0 <= i < |s.movements| :: s.movements[i].key == k) ==> m.reason == reason)
              && ((forall i | 0 <= i < |s.movements| :: s.movements[i].key != k) ==> m.reason == INITIAL)))
  {
  }

  /**
   * A transfer takes the quantity from one location and adds it to the other: accepted
   * exactly when both are usable, that much is there and the other end does not overflow.
   */
  lemma MovesExactly(s: Stock, c: Context, item: nat, from: nat, to: nat, quantity: int)
    requires ValidInput(Move(item, from, to, quantity)) && WithinLimit(s)
    ensures var r := Execute(s, c, Move(item, from, to, quantity));
      var source, target := Key(item, from), Key(item, to);
      && (r.Ok? <==>
          && Usable(c, source) && Usable(c, target)
          && quantity <= LevelAt(s.levels, source)
          && LevelAt(s.levels, target) + quantity <= 1000000)
      && (r.Err? && Usable(c, source) && Usable(c, target) ==>
          r.error == if LevelAt(s.levels, source) < quantity then NotEnough else TooLarge)
      && (r.Ok? ==>
          && LevelAt(r.value.levels, source) == LevelAt(s.levels, source) - quantity
          && LevelAt(r.value.levels, target) == LevelAt(s.levels, target) + quantity
          && OthersKept(s, r.value, {source, target})
          && r.value.movements == s.movements + [
              Movement(source, -quantity, LevelAt(s.levels, source) - quantity, TRANSFER),
              Movement(target, quantity, LevelAt(s.levels, target) + quantity, TRANSFER)])
  {
    assert Abs(LevelAt(s.levels, Key(item, from))) <= INVENTORY_QUANTITY_LIMIT;
    assert Abs(LevelAt(s.levels, Key(item, to))) <= INVENTORY_QUANTITY_LIMIT;
  }

  /** Refusals for the item or the location come first, whatever was asked. */
  lemma UnusableIsRefused(s: Stock, c: Context, step: Step)
    requires step.Adjust? || step.SetTo?
    requires !Usable(c, Key(step.item, step.location))
    ensures Execute(s, c, step) == Err(
      if step.item !in c.items || step.location !in c.locations then NotFound
      else if !c.items[step.item].tracked then Untracked
      else Inactive)
  {
  }
}
