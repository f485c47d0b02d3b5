/** The single write path for stock: conditional updates and an append-only movement ledger. */
module StockLedger {
  import opened Arithmetic
  import opened Common

  const INVENTORY_QUANTITY_LIMIT := 1_000_000

  datatype Item = Item(tracked: bool, overselling: bool)

  /** The live items and the locations (with their active flag) as a transaction finds them. */
  datatype Context = Context(items: map<nat, Item>, locations: map<nat, bool>)

  datatype Key = Key(item: nat, location: nat)

  datatype Reason = INITIAL | MANUAL_ADJUSTMENT | RESTOCK | CORRECTION | TRANSFER

  datatype Movement = Movement(key: Key, delta: int, resulting: int, reason: Reason)

  datatype Stock = Stock(levels: map<Key, int>, movements: seq<Movement>)

  datatype Error = NotFound | Untracked | Inactive | TooLarge | NotEnough | BelowZero

  /** Inputs as the validation schemas let them through. */
  datatype Step =
    | Adjust(item: nat, location: nat, delta: int, reason: Reason)
    | SetTo(item: nat, location: nat, quantity: int, reason: Reason)
    | Move(item: nat, from: nat, to: nat, quantity: int)

  predicate ValidInput(step: Step) {
    match step
    case Adjust(_, _, delta, _) => delta != 0 && -INVENTORY_QUANTITY_LIMIT <= delta <= INVENTORY_QUANTITY_LIMIT
    case SetTo(_, _, quantity, _) => -INVENTORY_QUANTITY_LIMIT <= quantity <= INVENTORY_QUANTITY_LIMIT
    case Move(_, from, to, quantity) => from != to && 1 <= quantity <= INVENTORY_QUANTITY_LIMIT
  }

  function LevelAt(levels: map<Key, int>, k: Key): int {
    if k in levels then levels[k] else 0
  }

  function WithLevel(levels: map<Key, int>, k: Key): map<Key, int> {
    levels[k := LevelAt(levels, k)]
  }

  /** The conditional update: the new value, or None when it would be refused. */
  function ApplyDelta(available: int, delta: int, allowNegative: bool): Option<int> {
    var resulting := available + delta;
    if (0 <= resulting || 0 < delta || allowNegative) && Abs(resulting) <= INVENTORY_QUANTITY_LIMIT
    then Some(resulting)
    else None
  }

  /** The item is tracked and the location is active; anything else is refused. */
  function Check(c: Context, item: nat, location: nat): Option<Error> {
    if item !in c.items || location !in c.locations then Some(NotFound)
    else if !c.items[item].tracked then Some(Untracked)
    else if !c.locations[location] then Some(Inactive)
    else None
  }

  function HasHistory(movements: seq<Movement>, k: Key): bool {
    exists m | m in movements :: m.key == k
  }

  function Record(s: Stock, k: Key, delta: int, resulting: int, reason: Reason): Stock {
    Stock(s.levels[k := resulting], s.movements + [Movement(k, delta, resulting, reason)])
  }

  function ExecuteAdjust(s: Stock, c: Context, step: Step): Result<Stock, Error>
    requires step.Adjust?
  {
    var k := Key(step.item, step.location);
    var refused := Check(c, step.item, step.location);
    if refused.Some? then Err(refused.value)
    else
      match ApplyDelta(LevelAt(s.levels, k), step.delta, c.items[step.item].overselling)
      case None => Err(if INVENTORY_QUANTITY_LIMIT < Abs(LevelAt(s.levels, k) + step.delta) then TooLarge else NotEnough)
      case Some(resulting) => Ok(Record(s, k, step.delta, resulting, step.reason))
  }

  function ExecuteSet(s: Stock, c: Context, step: Step): Result<Stock, Error>
    requires step.SetTo?
  {
    var k := Key(step.item, step.location);
    var refused := Check(c, step.item, step.location);
    if refused.Some? then Err(refused.value)
    else if step.quantity < 0 && !c.items[step.item].overselling then Err(BelowZero)
    else
      var delta := step.quantity - LevelAt(s.levels, k);
      if delta == 0 then Ok(s.(levels := WithLevel(s.levels, k)))
      else
        match ApplyDelta(LevelAt(s.levels, k), delta, true)
        case None => Err(TooLarge)
        case Some(resulting) =>
          Ok(Record(s, k, delta, resulting, if HasHistory(s.movements, k) then step.reason else INITIAL))
  }

  function ExecuteMove(s: Stock, c: Context, step: Step): Result<Stock, Error>
    requires step.Move?
  {
    var from, to := Key(step.item, step.from), Key(step.item, step.to);
    if step.item !in c.items || step.from !in c.locations || step.to !in c.locations then Err(NotFound)
    else if Check(c, step.item, step.from).Some? then Err(Check(c, step.item, step.from).value)
    else if Check(c, step.item, step.to).Some? then Err(Check(c, step.item, step.to).value)
    else
      var out := ApplyDelta(LevelAt(s.levels, from), -step.quantity, false);
      if out.None? then Err(NotEnough)
      else
        var into := ApplyDelta(LevelAt(s.levels, to), step.quantity, true);
        if into.None? then Err(TooLarge)
        else Ok(Record(Record(s, from, -step.quantity, out.value, TRANSFER), to, step.quantity, into.value, TRANSFER))
  }

  /** One stock transaction; an error leaves no trace. */
  function Execute(s: Stock, c: Context, step: Step): Result<Stock, Error> {
    match step
    case Adjust(_, _, _, _) => ExecuteAdjust(s, c, step)
    case SetTo(_, _, _, _) => ExecuteSet(s, c, step)
    case Move(_, _, _, _) => ExecuteMove(s, c, step)
  }

  function After(s: Stock, c: Context, step: Step): Stock {
    match Execute(s, c, step)
    case Ok(next) => next
    case Err(_) => s
  }

  /** Transactions one after the other, each in its own context. */
  function Run(s: Stock, steps: seq<(Context, Step)>): Stock
    decreases |steps|
  {
    if steps == [] then s else Run(After(s, steps[0].0, steps[0].1), steps[1..])
  }

  const EMPTY := Stock(map[], [])

  // --- the tables in place ---------------------------------------------------------

  class Inventory {
    var levels: map<Key, int>
    var movements: seq<Movement>

    constructor ()
      ensures State() == EMPTY
    {
      levels, movements := map[], [];
    }

    function State(): Stock
      reads this
    {
      Stock(levels, movements)
    }

    /** Creates the level rows that are missing, in location order. */
    method LockLevels(item: nat, first: nat, second: nat)
      modifies this`levels
      ensures levels == WithLevel(WithLevel(old(levels), Key(item, first)), Key(item, second))
    {
      var low, high := if first <= second then first else second, if first <= second then second else first;
      var todo := [low, high];
      for i := 0 to 2
        invariant levels == if i == 0 then old(levels)
          else if i == 1 then WithLevel(old(levels), Key(item, low))
          else WithLevel(WithLevel(old(levels), Key(item, low)), Key(item, high))
      {
        if Key(item, todo[i]) !in levels {
          levels := levels[Key(item, todo[i]) := 0];
        }
        assert Key(item, todo[i]) in levels ==> levels[Key(item, todo[i]) := levels[Key(item, todo[i])]] == levels;
      }
    }

    /** UPDATE ... WHERE: changes the level only if the result is acceptable. */
    method UpdateLevel(k: Key, delta: int, allowNegative: bool) returns (resulting: Option<int>)
      requires k in levels
      modifies this`levels
      ensures resulting == ApplyDelta(old(levels)[k], delta, allowNegative)
      ensures levels == if resulting.Some? then old(levels)[k := resulting.value] else old(levels)
    {
      var value := levels[k] + delta;
      if (0 <= value || 0 < delta || allowNegative) && Abs(value) <= INVENTORY_QUANTITY_LIMIT {
        levels := levels[k := value];
        return Some(value);
      }
      return None;
    }

    method Adjust(c: Context, step: Step) returns (r: Result<int, Error>)
      requires step.Adjust?
      modifies this
      ensures match Execute(old(State()), c, step)
        case Ok(s) => State() == s && r == Ok(LevelAt(levels, Key(step.item, step.location)))
        case Err(error) => State() == old(State()) && r == Err(error)
    {
      var refused := Check(c, step.item, step.location);
      if refused.Some? {
        return Err(refused.value);
      }
      var k := Key(step.item, step.location);
      var saved := levels;
      LockLevels(step.item, step.location, step.location);
      var available := levels[k];
      var applied := UpdateLevel(k, step.delta, c.items[step.item].overselling);
      if applied.None? {
        levels := saved;
        return Err(if INVENTORY_QUANTITY_LIMIT < Abs(available + step.delta) then TooLarge else NotEnough);
      }
      movements := movements + [Movement(k, step.delta, applied.value, step.reason)];
      return Ok(applied.value);
    }

    method SetLevel(c: Context, step: Step) returns (r: Result<int, Error>)
      requires step.SetTo?
      modifies this
      ensures match Execute(old(State()), c, step)
        case Ok(s) => State() == s && r == Ok(step.quantity)
        case Err(error) => State() == old(State()) && r == Err(error)
    {
      var refused := Check(c, step.item, step.location);
      if refused.Some? {
        return Err(refused.value);
      }
      if step.quantity < 0 && !c.items[step.item].overselling {
        return Err(BelowZero);
      }
      var k := Key(step.item, step.location);
      var saved := levels;
      LockLevels(step.item, step.location, step.location);
      var delta := step.quantity - levels[k];
      if delta == 0 {
        return Ok(levels[k]);
      }
      var reason := if HasHistory(movements, k) then step.reason else INITIAL;
      var applied := UpdateLevel(k, delta, true);
      if applied.None? {
        levels := saved;
        return Err(TooLarge);
      }
      movements := movements + [Movement(k, delta, applied.value, reason)];
      return Ok(applied.value);
    }

    method Transfer(c: Context, step: Step) returns (r: Result<(int, int), Error>)
      requires step.Move? && ValidInput(step)
      modifies this
      ensures match Execute(old(State()), c, step)
        case Ok(s) => State() == s && r == Ok((LevelAt(levels, Key(step.item, step.from)), LevelAt(levels, Key(step.item, step.to))))
        case Err(error) => State() == old(State()) && r == Err(error)
    {
      if step.item !in c.items || step.from !in c.locations || step.to !in c.locations {
        return Err(NotFound);
      }
      var refused := Check(c, step.item, step.from);
      if refused.None? {
        refused := Check(c, step.item, step.to);
      }
      if refused.Some? {
        return Err(refused.value);
      }
      var from, to := Key(step.item, step.from), Key(step.item, step.to);
      var saved := levels;
      LockLevels(step.item, step.from, step.to);
      var out := UpdateLevel(from, -step.quantity, false);
      if out.None? {
        levels := saved;
        return Err(NotEnough);
      }
      var into := UpdateLevel(to, step.quantity, true);
      if into.None? {
        levels := saved;
        return Err(TooLarge);
      }
      movements := movements
        + [Movement(from, -step.quantity, out.value, TRANSFER)] + [Movement(to, step.quantity, into.value, TRANSFER)];
      return Ok((out.value, into.value));
    }
  }

  // --- the ledger explains the levels ---------------------------------------------------

  /** The sum of a level's movements. */
  function Total(movements: seq<Movement>, k: Key): int {
    if movements == [] then 0
    else
      var last := movements[|movements| - 1];
      Total(movements[..|movements| - 1], k) + (if last.key == k then last.delta else 0)
  }

  /** Every level is the sum of its movements, and every movement states the sum up to itself. */
  ghost predicate Explained(s: Stock) {
    && (forall k :: LevelAt(s.levels, k) == Total(s.movements, k))
    && (forall i | 0 <= i < |s.movements| ::
        s.movements[i].resulting == Total(s.movements[..i + 1], s.movements[i].key))
  }

  predicate WithinLimit(s: Stock) {
    forall k | k in s.levels :: Abs(s.levels[k]) <= INVENTORY_QUANTITY_LIMIT
  }

  lemma TotalSnoc(movements: seq<Movement>, m: Movement, k: Key)
    ensures Total(movements + [m], k) == Total(movements, k) + (if m.key == k then m.delta else 0)
  {
    assert (movements + [m])[..|movements|] == movements;
  }

  lemma RecordExplained(s: Stock, k: Key, delta: int, resulting: int, reason: Reason)
    requires Explained(s) && resulting == LevelAt(s.levels, k) + delta
    ensures Explained(Record(s, k, delta, resulting, reason))
  {
    var m := Movement(k, delta, resulting, reason);
    var after := Record(s, k, delta, resulting, reason);
    forall k'
      ensures LevelAt(after.levels, k') == Total(after.movements, k')
    {
      TotalSnoc(s.movements, m, k');
    }
    forall i | 0 <= i < |after.movements|
      ensures after.movements[i].resulting == Total(after.movements[..i + 1], after.movements[i].key)
    {
      if i < |s.movements| {
        assert after.movements[..i + 1] == s.movements[..i + 1];
      } else {
        assert after.movements[..i + 1] == after.movements;
      }
    }
  }

  lemma AdjustExplained(s: Stock, c: Context, step: Step)
    requires Explained(s) && step.Adjust? && Execute(s, c, step).Ok?
    ensures Explained(Execute(s, c, step).value)
  {
    var k := Key(step.item, step.location);
    RecordExplained(s, k, step.delta, LevelAt(s.levels, k) + step.delta, step.reason);
  }

  /** Creating a missing level at zero changes no level. */
  lemma LockedExplained(s: Stock, k: Key)
    requires Explained(s)
    ensures Explained(s.(levels := WithLevel(s.levels, k)))
  {
    assert forall k' :: LevelAt(WithLevel(s.levels, k), k') == LevelAt(s.levels, k');
  }

  lemma SetExplained(s: Stock, c: Context, step: Step)
    requires Explained(s) && step.SetTo? && Execute(s, c, step).Ok?
    ensures Explained(Execute(s, c, step).value)
  {
    var k := Key(step.item, step.location);
    hide Total, HasHistory, LevelAt, WithLevel;
    var delta, reason := step.quantity - LevelAt(s.levels, k), if HasHistory(s.movements, k) then step.reason else INITIAL;
    if delta == 0 {
      LockedExplained(s, k);
    } else {
      RecordExplained(s, k, delta, step.quantity, reason);
      assert Execute(s, c, step).value == Record(s, k, delta, step.quantity, reason);
    }
  }

  lemma MoveExplained(s: Stock, c: Context, step: Step)
    requires Explained(s) && step.Move? && ValidInput(step) && Execute(s, c, step).Ok?
    ensures Explained(Execute(s, c, step).value)
  {
    hide Total, HasHistory, Explained;
    var from, to := Key(step.item, step.from), Key(step.item, step.to);
    var out := LevelAt(s.levels, from) - step.quantity;
    RecordExplained(s, from, -step.quantity, out, TRANSFER);
    var mid := Record(s, from, -step.quantity, out, TRANSFER);
    assert LevelAt(mid.levels, to) == LevelAt(s.levels, to);
    RecordExplained(mid, to, step.quantity, LevelAt(s.levels, to) + step.quantity, TRANSFER);
  }

  lemma StepExplained(s: Stock, c: Context, step: Step)
    requires Explained(s) && ValidInput(step) && Execute(s, c, step).Ok?
    ensures Explained(Execute(s, c, step).value)
  {
    match step
    case Adjust(_, _, _, _) => AdjustExplained(s, c, step);
    case SetTo(_, _, _, _) => SetExplained(s, c, step);
    case Move(_, _, _, _) => MoveExplained(s, c, step);
  }

  lemma StepWithinLimit(s: Stock, c: Context, step: Step)
    requires WithinLimit(s)
    ensures WithinLimit(After(s, c, step))
  {
  }

  predicate ValidInputs(steps: seq<(Context, Step)>) {
    forall i | 0 <= i < |steps| :: ValidInput(steps[i].1)
  }

  /** After any sequence of transactions the ledger explains every level, and no level is beyond the limit. */
  lemma {:induction false} RunExplained(s: Stock, steps: seq<(Context, Step)>)
    requires Explained(s) && WithinLimit(s) && ValidInputs(steps)
    ensures Explained(Run(s, steps)) && WithinLimit(Run(s, steps))
    decreases |steps|
  {
    if steps != [] {
      var (c, step) := steps[0];
      if Execute(s, c, step).Ok? {
        StepExplained(s, c, step);
      }
      StepWithinLimit(s, c, step);
      RunExplained(After(s, c, step), steps[1..]);
    }
  }

  lemma LedgerExplainsStock(steps: seq<(Context, Step)>, k: Key, i: nat)
    requires ValidInputs(steps)
    ensures var s := Run(EMPTY, steps);
      && LevelAt(s.levels, k) == Total(s.movements, k)
      && Abs(LevelAt(s.levels, k)) <= INVENTORY_QUANTITY_LIMIT
      && (i < |s.movements| ==> s.movements[i].resulting == Total(s.movements[..i + 1], s.movements[i].key))
  {
    RunExplained(EMPTY, steps);
  }

  // --- what a single transaction may do ---------------------------------------------------

  /** A level goes down to below zero only by overselling, never in a transfer. */
  lemma LowersBelowZeroOnlyByOverselling(s: Stock, c: Context, step: Step, k: Key)
    requires ValidInput(step) && Execute(s, c, step).Ok?
    ensures var after := LevelAt(Execute(s, c, step).value.levels, k);
      after < 0 && after < LevelAt(s.levels, k) ==>
      !step.Move? && step.item == k.item && k.item in c.items && c.items[k.item].overselling
  {
  }

  /** Transactions touch tracked items at active locations only. */
  lemma OnlyActiveLocationsChange(s: Stock, c: Context, step: Step, k: Key)
    requires Execute(s, c, step).Ok?
    requires LevelAt(Execute(s, c, step).value.levels, k) != LevelAt(s.levels, k)
    ensures k.item == step.item && k.item in c.items && c.items[k.item].tracked
    ensures k.location in c.locations && c.locations[k.location]
  {
  }

  /** The stock of an item over a list of locations. */
  function SumOver(levels: map<Key, int>, item: nat, locations: seq<nat>): int {
    if locations == [] then 0
    else
      SumOver(levels, item, locations[..|locations| - 1]) + LevelAt(levels, Key(item, locations[|locations| - 1]))
  }

  lemma {:induction false} SumShifts(s: Stock, c: Context, step: Step, locations: seq<nat>)
    requires step.Move? && ValidInput(step) && Execute(s, c, step).Ok? && NoDuplicates(locations)
    ensures SumOver(Execute(s, c, step).value.levels, step.item, locations) ==
      SumOver(s.levels, step.item, locations)
        + (if step.to in locations then step.quantity else 0) - (if step.from in locations then step.quantity else 0)
    decreases |locations|
  {
    if locations != [] {
      var n := |locations| - 1;
      SumShifts(s, c, step, locations[..n]);
      assert locations == locations[..n] + [locations[n]];
      assert locations[n] !in locations[..n];
    }
  }

  /** A transfer conserves the item's stock: over any locations holding both ends, the sum is unchanged. */
  lemma TransferConserves(s: Stock, c: Context, step: Step, locations: seq<nat>)
    requires step.Move? && ValidInput(step) && Execute(s, c, step).Ok?
    requires NoDuplicates(locations) && step.from in locations && step.to in locations
    ensures SumOver(Execute(s, c, step).value.levels, step.item, locations) == SumOver(s.levels, step.item, locations)
    ensures LevelAt(s.levels, Key(step.item, step.from)) >= step.quantity
  {
    SumShifts(s, c, step, locations);
  }

  /** An item that may never be oversold never has negative stock. */
  lemma {:induction false} WithoutOversellingNeverNegative(s: Stock, steps: seq<(Context, Step)>, k: Key)
    requires ValidInputs(steps) && 0 <= LevelAt(s.levels, k)
    requires forall i | 0 <= i < |steps| :: k.item in steps[i].0.items ==> !steps[i].0.items[k.item].overselling
    ensures 0 <= LevelAt(Run(s, steps).levels, k)
    decreases |steps|
  {
    if steps != [] {
      var (c, step) := steps[0];
      assert ValidInput(steps[0].1);
      if Execute(s, c, step).Ok? {
        LowersBelowZeroOnlyByOverselling(s, c, step, k);
      }
      WithoutOversellingNeverNegative(After(s, c, step), steps[1..], k);
    }
  }
}
