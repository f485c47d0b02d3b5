/** Usage counters: checked, consumed and released inside the transaction that changes the resource. */
module Usage {
  import opened Common
  import opened Entitlements

  datatype Bound = NoLimit | AtMost(limit: int)

  predicate IsGranted(v: EntitlementValue) {
    match v
    case Switch(enabled) => enabled
    case Configuration(enabled, _) => enabled
    case Limit(limit) => 0 < limit
    case Unlimited => true
  }

  function LimitOf(v: EntitlementValue): Bound {
    match v
    case Limit(limit) => AtMost(limit)
    case Unlimited => NoLimit
    case _ => if IsGranted(v) then NoLimit else AtMost(0)
  }

  predicate FitsLimit(bound: Bound, usage: int, amount: int) {
    bound.NoLimit? || usage + amount <= bound.limit
  }

  datatype UsageError = InvalidAmount | LimitReached

  /** The locked counter's value; a missing counter starts from the real count. */
  function LockCounter(counter: Option<int>, actual: int): int {
    if counter.Some? then counter.value else actual
  }

  /** Checks the limit and records consumption; an error leaves no trace (the transaction rolls back). */
  function Consume(counter: Option<int>, actual: int, granted: EntitlementValue, amount: int): Result<int, UsageError> {
    if amount <= 0 then Err(InvalidAmount)
    else
      var usage := LockCounter(counter, actual);
      if FitsLimit(LimitOf(granted), usage, amount) then Ok(usage + amount) else Err(LimitReached)
  }

  /** Records a removal, never below zero; a missing counter stays missing. */
  function Release(counter: Option<int>, amount: int): Option<int> {
    match counter
    case None => None
    case Some(value) => Some(if value < amount then 0 else value - amount)
  }

  /** A counter that exists says exactly what is there. */
  predicate Accurate(counter: Option<int>, actual: int) {
    counter.Some? ==> counter.value == actual
  }

  /** Consuming an accurate counter for a resource about to be added keeps it accurate, within the limit. */
  lemma ConsumeStaysAccurate(counter: Option<int>, actual: int, granted: EntitlementValue, amount: int)
    requires Accurate(counter, actual) && Consume(counter, actual, granted, amount).Ok?
    ensures Accurate(Some(Consume(counter, actual, granted, amount).value), actual + amount)
    ensures LimitOf(granted).AtMost? ==> actual + amount <= LimitOf(granted).limit
  {
  }

  /**
   * What a stored value admits, whatever its kind: a switched-off feature admits nothing,
   * a configuration only one that is stored, a limit exactly what fits in it, and an
   * unlimited feature never refuses.
   */
  lemma ConsumesExactly(
    kind: FeatureType, row: ValueColumns, counter: Option<int>, actual: nat, amount: int)
    requires Accurate(counter, actual)
    ensures var r := Consume(counter, actual, ToValue(kind, row), amount);
      && (r.Err? ==> (r.error == InvalidAmount <==> amount <= 0))
      && (r.Ok? ==> r.value == actual + amount)
      && (r.Ok? <==>
          && 0 < amount
          && row.enabled
          && (kind == CONFIGURATION ==> row.config.JsonObject?)
          && (kind == LIMIT ==> row.unlimited || (row.limit.Some? && actual + amount <= row.limit.value)))
  {
  }

  /** A release lowers the counter by the amount, and stops at zero. */
  lemma ReleasesExactly(counter: Option<int>, amount: int)
    ensures Release(counter, amount).Some? <==> counter.Some?
    ensures counter.Some? && amount <= counter.value ==> Release(counter, amount).value == counter.value - amount
    ensures counter.Some? && counter.value < amount ==> Release(counter, amount).value == 0
  {
  }

  /** A feature is granted exactly when it admits a first unit. */
  lemma GrantedAdmitsOne(v: EntitlementValue)
    ensures IsGranted(v) <==> Consume(None, 0, v, 1).Ok?
  {
  }

  /** Releasing what an accurate counter holds never meets the clamp at zero. */
  lemma ReleaseStaysAccurate(counter: Option<int>, actual: int, amount: int)
    requires Accurate(counter, actual) && 0 <= amount <= actual
    ensures Accurate(Release(counter, amount), actual - amount)
    ensures counter.Some? ==> Release(counter, amount) == Some(counter.value - amount)
  {
  }
}

/** Products and the product_limit gauge: created, archived and restored, never deleted. */
module Products {
  import opened Common
  import opened Entitlements
  import opened Usage

  /** PUBLISHED is the status ACTIVE: visible in the storefront. */
  datatype ProductStatus = DRAFT | PUBLISHED | ARCHIVED

  datatype Catalogue = Catalogue(products: seq<ProductStatus>, counter: Option<int>)

  function LiveProducts(products: seq<ProductStatus>): nat {
    if products == [] then 0
    else LiveProducts(products[..|products| - 1]) + (if products[|products| - 1] == ARCHIVED then 0 else 1)
  }

  /** One transaction; `permitted` stands for the checks that follow the usage check and may roll it back. */
  datatype Step =
    | Create(published: bool, granted: EntitlementValue, permitted: bool)
    | ChangeStatus(product: nat, target: ProductStatus, granted: EntitlementValue, permitted: bool)
    | ReconcileUsage

  function Execute(c: Catalogue, step: Step): (Catalogue, bool) {
    match step
    case Create(published, granted, permitted) =>
      (match Consume(c.counter, LiveProducts(c.products), granted, 1)
       case Err(_) => (c, false)
       case Ok(value) =>
         if permitted then (Catalogue(c.products + [if published then PUBLISHED else DRAFT], Some(value)), true)
         else (c, false))
    case ChangeStatus(id, target, granted, permitted) =>
      if |c.products| <= id then (c, false)
      else if c.products[id] == target then (c, true)
      else if target == PUBLISHED && !permitted then (c, false)
      else if c.products[id] == ARCHIVED then (
        match Consume(c.counter, LiveProducts(c.products), granted, 1)
        case Err(_) => (c, false)
        case Ok(value) => (Catalogue(c.products[id := target], Some(value)), true))
      else if target == ARCHIVED then
        (Catalogue(c.products[id := target], Release(c.counter, 1)), true)
      else (c.(products := c.products[id := target]), true)
    case ReconcileUsage => (c.(counter := Some(LiveProducts(c.products))), true)
  }

  function Run(c: Catalogue, steps: seq<Step>): Catalogue
    decreases |steps|
  {
    if steps == [] then c else Run(Execute(c, steps[0]).0, steps[1..])
  }

  class ProductTable {
    var products: seq<ProductStatus>
    var counter: Option<int>

    function State(): Catalogue
      reads this
    {
      Catalogue(products, counter)
    }

    constructor ()
      ensures State() == Catalogue([], None)
    {
      products, counter := [], None;
    }

    method CreateProduct(published: bool, granted: EntitlementValue, permitted: bool) returns (ok: bool)
      modifies this
      ensures (State(), ok) == Execute(old(State()), Create(published, granted, permitted))
    {
      var consumed := Consume(counter, LiveProducts(products), granted, 1);
      if consumed.Err? || !permitted {
        return false;
      }
      counter := Some(consumed.value);
      products := products + [if published then PUBLISHED else DRAFT];
      return true;
    }

    method SetStatus(id: nat, target: ProductStatus, granted: EntitlementValue, permitted: bool) returns (ok: bool)
      modifies this
      ensures (State(), ok) == Execute(old(State()), ChangeStatus(id, target, granted, permitted))
    {
      if |products| <= id {
        return false;
      }
      var current := products[id];
      if current == target {
        return true;
      }
      if target == PUBLISHED && !permitted {
        return false;
      }
      if current == ARCHIVED {
        var consumed := Consume(counter, LiveProducts(products), granted, 1);
        if consumed.Err? {
          return false;
        }
        counter := Some(consumed.value);
      }
      if target == ARCHIVED {
        counter := Release(counter, 1);
      }
      products := products[id := target];
      return true;
    }
  }

  function Live(p: ProductStatus): nat {
    if p == ARCHIVED then 0 else 1
  }

  lemma {:induction false} LiveProductsUpdate(products: seq<ProductStatus>, id: nat, target: ProductStatus)
    requires id < |products|
    ensures LiveProducts(products[id := target]) == LiveProducts(products) - Live(products[id]) + Live(target)
    ensures Live(products[id]) <= LiveProducts(products)
    decreases |products|
  {
    var n := |products| - 1;
    if id < n {
      assert products[id := target][..n] == products[..n][id := target];
      LiveProductsUpdate(products[..n], id, target);
    } else {
      assert products[id := target][..n] == products[..n];
    }
  }

  /** The gauge counts the products that are not archived. */
  lemma {:induction false} LiveProductsCounts(products: seq<ProductStatus>)
    ensures LiveProducts(products) == |set i | 0 <= i < |products| && products[i] != ARCHIVED|
    decreases |products|
  {
    var live := set i | 0 <= i < |products| && products[i] != ARCHIVED;
    if products == [] {
      assert live == {};
    } else {
      var n := |products| - 1;
      var before := set i | 0 <= i < n && products[..n][i] != ARCHIVED;
      LiveProductsCounts(products[..n]);
      assert live == before + if products[n] == ARCHIVED then {} else {n};
    }
  }

  lemma LiveProductsAppend(products: seq<ProductStatus>, p: ProductStatus)
    ensures LiveProducts(products + [p]) == LiveProducts(products) + Live(p)
  {
    assert (products + [p])[..|products|] == products;
  }

  lemma StepStaysAccurate(c: Catalogue, step: Step)
    requires Accurate(c.counter, LiveProducts(c.products))
    ensures var after := Execute(c, step).0;
      Accurate(after.counter, LiveProducts(after.products))
  {
    hide LiveProducts;
    match step
    case Create(published, _, _) => LiveProductsAppend(c.products, if published then PUBLISHED else DRAFT);
    case ChangeStatus(id, target, _, _) =>
      if id < |c.products| {
        LiveProductsUpdate(c.products, id, target);
      }
    case ReconcileUsage =>
  }

  /** The granted value leaves room for one more. */
  predicate HasRoom(granted: EntitlementValue, live: nat) {
    match granted
    case Unlimited => true
    case Limit(limit) => live < limit
    case Switch(enabled) => enabled
    case Configuration(enabled, _) => enabled
  }

  /** A creation succeeds exactly when it is permitted and there is room, and adds one live product. */
  lemma CreatesExactly(c: Catalogue, published: bool, granted: EntitlementValue, permitted: bool)
    requires Accurate(c.counter, LiveProducts(c.products))
    ensures var (after, ok) := Execute(c, Create(published, granted, permitted));
      && (ok <==> permitted && HasRoom(granted, LiveProducts(c.products)))
      && (!ok ==> after == c)
      && (ok ==>
          && |after.products| == |c.products| + 1
          && (forall i | 0 <= i < |c.products| :: after.products[i] == c.products[i])
          && after.products[|c.products|] == (if published then PUBLISHED else DRAFT)
          && after.counter == Some(LiveProducts(c.products) + 1))
  {
  }

  /**
   * A status change succeeds exactly when the product is there, publishing it is permitted
   * and, if it comes back from the archive, there is room; it changes that product alone.
   */
  lemma ChangesStatusExactly(
    c: Catalogue, id: nat, target: ProductStatus, granted: EntitlementValue, permitted: bool)
    requires Accurate(c.counter, LiveProducts(c.products))
    ensures var (after, ok) := Execute(c, ChangeStatus(id, target, granted, permitted));
      && (ok <==>
          && id < |c.products|
          && (c.products[id] != target ==>
              && (target == PUBLISHED ==> permitted)
              && (c.products[id] == ARCHIVED ==> HasRoom(granted, LiveProducts(c.products)))))
      && (!ok ==> after == c)
      && (ok ==>
          && |after.products| == |c.products|
          && after.products[id] == target
          && (forall i | 0 <= i < |c.products| && i != id :: after.products[i] == c.products[i])
          && after.counter ==
            if c.products[id] == ARCHIVED && target != ARCHIVED then Some(LiveProducts(c.products) + 1)
            else if c.products[id] != ARCHIVED && target == ARCHIVED && c.counter.Some? then Some(c.counter.value - 1)
            else c.counter)
  {
    if id < |c.products| {
      LiveProductsUpdate(c.products, id, target);
    }
    hide LiveProducts;
  }

  /** Reconciling sets the counter to the real count and touches no product. */
  lemma ReconcilesExactly(c: Catalogue)
    ensures Execute(c, ReconcileUsage) == (Catalogue(c.products, Some(LiveProducts(c.products))), true)
  {
  }

  /** In every serial run the product_limit counter, once it exists, is the number of live products. */
  lemma {:induction false} RunStaysAccurate(c: Catalogue, steps: seq<Step>)
    requires Accurate(c.counter, LiveProducts(c.products))
    ensures Accurate(Run(c, steps).counter, LiveProducts(Run(c, steps).products))
    decreases |steps|
  {
    if steps != [] {
      StepStaysAccurate(c, steps[0]);
      RunStaysAccurate(Execute(c, steps[0]).0, steps[1..]);
    }
  }

  /** So archiving always has something to release: the clamp at zero never fires. */
  lemma ClampNeverFires(steps: seq<Step>, id: nat)
    requires var c := Run(Catalogue([], None), steps);
      id < |c.products| && c.products[id] != ARCHIVED && c.counter.Some?
    ensures Run(Catalogue([], None), steps).counter.value >= 1
  {
    RunStaysAccurate(Catalogue([], None), steps);
    var c := Run(Catalogue([], None), steps);
    LiveProductsUpdate(c.products, id, ARCHIVED);
  }

  /** How many of n creations in a row succeed. */
  function Admitted(c: Catalogue, n: nat, granted: EntitlementValue): nat
    decreases n
  {
    if n == 0 then 0
    else
      var (next, ok) := Execute(c, Create(false, granted, true));
      (if ok then 1 else 0) + Admitted(next, n - 1, granted)
  }

  function Min(a: int, b: int): int {
    if a < b then a else b
  }

  lemma AdmitsNone(c: Catalogue, granted: EntitlementValue)
    ensures Admitted(c, 0, granted) == 0
  {
  }

  /** The first of n requests: it is admitted exactly below the limit, and then counts. */
  lemma AdmitsFirst(c: Catalogue, n: nat, limit: int) returns (next: Catalogue)
    requires n != 0 && Accurate(c.counter, LiveProducts(c.products))
    ensures Accurate(next.counter, LiveProducts(next.products))
    ensures var one := if LiveProducts(c.products) < limit then 1 else 0;
      && LiveProducts(next.products) == LiveProducts(c.products) + one
      && Admitted(c, n, Limit(limit)) == one + Admitted(next, n - 1, Limit(limit))
  {
    next := Execute(c, Create(false, Limit(limit), true)).0;
    LiveProductsAppend(c.products, DRAFT);
    hide LiveProducts;
  }

  /** N requests against a limit L succeed exactly min(N, L - usage) times. */
  lemma {:induction false} AdmitsExactly(c: Catalogue, n: nat, limit: int)
    requires Accurate(c.counter, LiveProducts(c.products)) && LiveProducts(c.products) <= limit
    ensures Admitted(c, n, Limit(limit)) == Min(n, limit - LiveProducts(c.products))
    decreases n
  {
    hide Execute, LiveProducts, Accurate, Admitted;
    if n == 0 {
      AdmitsNone(c, Limit(limit));
    } else {
      var next := AdmitsFirst(c, n, limit);
      AdmitsExactly(next, n - 1, limit);
    }
  }
}
