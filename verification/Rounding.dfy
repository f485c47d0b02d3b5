/** Integer division with an explicit rounding mode, over JavaScript's truncating operators. */
module Rounding {
  import opened Arithmetic
  import opened Common

  datatype Mode = HalfEven | HalfUp | HalfDown | Floor | Ceil | Trunc

  datatype RoundingError = DivisionByZero

  /** BigInt `/`: truncates towards zero. */
  function TruncQuotient(n: int, d: nat): int
    requires d != 0
  {
    if n < 0 then -(-n / d) else n / d
  }

  /** BigInt `%`: has the sign of the dividend. */
  function TruncRemainder(n: int, d: nat): int
    requires d != 0
  {
    if n < 0 then -(-n % d) else n % d
  }

  /** The result, from the truncated quotient and its remainder. */
  function RoundParts(n: int, d: nat, quotient: int, remainder: int, mode: Mode): int {
    if remainder == 0 then quotient
    else
      var negative := n < 0;
      var floor := if negative then quotient - 1 else quotient;
      var ceil := floor + 1;
      var twice := (if negative then -remainder else remainder) * 2;
      var aboveFloor := if negative then d * 2 - twice else twice;
      var nearest := if aboveFloor > d then ceil else floor;
      match mode
      case Floor => floor
      case Ceil => ceil
      case Trunc => quotient
      case HalfUp => if aboveFloor == d then (if negative then floor else ceil) else nearest
      case HalfDown => if aboveFloor == d then (if negative then ceil else floor) else nearest
      case HalfEven => if aboveFloor == d then (if floor % 2 == 0 then floor else ceil) else nearest
  }

  function DivideRounded(n: int, d: int, mode: Mode): Result<int, RoundingError>
    decreases if d < 0 then 1 else 0
  {
    if d == 0 then Err(DivisionByZero)
    else if d < 0 then DivideRounded(-n, -d, mode)
    else Ok(RoundParts(n, d, TruncQuotient(n, d), TruncRemainder(n, d), mode))
  }

  /** `q` is a nearest integer to n/d, and on a tie the given side is taken. */
  predicate Nearest(n: int, d: nat, q: int, onTie: bool) {
    2 * Abs(n - q * d) <= d && (2 * Abs(n - q * d) == d ==> onTie)
  }

  /** What each mode promises about the exact quotient n/d, for a positive divisor. */
  predicate Rounds(n: int, d: nat, mode: Mode, q: int) {
    match mode
    case Floor => q * d <= n < q * d + d
    case Ceil => q * d - d < n <= q * d
    case Trunc => Abs(q * d) <= Abs(n) < Abs(q * d) + d && (0 < q ==> 0 < n) && (q < 0 ==> n < 0)
    case HalfUp => Nearest(n, d, q, Abs(n) < Abs(q * d))
    case HalfDown => Nearest(n, d, q, Abs(q * d) < Abs(n))
    case HalfEven => Nearest(n, d, q, q % 2 == 0)
  }

  /** The same for any divisor: n/d is (-n)/(-d). */
  predicate IsRounded(n: int, d: int, mode: Mode, q: int) {
    if d < 0 then Rounds(-n, -d, mode, q) else Rounds(n, d, mode, q)
  }

  lemma TruncSplits(n: int, d: nat)
    requires d != 0
    ensures n == TruncQuotient(n, d) * d + TruncRemainder(n, d)
    ensures Abs(TruncRemainder(n, d)) < d
    ensures n < 0 ==> TruncRemainder(n, d) <= 0 && TruncQuotient(n, d) <= 0
    ensures 0 <= n ==> 0 <= TruncRemainder(n, d) && 0 <= TruncQuotient(n, d)
  {
    Splits(Abs(n), d);
    NegatedProduct(Abs(n) / d, d);
  }

  lemma SignOfMultiple(q: int, d: nat)
    requires d != 0
    ensures 0 <= q ==> 0 <= q * d
    ensures q <= 0 ==> q * d <= 0
  {
  }

  lemma PartsRound(n: int, d: nat, q: int, remainder: int, mode: Mode)
    requires d != 0 && n == q * d + remainder && Abs(remainder) < d
    requires n < 0 ==> remainder <= 0 && q <= 0
    requires 0 <= n ==> 0 <= remainder && 0 <= q
    ensures Rounds(n, d, mode, RoundParts(n, d, q, remainder, mode))
  {
    NextMultiple(q, d);
    SignOfMultiple(q, d);
    if n < 0 {
      SignOfMultiple(q - 1, d);
    } else {
      SignOfMultiple(q + 1, d);
    }
  }

  lemma PositiveDivisorRounds(n: int, d: nat, mode: Mode)
    requires d != 0
    ensures DivideRounded(n, d, mode).Ok?
    ensures Rounds(n, d, mode, DivideRounded(n, d, mode).value)
  {
    TruncSplits(n, d);
    var q, remainder := TruncQuotient(n, d), TruncRemainder(n, d);
    PartsRound(n, d, q, remainder, mode);
  }

  /** Division fails only by zero, and otherwise gives what its mode promises. */
  lemma DivisionRounds(n: int, d: int, mode: Mode)
    ensures DivideRounded(n, d, mode).Ok? <==> d != 0
    ensures d != 0 ==> IsRounded(n, d, mode, DivideRounded(n, d, mode).value)
  {
    if d != 0 {
      if d < 0 {
        PositiveDivisorRounds(-n, -d, mode);
      } else {
        PositiveDivisorRounds(n, d, mode);
      }
    }
  }

  lemma RoundsOrdered(n: int, d: nat, mode: Mode, p: int, q: int)
    requires d != 0 && Rounds(n, d, mode, p) && Rounds(n, d, mode, q)
    ensures q <= p
  {
    if p < q {
      MultiplesApart(p, q, d);
      SignOfMultiple(p, d);
      SignOfMultiple(q, d);
    }
  }

  /** The promise leaves no choice: each mode names exactly one integer. */
  lemma RoundingUnique(n: int, d: int, mode: Mode, q: int)
    requires d != 0
    ensures IsRounded(n, d, mode, q) <==> DivideRounded(n, d, mode) == Ok(q)
  {
    DivisionRounds(n, d, mode);
    var r := DivideRounded(n, d, mode).value;
    var m, e := if d < 0 then -n else n, Abs(d);
    if IsRounded(n, d, mode, q) {
      RoundsOrdered(m, e, mode, q, r);
      RoundsOrdered(m, e, mode, r, q);
    }
  }

  function Mirrored(mode: Mode): Mode {
    match mode
    case Floor => Ceil
    case Ceil => Floor
    case _ => mode
  }

  lemma MirrorRounds(n: int, d: nat, mode: Mode, q: int)
    requires Rounds(n, d, mode, q)
    ensures Rounds(-n, d, Mirrored(mode), -q)
  {
    NegatedProduct(q, d);
  }

  /** Negating the numerator negates the result, with floor and ceiling exchanged. */
  lemma DivisionMirrors(n: int, d: int, mode: Mode)
    requires d != 0
    ensures DivideRounded(n, d, mode).Ok?
    ensures DivideRounded(-n, d, Mirrored(mode)) == Ok(-DivideRounded(n, d, mode).value)
  {
    DivisionRounds(n, d, mode);
    var q := DivideRounded(n, d, mode).value;
    MirrorRounds(if d < 0 then -n else n, Abs(d), mode, q);
    RoundingUnique(-n, d, Mirrored(mode), -q);
  }
}
