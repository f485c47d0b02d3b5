/**
 * Base32 as authenticator apps read it: RFC 4648, section 6, without padding.
 * The code keeps its pending bits at the low end of a 32-bit word it never masks.
 */
module Base32 {
  import opened Arithmetic
  import opened Common
  import opened Text

  type Byte = x: nat | x < 256

  datatype Base32Error = InvalidCharacter

  const ALPHABET := "ABCDEFGHIJKLMNOPQRSTUVWXYZ234567"

  // --- words --------------------------------------------------------------------------

  const WORD := 0x1_0000_0000

  /** `value << k` on 32 bits; the bits shifted in are zero, so or-ing in k bits adds them. */
  function ShiftIn(value: nat, k: nat, low: nat): nat
    requires low < Pow2(k)
  {
    (value * Pow2(k) + low) % WORD
  }

  /** `(value >>> k) & (2^count - 1)`. */
  function BitsAt(value: nat, k: nat, count: nat): nat {
    (value / Pow2(k)) % Pow2(count)
  }

  lemma {:induction false} Pow2Add(a: nat, b: nat)
    ensures Pow2(a + b) == Pow2(a) * Pow2(b)
    decreases b
  {
    if b != 0 {
      Pow2Add(a, b - 1);
      var x, y := Pow2(a), Pow2(b - 1);
      assert x * (2 * y) == 2 * (x * y);
    }
  }

  lemma Pow2Values()
    ensures Pow2(1) == 2 && Pow2(2) == 4 && Pow2(3) == 8 && Pow2(4) == 16 && Pow2(5) == 32
    ensures Pow2(8) == 256 && Pow2(32) == WORD
  {
    assert Pow2(4) == 16;
    assert Pow2(8) == 256;
    Pow2Add(8, 8);
    Pow2Add(16, 16);
  }

  /** Reducing modulo a multiple first changes nothing. */
  lemma ModTwice(y: nat, d: nat, c: nat)
    requires 0 < d && 0 < c && 0 < d * c
    ensures (y % (d * c)) % d == y % d
  {
    var z := y % (d * c);
    Splits(y, d * c);
    Splits(z, d);
    var a, b := y / (d * c), z / d;
    assert a * (d * c) == (a * c) * d by {
      Associate(a, c, d);
    }
    Distribute(a * c, b, d);
    SplitUnique(y, d, a * c + b, z % d);
  }

  lemma LowKept(value: nat, m: nat, w: nat, c: nat, low: nat)
    requires 0 < m && 0 < c && low < w
    ensures 0 < m * w && 0 < (m * w) * c
    ensures ((value * w + low) % ((m * w) * c)) % (m * w) == (value % m) * w + low
  {
    Positive(m, w);
    Positive(m * w, c);
    var q, n := value / m, value % m;
    Splits(value, m);
    assert value * w + low == q * (m * w) + (n * w + low) by {
      Distribute(q * m, n, w);
      Associate(q, m, w);
    }
    assert n * w + low < m * w by {
      AtLeast(n + 1, m, w);
      Distribute(n, 1, w);
    }
    ModTwice(value * w + low, m * w, c);
    SplitUnique(value * w + low, m * w, q, n * w + low);
  }

  /** What a shift does to the low bits that are still wanted. */
  lemma ShiftKeepsLow(value: nat, b: nat, k: nat, low: nat)
    requires low < Pow2(k) && b + k <= 32
    ensures ShiftIn(value, k, low) % Pow2(b + k) == (value % Pow2(b)) * Pow2(k) + low
  {
    Pow2Values();
    Pow2Add(b, k);
    Pow2Add(b + k, 32 - b - k);
    LowKept(value, Pow2(b), Pow2(k), Pow2(32 - b - k), low);
  }

  lemma HighOf(value: nat, m: nat, w: nat, high: nat, low: nat)
    requires high < m && low < w && 0 < m * w && value % (m * w) == high * w + low
    ensures (value / w) % m == high && value % w == low
  {
    var q := value / (m * w);
    Splits(value, m * w);
    assert value == (q * m + high) * w + low by {
      Associate(q, m, w);
      Distribute(q * m, high, w);
    }
    SplitUnique(value, w, q * m + high, low);
    SplitUnique(q * m + high, m, q, high);
  }

  /** Reading the top bits of those that are wanted, and what is left below them. */
  lemma HighBits(value: nat, k: nat, count: nat, high: nat, low: nat)
    requires high < Pow2(count) && low < Pow2(k)
    requires value % Pow2(count + k) == high * Pow2(k) + low
    ensures BitsAt(value, k, count) == high
    ensures value % Pow2(k) == low
  {
    Pow2Add(count, k);
    HighOf(value, Pow2(count), Pow2(k), high, low);
  }

  // --- bits ---------------------------------------------------------------------------

  /** The number a bit string writes, most significant bit first. */
  function Number(bits: seq<bool>): nat {
    if bits == [] then 0 else 2 * Number(bits[..|bits| - 1]) + if bits[|bits| - 1] then 1 else 0
  }

  function ToBits(x: nat, k: nat): (bits: seq<bool>)
    ensures |bits| == k
  {
    if k == 0 then [] else ToBits(x / 2, k - 1) + [x % 2 == 1]
  }

  lemma {:induction false} NumberBounded(bits: seq<bool>)
    ensures Number(bits) < Pow2(|bits|)
  {
    if bits != [] {
      NumberBounded(bits[..|bits| - 1]);
    }
  }

  lemma {:induction false} ToBitsOfNumber(bits: seq<bool>)
    ensures ToBits(Number(bits), |bits|) == bits
  {
    if bits != [] {
      ToBitsOfNumber(bits[..|bits| - 1]);
    }
  }

  lemma {:induction false} NumberOfToBits(x: nat, k: nat)
    requires x < Pow2(k)
    ensures Number(ToBits(x, k)) == x
  {
    if k != 0 {
      NumberOfToBits(x / 2, k - 1);
      assert ToBits(x, k)[..k - 1] == ToBits(x / 2, k - 1);
    }
  }

  lemma {:induction false} NumberConcat(a: seq<bool>, b: seq<bool>)
    ensures Number(a + b) == Number(a) * Pow2(|b|) + Number(b)
    decreases |b|
  {
    if b == [] {
      assert a + b == a;
    } else {
      var c := b[..|b| - 1];
      assert (a + b)[..|a + b| - 1] == a + c;
      NumberConcat(a, c);
      DoubleProduct(Number(a), Pow2(|c|));
    }
  }

  function ZeroBits(k: nat): seq<bool> {
    seq(k, _ => false)
  }

  lemma {:induction false} NumberOfZeros(k: nat)
    ensures Number(ZeroBits(k)) == 0
  {
    if k != 0 {
      assert ZeroBits(k)[..k - 1] == ZeroBits(k - 1);
      NumberOfZeros(k - 1);
    }
  }

  // --- the standard ---------------------------------------------------------------------

  function Letter(i: nat): char
    requires i < 32
  {
    ALPHABET[i]
  }

  /** The index of a letter, or nothing: `indexOf` on the alphabet. */
  function IndexFrom(c: char, i: nat): (r: Option<nat>)
    requires i <= 32
    ensures r.Some? ==> i <= r.value < 32
    decreases 32 - i
  {
    if i == 32 then None else if Letter(i) == c then Some(i) else IndexFrom(c, i + 1)
  }

  function IndexOf(c: char): (r: Option<nat>)
    ensures r.Some? ==> r.value < 32
  {
    IndexFrom(c, 0)
  }

  predicate AllLetters(text: string) {
    forall i | 0 <= i < |text| :: IndexOf(text[i]).Some?
  }

  lemma LetterAt(i: nat)
    requires i < 32
    ensures Letter(i) == if i < 26 then 'A' + i as char else '2' + (i - 26) as char
  {
  }

  lemma {:induction false} IndexFromFinds(i: nat, j: nat)
    requires i <= j < 32
    ensures IndexFrom(Letter(j), i) == Some(j)
    decreases j - i
  {
    LetterAt(i);
    LetterAt(j);
    if i < j {
      IndexFromFinds(i + 1, j);
    }
  }

  /** No letter appears twice: the first place it is found is its own. */
  lemma IndexOfLetter(i: nat)
    requires i < 32
    ensures IndexOf(Letter(i)) == Some(i)
  {
    IndexFromFinds(0, i);
  }

  lemma {:induction false} FoundIsLetter(c: char, i: nat)
    requires i <= 32 && IndexFrom(c, i).Some?
    ensures Letter(IndexFrom(c, i).value) == c
    decreases 32 - i
  {
    if i < 32 && Letter(i) != c {
      FoundIsLetter(c, i + 1);
    }
  }

  /** Eight bits a byte. */
  function BitsOfBytes(bytes: seq<Byte>): (r: seq<bool>)
    ensures |r| == 8 * |bytes|
  {
    if bytes == [] then [] else BitsOfBytes(bytes[..|bytes| - 1]) + ToBits(bytes[|bytes| - 1], 8)
  }

  /** Five bits a letter. */
  function BitsOfText(text: string): (r: seq<bool>)
    requires AllLetters(text)
    ensures |r| == 5 * |text|
  {
    if text == "" then [] else BitsOfText(text[..|text| - 1]) + ToBits(IndexOf(text[|text| - 1]).value, 5)
  }

  /** The letters spell the bytes' bits, filled up with zeros to a whole letter. */
  ghost predicate IsEncoding(bytes: seq<Byte>, text: string) {
    AllLetters(text) && exists k: nat :: k < 5 && BitsOfText(text) == BitsOfBytes(bytes) + ZeroBits(k)
  }

  /** The bytes are the letters' bits, less an incomplete byte at the end. */
  ghost predicate IsDecoding(text: string, bytes: seq<Byte>) {
    AllLetters(text) && exists rest: seq<bool> :: |rest| < 8 && BitsOfText(text) == BitsOfBytes(bytes) + rest
  }

  lemma LastByte(a: seq<Byte>)
    requires a != []
    ensures var n := |a| - 1;
      BitsOfBytes(a)[..8 * n] == BitsOfBytes(a[..n]) && BitsOfBytes(a)[8 * n..] == ToBits(a[n], 8)
  {
  }

  lemma LastLetterOf(a: string)
    requires a != "" && AllLetters(a)
    ensures var n := |a| - 1;
      AllLetters(a[..n]) && BitsOfText(a)[..5 * n] == BitsOfText(a[..n])
      && BitsOfText(a)[5 * n..] == ToBits(IndexOf(a[n]).value, 5)
  {
  }

  lemma SameLastByte(a: seq<Byte>, b: seq<Byte>)
    requires a != [] && |a| == |b| && BitsOfBytes(a) == BitsOfBytes(b)
    ensures var n := |a| - 1;
      BitsOfBytes(a[..n]) == BitsOfBytes(b[..n]) && a[n] == b[n]
  {
    hide BitsOfBytes, ToBits, Number;
    var n := |a| - 1;
    LastByte(a);
    LastByte(b);
    Pow2Values();
    NumberOfToBits(a[n], 8);
    NumberOfToBits(b[n], 8);
  }

  lemma {:induction false} BytesFromBits(a: seq<Byte>, b: seq<Byte>)
    requires BitsOfBytes(a) == BitsOfBytes(b)
    ensures a == b
  {
    assert |BitsOfBytes(a)| == 8 * |a| && |BitsOfBytes(b)| == 8 * |b|;
    if a != [] {
      var n := |a| - 1;
      SameLastByte(a, b);
      BytesFromBits(a[..n], b[..n]);
      assert a == a[..n] + [a[n]] && b == b[..n] + [b[n]];
    }
  }

  lemma SameLetter(c: char, d: char)
    requires IndexOf(c).Some? && IndexOf(d).Some? && ToBits(IndexOf(c).value, 5) == ToBits(IndexOf(d).value, 5)
    ensures c == d
  {
    Pow2Values();
    NumberOfToBits(IndexOf(c).value, 5);
    NumberOfToBits(IndexOf(d).value, 5);
    FoundIsLetter(c, 0);
    FoundIsLetter(d, 0);
  }

  lemma {:induction false} TextFromBits(a: string, b: string)
    requires AllLetters(a) && AllLetters(b) && BitsOfText(a) == BitsOfText(b)
    ensures a == b
  {
    assert |BitsOfText(a)| == 5 * |a| && |BitsOfText(b)| == 5 * |b|;
    if a != "" {
      var n := |a| - 1;
      LastLetterOf(a);
      LastLetterOf(b);
      TextFromBits(a[..n], b[..n]);
      SameLetter(a[n], b[n]);
      assert a == a[..n] + [a[n]] && b == b[..n] + [b[n]];
    }
  }

  /** There is one encoding. */
  lemma EncodingUnique(bytes: seq<Byte>, a: string, b: string)
    requires IsEncoding(bytes, a) && IsEncoding(bytes, b)
    ensures a == b
  {
    var j: nat :| j < 5 && BitsOfText(a) == BitsOfBytes(bytes) + ZeroBits(j);
    var k: nat :| k < 5 && BitsOfText(b) == BitsOfBytes(bytes) + ZeroBits(k);
    SameFill(8 * |bytes|, |a|, |b|, j, k);
    TextFromBits(a, b);
  }

  lemma SameFill(n: nat, a: nat, b: nat, j: nat, k: nat)
    requires n + j == 5 * a && n + k == 5 * b && j < 5 && k < 5
    ensures j == k
  {
  }

  /** And one decoding. */
  lemma DecodingUnique(text: string, a: seq<Byte>, b: seq<Byte>)
    requires IsDecoding(text, a) && IsDecoding(text, b)
    ensures a == b
  {
    var r: seq<bool> :| |r| < 8 && BitsOfText(text) == BitsOfBytes(a) + r;
    var s: seq<bool> :| |s| < 8 && BitsOfText(text) == BitsOfBytes(b) + s;
    assert |a| == |b|;
    assert BitsOfText(text)[..8 * |a|] == BitsOfBytes(a) && BitsOfText(text)[..8 * |b|] == BitsOfBytes(b);
    BytesFromBits(a, b);
  }

  /** Decoding gives back what was encoded, for every byte sequence. */
  lemma RoundTrip(bytes: seq<Byte>, text: string, decoded: seq<Byte>)
    requires IsEncoding(bytes, text) && IsDecoding(text, decoded)
    ensures decoded == bytes
  {
    var k: nat :| k < 5 && BitsOfText(text) == BitsOfBytes(bytes) + ZeroBits(k);
    assert IsDecoding(text, bytes);
    DecodingUnique(text, bytes, decoded);
  }

  // --- the code ---------------------------------------------------------------------------

  lemma AppendLetter(text: string, chunk: seq<bool>)
    requires AllLetters(text) && |chunk| == 5
    ensures Number(chunk) < 32 && AllLetters(text + [Letter(Number(chunk))])
    ensures BitsOfText(text + [Letter(Number(chunk))]) == BitsOfText(text) + chunk
  {
    Pow2Values();
    NumberBounded(chunk);
    var longer := text + [Letter(Number(chunk))];
    IndexOfLetter(Number(chunk));
    assert longer[..|longer| - 1] == text;
    ToBitsOfNumber(chunk);
  }

  lemma AppendByte(bytes: seq<Byte>, chunk: seq<bool>)
    requires |chunk| == 8
    ensures Number(chunk) < 256
    ensures BitsOfBytes(bytes + [Number(chunk)]) == BitsOfBytes(bytes) + chunk
  {
    Pow2Values();
    NumberBounded(chunk);
    var longer: seq<Byte> := bytes + [Number(chunk)];
    assert longer[..|longer| - 1] == bytes;
    ToBitsOfNumber(chunk);
  }

  /** The low bits of the word are the pending bits; whatever is above them is never read. */
  predicate Pending(value: nat, pending: seq<bool>) {
    value % Pow2(|pending|) == Number(pending)
  }

  lemma ShiftPending(value: nat, pending: seq<bool>, k: nat, low: nat)
    requires Pending(value, pending) && low < Pow2(k) && |pending| + k <= 32
    ensures Pending(ShiftIn(value, k, low), pending + ToBits(low, k))
  {
    ShiftKeepsLow(value, |pending|, k, low);
    NumberConcat(pending, ToBits(low, k));
    NumberOfToBits(low, k);
  }

  lemma TakePending(value: nat, pending: seq<bool>, count: nat)
    requires Pending(value, pending) && count <= |pending|
    ensures BitsAt(value, |pending| - count, count) == Number(pending[..count])
    ensures Pending(value, pending[count..])
  {
    var high, low := pending[..count], pending[count..];
    assert pending == high + low;
    NumberConcat(high, low);
    NumberBounded(high);
    NumberBounded(low);
    HighBits(value, |low|, count, Number(high), Number(low));
  }

  /** What has been written and what is pending spell the bytes read so far. */
  predicate Spells(out: string, pending: seq<bool>, bytes: seq<Byte>) {
    AllLetters(out) && BitsOfText(out) + pending == BitsOfBytes(bytes)
  }

  lemma ReadByte(out: string, value: nat, pending: seq<bool>, bytes: seq<Byte>, byte: Byte)
    requires Spells(out, pending, bytes) && Pending(value, pending) && |pending| < 5
    ensures byte < Pow2(8) && Pending(ShiftIn(value, 8, byte), pending + ToBits(byte, 8))
    ensures Spells(out, pending + ToBits(byte, 8), bytes + [byte])
  {
    Pow2Values();
    hide Pending, ShiftIn, ToBits, Pow2, BitsOfText, BitsOfBytes, Spells;
    ShiftPending(value, pending, 8, byte);
    BitsAppendByte(bytes, byte);
    SpellMore(out, pending, bytes, ToBits(byte, 8), bytes + [byte]);
  }

  lemma BitsAppendByte(bytes: seq<Byte>, byte: Byte)
    ensures BitsOfBytes(bytes + [byte]) == BitsOfBytes(bytes) + ToBits(byte, 8)
  {
    assert (bytes + [byte])[..|bytes|] == bytes;
  }

  lemma BitsAppendLetter(text: string, c: char)
    requires AllLetters(text) && IndexOf(c).Some?
    ensures AllLetters(text + [c])
    ensures BitsOfText(text + [c]) == BitsOfText(text) + ToBits(IndexOf(c).value, 5)
  {
    assert (text + [c])[..|text|] == text;
  }

  lemma SpellMore(out: string, pending: seq<bool>, bytes: seq<Byte>, chunk: seq<bool>, longer: seq<Byte>)
    requires Spells(out, pending, bytes) && BitsOfBytes(longer) == BitsOfBytes(bytes) + chunk
    ensures Spells(out, pending + chunk, longer)
  {
    assert BitsOfText(out) + (pending + chunk) == (BitsOfText(out) + pending) + chunk;
  }

  lemma WriteLetter(out: string, value: nat, pending: seq<bool>, bytes: seq<Byte>)
    requires Spells(out, pending, bytes) && Pending(value, pending) && 5 <= |pending|
    ensures BitsAt(value, |pending| - 5, 5) < 32 && Pending(value, pending[5..])
    ensures Spells(out + [Letter(BitsAt(value, |pending| - 5, 5))], pending[5..], bytes)
  {
    hide Pow2, BitsAt, Number, ToBits;
    TakePending(value, pending, 5);
    AppendLetter(out, pending[..5]);
    assert pending == pending[..5] + pending[5..];
  }

  lemma WriteLast(out: string, value: nat, pending: seq<bool>, bytes: seq<Byte>)
    requires Spells(out, pending, bytes) && Pending(value, pending) && 0 < |pending| < 5
    ensures 0 < Pow2(5 - |pending|)
    ensures IsEncoding(bytes, out + [Letter(ShiftIn(value, 5 - |pending|, 0) % 32)])
  {
    var k := 5 - |pending|;
    hide Number, Pow2, ShiftIn, Spells, Pending, IsEncoding;
    LastChunk(value, pending, k);
    WriteChunk(out, pending, bytes, k);
  }

  lemma WriteChunk(out: string, pending: seq<bool>, bytes: seq<Byte>, k: nat)
    requires Spells(out, pending, bytes) && |pending| + k == 5 && k < 5
    ensures Number(pending + ZeroBits(k)) < 32
    ensures IsEncoding(bytes, out + [Letter(Number(pending + ZeroBits(k)))])
  {
    var zeros := ZeroBits(k);
    var chunk := pending + zeros;
    AppendLetter(out, chunk);
    var longer := out + [Letter(Number(chunk))];
    assert BitsOfText(longer) == BitsOfText(out) + chunk;
    Regroup(BitsOfText(out), pending, zeros);
    FilledUp(bytes, longer, k);
  }

  lemma Regroup(a: seq<bool>, b: seq<bool>, c: seq<bool>)
    ensures a + (b + c) == (a + b) + c
  {
  }

  lemma FilledUp(bytes: seq<Byte>, text: string, k: nat)
    requires AllLetters(text) && k < 5 && BitsOfText(text) == BitsOfBytes(bytes) + ZeroBits(k)
    ensures IsEncoding(bytes, text)
  {
  }

  lemma LastChunk(value: nat, pending: seq<bool>, k: nat)
    requires Pending(value, pending) && |pending| + k == 5
    ensures 0 < Pow2(k) && ShiftIn(value, k, 0) % 32 == Number(pending + ZeroBits(k))
  {
    Pow2Values();
    ShiftKeepsLow(value, |pending|, k, 0);
    NumberConcat(pending, ZeroBits(k));
    NumberOfZeros(k);
  }

  lemma NothingPending(out: string, bytes: seq<Byte>)
    requires Spells(out, [], bytes)
    ensures IsEncoding(bytes, out)
  {
    assert BitsOfText(out) == BitsOfBytes(bytes) + ZeroBits(0);
  }

  lemma NothingRead()
    ensures Pending(0, []) && Spells("", [], []) && Unspells([], [], "")
  {
  }

  method Encode(bytes: seq<Byte>) returns (out: string)
    ensures IsEncoding(bytes, out)
  {
    hide Spells, ShiftIn, BitsAt, ToBits, Number, BitsOfBytes, IsEncoding;
    var bits, value := 0, 0;
    ghost var pending: seq<bool> := [];
    out := "";
    NothingRead();
    for i := 0 to |bytes|
      invariant 0 <= bits == |pending| < 5 && Pending(value, pending)
      invariant Spells(out, pending, bytes[..i])
    {
      ReadByte(out, value, pending, bytes[..i], bytes[i]);
      assert bytes[..i] + [bytes[i]] == bytes[..i + 1];
      pending := pending + ToBits(bytes[i], 8);
      value := ShiftIn(value, 8, bytes[i]);
      bits := bits + 8;
      while bits >= 5
        invariant 0 <= bits == |pending| <= 12 && Pending(value, pending)
        invariant Spells(out, pending, bytes[..i + 1])
      {
        WriteLetter(out, value, pending, bytes[..i + 1]);
        out := out + [Letter(BitsAt(value, bits - 5, 5))];
        bits := bits - 5;
        pending := pending[5..];
      }
    }
    assert bytes[..|bytes|] == bytes;
    if bits > 0 {
      WriteLast(out, value, pending, bytes);
      out := out + [Letter(ShiftIn(value, 5 - bits, 0) % 32)];
    } else {
      NothingPending(out, bytes);
    }
  }

  predicate IsIgnored(c: char) {
    IsSpace(c) || c == '=' || c == '-'
  }

  /**
   * Upper case, as far as the alphabet can tell: besides a-z only a sharp s, a dotless i, a
   * long s and seven ligatures have an upper case made of ASCII letters. Any other character
   * gives something outside the alphabet, as the character itself is.
   */
  function Upper(c: char): string {
    if 'a' <= c <= 'z' then [c - 'a' + 'A']
    else if c == '\U{00df}' then "SS"
    else if c == '\U{0131}' then "I"
    else if c == '\U{017f}' then "S"
    else if c == '\U{fb00}' then "FF"
    else if c == '\U{fb01}' then "FI"
    else if c == '\U{fb02}' then "FL"
    else if c == '\U{fb03}' then "FFI"
    else if c == '\U{fb04}' then "FFL"
    else if c == '\U{fb05}' || c == '\U{fb06}' then "ST"
    else [c]
  }

  /** Spaces, padding and hyphens dropped, letters in upper case. */
  function Cleaned(text: string): string {
    if text == "" then ""
    else (if IsIgnored(text[0]) then "" else Upper(text[0])) + Cleaned(text[1..])
  }

  /** The bytes written and what is pending are the bits of the letters read so far. */
  predicate Unspells(out: seq<Byte>, pending: seq<bool>, text: string) {
    AllLetters(text) && BitsOfBytes(out) + pending == BitsOfText(text)
  }

  lemma ReadLetter(out: seq<Byte>, value: nat, pending: seq<bool>, text: string, c: char)
    requires Unspells(out, pending, text) && Pending(value, pending) && |pending| < 8 && IndexOf(c).Some?
    ensures var index := IndexOf(c).value;
      index < Pow2(5) && Pending(ShiftIn(value, 5, index), pending + ToBits(index, 5))
      && Unspells(out, pending + ToBits(index, 5), text + [c])
  {
    Pow2Values();
    hide Pending, ShiftIn, ToBits, Pow2, IndexOf, BitsOfText, BitsOfBytes;
    var chunk := ToBits(IndexOf(c).value, 5);
    ShiftPending(value, pending, 5, IndexOf(c).value);
    BitsAppendLetter(text, c);
    assert BitsOfBytes(out) + (pending + chunk) == (BitsOfBytes(out) + pending) + chunk;
  }

  lemma WriteByte(out: seq<Byte>, value: nat, pending: seq<bool>, text: string)
    requires Unspells(out, pending, text) && Pending(value, pending) && 8 <= |pending|
    ensures BitsAt(value, |pending| - 8, 8) < 256 && Pending(value, pending[8..])
    ensures Unspells(out + [BitsAt(value, |pending| - 8, 8)], pending[8..], text)
  {
    hide Pow2, BitsAt, Number, ToBits;
    TakePending(value, pending, 8);
    AppendByte(out, pending[..8]);
    assert pending == pending[..8] + pending[8..];
  }

  lemma AllRead(out: seq<Byte>, pending: seq<bool>, text: string)
    requires Unspells(out, pending, text) && |pending| < 8
    ensures AllLetters(text) && IsDecoding(text, out)
  {
  }

  method Decode(text: string) returns (r: Result<seq<Byte>, Base32Error>)
    ensures r.Ok? <==> AllLetters(Cleaned(text))
    ensures r.Ok? ==> IsDecoding(Cleaned(text), r.value)
  {
    hide Unspells, ShiftIn, BitsAt, ToBits, Number, BitsOfBytes, IsDecoding, IndexOf, Cleaned;
    var clean := Cleaned(text);
    NothingRead();
    var bits, value := 0, 0;
    ghost var pending: seq<bool> := [];
    var out: seq<Byte> := [];
    for i := 0 to |clean|
      invariant 0 <= bits == |pending| < 8 && Pending(value, pending)
      invariant Unspells(out, pending, clean[..i])
    {
      var index := IndexOf(clean[i]);
      if index.None? {
        assert !AllLetters(clean);
        return Err(InvalidCharacter);
      }
      ReadLetter(out, value, pending, clean[..i], clean[i]);
      assert clean[..i] + [clean[i]] == clean[..i + 1];
      pending := pending + ToBits(index.value, 5);
      value := ShiftIn(value, 5, index.value);
      bits := bits + 5;
      if bits >= 8 {
        WriteByte(out, value, pending, clean[..i + 1]);
        out := out + [BitsAt(value, bits - 8, 8)];
        bits := bits - 8;
        pending := pending[8..];
      }
    }
    assert clean[..|clean|] == clean;
    AllRead(out, pending, clean);
    r := Ok(out);
  }

  lemma LetterInRange(i: nat)
    requires i < 32
    ensures 'A' <= Letter(i) <= 'Z' || '2' <= Letter(i) <= '7'
  {
    LetterAt(i);
    hide Letter;
  }

  lemma InRangeIsClean(c: char)
    requires 'A' <= c <= 'Z' || '2' <= c <= '7'
    ensures !IsIgnored(c) && Upper(c) == [c]
  {
  }

  lemma LetterIsClean(c: char)
    requires IndexOf(c).Some?
    ensures !IsIgnored(c) && Upper(c) == [c]
  {
    FoundIsLetter(c, 0);
    LetterInRange(IndexOf(c).value);
    hide Letter, IndexFrom, Upper, IsIgnored;
    InRangeIsClean(c);
  }

  lemma {:induction false} EncodingIsClean(text: string)
    requires AllLetters(text)
    ensures Cleaned(text) == text
  {
    hide Upper, IsIgnored, IndexOf;
    if text != "" {
      LetterIsClean(text[0]);
      assert AllLetters(text[1..]);
      EncodingIsClean(text[1..]);
      assert text == [text[0]] + text[1..];
    }
  }

  lemma {:induction false} CleanedConcat(a: string, b: string)
    ensures Cleaned(a + b) == Cleaned(a) + Cleaned(b)
  {
    if a == "" {
      assert a + b == b;
    } else {
      assert (a + b)[1..] == a[1..] + b;
      CleanedConcat(a[1..], b);
    }
  }

  /** Spaces, padding and hyphens may stand anywhere. */
  lemma IgnoredDoNotMatter(a: string, ignored: char, b: string)
    requires IsIgnored(ignored)
    ensures Cleaned(a + [ignored] + b) == Cleaned(a + b)
  {
    assert Cleaned([ignored]) == "";
    hide Cleaned, IsIgnored;
    CleanedConcat(a + [ignored], b);
    CleanedConcat(a, [ignored]);
    CleanedConcat(a, b);
  }

  /** The capitals a small letter stands for: one for a-z, and up to three for the ten others that have any. */
  predicate StandsFor(small: char, letters: string) {
    || ('a' <= small <= 'z' && letters == [small - 'a' + 'A'])
    || (small == '\U{00df}' && letters == "SS") || (small == '\U{0131}' && letters == "I")
    || (small == '\U{017f}' && letters == "S") || (small == '\U{fb00}' && letters == "FF")
    || (small == '\U{fb01}' && letters == "FI") || (small == '\U{fb02}' && letters == "FL")
    || (small == '\U{fb03}' && letters == "FFI") || (small == '\U{fb04}' && letters == "FFL")
    || (small in {'\U{fb05}', '\U{fb06}'} && letters == "ST")
  }

  /** A letter may be written small, and a character whose upper case is several letters stands for those. */
  lemma CaseDoesNotMatter(a: string, small: char, letters: string, b: string)
    requires StandsFor(small, letters)
    ensures Cleaned(a + [small] + b) == Cleaned(a + letters + b)
  {
    UpperIs(small, letters);
    assert [small][1..] == "";
    hide Upper, IsIgnored, StandsFor;
    assert Cleaned([small]) == letters;
    CapitalsStay(letters);
    CleanedConcat(a + [small], b);
    CleanedConcat(a, [small]);
    CleanedConcat(a + letters, b);
    CleanedConcat(a, letters);
  }

  lemma UpperIs(small: char, letters: string)
    requires StandsFor(small, letters)
    ensures Upper(small) == letters && !IsIgnored(small)
    ensures forall i | 0 <= i < |letters| :: 'A' <= letters[i] <= 'Z'
  {
  }

  lemma {:induction false} CapitalsStay(letters: string)
    requires forall i | 0 <= i < |letters| :: 'A' <= letters[i] <= 'Z'
    ensures Cleaned(letters) == letters
  {
    hide Upper, IsIgnored;
    if letters != "" {
      InRangeIsClean(letters[0]);
      CapitalsStay(letters[1..]);
      assert letters == [letters[0]] + letters[1..];
    }
  }

  /** However the text is grouped, padded or cased, encoding's own output decodes to the bytes. */
  lemma PresentationDoesNotMatter(bytes: seq<Byte>, text: string, shown: string, decoded: seq<Byte>)
    requires IsEncoding(bytes, text) && Cleaned(shown) == Cleaned(text) && IsDecoding(Cleaned(shown), decoded)
    ensures decoded == bytes
  {
    EncodingIsClean(text);
    RoundTrip(bytes, text, decoded);
  }
}
