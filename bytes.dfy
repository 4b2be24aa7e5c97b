/** Python's `struct` big-endian formats (`>H`, `>I`, `>i`, `>q`), reads from a
    byte stream, `bytes.hex()` and `str(int)`, each with its inverse. */
module Bytes {
  import opened Common

  function Pow256(w: nat): (p: nat)
    ensures p >= 1
  {
    if w == 0 then 1 else 256 * Pow256(w - 1)
  }

  /** Half the range of a `w`-byte field: the bound of its signed values. */
  function Half(w: nat): int { Pow256(w) / 2 }

  lemma HalfDouble(w: nat)
    requires w >= 1
    ensures Pow256(w) == 2 * Half(w) && Half(w) >= 1
  {
    var p := Pow256(w - 1);
    assert Pow256(w) == 2 * (128 * p);
  }

  const TWO16: int := 0x1_0000
  const TWO31: int := 0x8000_0000
  const TWO32: int := 0x1_0000_0000
  const TWO63: int := 0x8000_0000_0000_0000
  const TWO64: int := 0x1_0000_0000_0000_0000

  lemma Pow256Values()
    ensures Pow256(2) == TWO16 && Pow256(4) == TWO32 && Pow256(8) == TWO64
  {
    assert Pow256(1) == 256;
    assert Pow256(2) == 0x1_0000;
    assert Pow256(3) == 0x100_0000;
    assert Pow256(4) == 0x1_0000_0000;
    assert Pow256(5) == 0x100_0000_0000;
    assert Pow256(6) == 0x1_0000_0000_0000;
    assert Pow256(7) == 0x100_0000_0000_0000;
  }

  /** `n` written big-endian in exactly `w` bytes. */
  function ToBE(n: nat, w: nat): (s: seq<Byte>)
    requires n < Pow256(w)
    ensures |s| == w
  {
    if w == 0 then [] else ToBE(n / 256, w - 1) + [n % 256]
  }

  /** The unsigned big-endian value of `s`. */
  function FromBE(s: seq<Byte>): (n: nat)
    ensures n < Pow256(|s|)
  {
    if s == [] then 0 else FromBE(s[..|s| - 1]) * 256 + s[|s| - 1]
  }

  lemma {:induction false} FromToBE(n: nat, w: nat)
    requires n < Pow256(w)
    ensures FromBE(ToBE(n, w)) == n
  {
    if w > 0 {
      var s := ToBE(n, w);
      assert s[..|s| - 1] == ToBE(n / 256, w - 1);
      FromToBE(n / 256, w - 1);
    }
  }

  lemma {:induction false} ToFromBE(s: seq<Byte>)
    ensures ToBE(FromBE(s), |s|) == s
  {
    if s != [] {
      var p := s[..|s| - 1];
      var n := FromBE(s);
      assert n / 256 == FromBE(p) && n % 256 == s[|s| - 1];
      ToFromBE(p);
      assert s == p + [s[|s| - 1]];
    }
  }

  /** Two's-complement big-endian in `w` bytes, as `>i` (w = 4) and `>q` (w = 8). */
  function SignedToBE(n: int, w: nat): (s: seq<Byte>)
    requires w >= 1 && -Half(w) <= n < Half(w)
    ensures |s| == w
  {
    HalfDouble(w); ToBE(if n < 0 then n + Pow256(w) else n, w)
  }

  function SignedFromBE(s: seq<Byte>): (n: int)
    ensures s != [] ==> -Half(|s|) <= n < Half(|s|)
  {
    var v := FromBE(s);
    if s != [] then HalfDouble(|s|); if v >= Half(|s|) then v - Pow256(|s|) else v
    else v
  }

  lemma SignedRoundTrip(n: int, w: nat)
    requires w >= 1 && -Half(w) <= n < Half(w)
    ensures SignedFromBE(SignedToBE(n, w)) == n
  {
    HalfDouble(w);
    FromToBE(if n < 0 then n + Pow256(w) else n, w);
  }

  // ---- struct.pack: a write that raises struct.error outside the range ----

  predicate InU16(n: int) { 0 <= n < TWO16 }
  predicate InU32(n: int) { 0 <= n < TWO32 }
  predicate InI32(n: int) { -TWO31 <= n < TWO31 }
  predicate InI64(n: int) { -TWO63 <= n < TWO63 }

  function EncU16(n: int): (s: seq<Byte>)
    requires InU16(n)
    ensures |s| == 2
  {
    Pow256Values(); ToBE(n, 2)
  }

  function EncU32(n: int): (s: seq<Byte>)
    requires InU32(n)
    ensures |s| == 4
  {
    Pow256Values(); ToBE(n, 4)
  }

  function EncI32(n: int): (s: seq<Byte>)
    requires InI32(n)
    ensures |s| == 4
  {
    Pow256Values(); SignedToBE(n, 4)
  }

  function EncI64(n: int): (s: seq<Byte>)
    requires InI64(n)
    ensures |s| == 8
  {
    Pow256Values(); SignedToBE(n, 8)
  }

  /** `w.write(struct.pack(">H", n))` */
  function PackU16(n: int): (w: Written)
    ensures w.Complete() <==> InU16(n)
  {
    if InU16(n) then Emit(EncU16(n)) else Raise(PackRange)
  }

  /** `w.write(struct.pack(">I", n))` */
  function PackU32(n: int): (w: Written)
    ensures w.Complete() <==> InU32(n)
  {
    if InU32(n) then Emit(EncU32(n)) else Raise(PackRange)
  }

  /** `w.write(struct.pack(">i", n))` */
  function PackI32(n: int): (w: Written)
    ensures w.Complete() <==> InI32(n)
  {
    if InI32(n) then Emit(EncI32(n)) else Raise(PackRange)
  }

  /** `w.write(struct.pack(">q", n))` */
  function PackI64(n: int): (w: Written)
    ensures w.Complete() <==> InI64(n)
  {
    if InI64(n) then Emit(EncI64(n)) else Raise(PackRange)
  }

  // ---- reading a stream ----

  /** `r.read(n)` on a stream whose unread bytes are `r`: at most `n` bytes,
      fewer at the end of the stream; the second component is what is left. */
  function Read(r: seq<Byte>, n: nat): (p: (seq<Byte>, seq<Byte>))
    ensures p.0 + p.1 == r
    ensures |p.0| == if n <= |r| then n else |r|
  {
    if n <= |r| then (r[..n], r[n..]) else (r, [])
  }

  /** `struct.unpack(fmt, r.read(w))` for an unsigned format of width `w`. */
  function UnpackUnsigned(r: seq<Byte>, w: nat): (res: Result<(nat, seq<Byte>)>)
    ensures res.Ok? <==> w <= |r|
    ensures res.Ok? ==> res.value.0 == FromBE(r[..w]) && res.value.1 == r[w..]
  {
    var (got, rest) := Read(r, w);
    if |got| < w then Err(ShortRead) else Ok((FromBE(got), rest))
  }

  function UnpackSigned(r: seq<Byte>, w: nat): (res: Result<(int, seq<Byte>)>)
    requires w >= 1
    ensures res.Ok? <==> w <= |r|
    ensures res.Ok? ==> res.value.0 == SignedFromBE(r[..w]) && res.value.1 == r[w..]
  {
    var (got, rest) := Read(r, w);
    if |got| < w then Err(ShortRead) else Ok((SignedFromBE(got), rest))
  }

  function UnpackU16(r: seq<Byte>): Result<(nat, seq<Byte>)> { UnpackUnsigned(r, 2) }
  function UnpackU32(r: seq<Byte>): Result<(nat, seq<Byte>)> { UnpackUnsigned(r, 4) }
  function UnpackI32(r: seq<Byte>): Result<(int, seq<Byte>)> { UnpackSigned(r, 4) }
  function UnpackI64(r: seq<Byte>): Result<(int, seq<Byte>)> { UnpackSigned(r, 8) }

  lemma U16RoundTrip(n: int, rest: seq<Byte>)
    requires InU16(n)
    ensures UnpackU16(EncU16(n) + rest) == Ok((n, rest))
  {
    Pow256Values();
    var s := EncU16(n);
    assert (s + rest)[..2] == s && (s + rest)[2..] == rest;
    FromToBE(n, 2);
  }

  lemma U32RoundTrip(n: int, rest: seq<Byte>)
    requires InU32(n)
    ensures UnpackU32(EncU32(n) + rest) == Ok((n, rest))
  {
    Pow256Values();
    var s := EncU32(n);
    assert (s + rest)[..4] == s && (s + rest)[4..] == rest;
    FromToBE(n, 4);
  }

  lemma I32RoundTrip(n: int, rest: seq<Byte>)
    requires InI32(n)
    ensures UnpackI32(EncI32(n) + rest) == Ok((n, rest))
  {
    Pow256Values();
    var s := EncI32(n);
    assert (s + rest)[..4] == s && (s + rest)[4..] == rest;
    SignedRoundTrip(n, 4);
  }

  lemma I64RoundTrip(n: int, rest: seq<Byte>)
    requires InI64(n)
    ensures UnpackI64(EncI64(n) + rest) == Ok((n, rest))
  {
    Pow256Values();
    var s := EncI64(n);
    assert (s + rest)[..8] == s && (s + rest)[8..] == rest;
    SignedRoundTrip(n, 8);
  }

  // ---- bytes.hex() ----

  function HexDigit(d: nat): (c: char)
    requires d < 16
  {
    if d < 10 then ('0' as int + d) as char else ('a' as int + d - 10) as char
  }

  function HexValue(c: char): Option<nat>
  {
    if '0' <= c <= '9' then Some(c as int - '0' as int)
    else if 'a' <= c <= 'f' then Some(c as int - 'a' as int + 10)
    else None
  }

  lemma HexDigitValue(d: nat)
    requires d < 16
    ensures HexValue(HexDigit(d)) == Some(d)
  {
  }

  /** Lower-case hex, two characters per byte, most significant nibble first. */
  function Hex(s: seq<Byte>): (h: string)
    ensures |h| == 2 * |s|
  {
    if s == [] then "" else [HexDigit(s[0] / 16), HexDigit(s[0] % 16)] + Hex(s[1..])
  }

  lemma {:induction false} HexAt(s: seq<Byte>, i: nat)
    requires i < |s|
    ensures Hex(s)[2 * i] == HexDigit(s[i] / 16) && Hex(s)[2 * i + 1] == HexDigit(s[i] % 16)
  {
    if i > 0 {
      HexAt(s[1..], i - 1);
    }
  }

  /** The inverse of `Hex`: `bytes.fromhex` restricted to lower-case pairs. */
  function UnHex(h: string): Option<seq<Byte>>
    decreases |h|
  {
    if h == [] then Some([])
    else if |h| == 1 then None
    else match (HexValue(h[0]), HexValue(h[1]), UnHex(h[2..]))
      case (Some(hi), Some(lo), Some(rest)) =>
        if hi < 16 && lo < 16 then Some([hi * 16 + lo] + rest) else None
      case _ => None
  }

  lemma {:induction false} UnHexHex(s: seq<Byte>)
    ensures UnHex(Hex(s)) == Some(s)
  {
    if s != [] {
      var h := Hex(s);
      HexDigitValue(s[0] / 16);
      HexDigitValue(s[0] % 16);
      assert h[2..] == Hex(s[1..]);
      UnHexHex(s[1..]);
      assert [s[0]] + s[1..] == s;
    }
  }

  // ---- str(int) ----

  function DigitChar(d: nat): char
    requires d < 10
  {
    ('0' as int + d) as char
  }

  /** Decimal digits of `n`, without leading zeros ("0" for zero). */
  function Digits(n: nat): (s: string)
    ensures |s| >= 1
    ensures forall i :: 0 <= i < |s| ==> '0' <= s[i] <= '9'
  {
    if n < 10 then [DigitChar(n)] else Digits(n / 10) + [DigitChar(n % 10)]
  }

  /** `str(n)` for a Python int. */
  function Decimal(n: int): (s: string)
    ensures |s| >= 1 && s[|s| - 1] != ':'
  {
    if n < 0 then "-" + Digits(-n) else Digits(n)
  }

  function DigitsValue(s: string): int
  {
    if s == [] then 0 else DigitsValue(s[..|s| - 1]) * 10 + (s[|s| - 1] as int - '0' as int)
  }

  /** `int(s)` on what `str` produces. */
  function ParseDecimal(s: string): int
  {
    if s != [] && s[0] == '-' then -DigitsValue(s[1..]) else DigitsValue(s)
  }

  lemma {:induction false} DigitsValueDigits(n: nat)
    ensures DigitsValue(Digits(n)) == n
  {
    if n >= 10 {
      var s := Digits(n);
      assert s[..|s| - 1] == Digits(n / 10);
      DigitsValueDigits(n / 10);
    }
  }

  lemma DecimalRoundTrip(n: int)
    ensures ParseDecimal(Decimal(n)) == n
  {
    if n < 0 {
      var s := Decimal(n);
      assert s[1..] == Digits(-n);
      DigitsValueDigits(-n);
    } else {
      DigitsValueDigits(n);
    }
  }
}
