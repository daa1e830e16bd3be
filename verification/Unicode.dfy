/** Bytes, UTF-8 (section 3 of RFC 3629) and surrogate pairs (section 2.2 of RFC 2781). */
module Unicode {
  import opened Wrappers

  type byte = b: int | 0 <= b < 256
  type Bytes = seq<byte>

  predicate IsSurrogate(u: int) { 0xD800 <= u < 0xE000 }

  predicate IsScalar(cp: int) { 0 <= cp <= 0x10FFFF && !IsSurrogate(cp) }

  type Scalar = cp: int | 0 <= cp <= 0x10FFFF && !(0xD800 <= cp < 0xE000)

  /** The tail byte that carries six bits of a scalar. */
  function Tail(n: nat): byte { 0x80 + n % 0x40 }

  function Lead(mark: nat, n: nat): byte
    requires mark + n < 256
  {
    mark + n
  }

  function Utf8(cp: Scalar): (bytes: Bytes)
    ensures |bytes| > 0
  {
    if cp < 0x80 then [Lead(0, cp)]
    else if cp < 0x800 then [Lead(0xC0, cp / 0x40), Tail(cp)]
    else if cp < 0x10000 then [Lead(0xE0, cp / 0x1000), Tail(cp / 0x40), Tail(cp)]
    else [Lead(0xF0, cp / 0x4_0000), Tail(cp / 0x1000), Tail(cp / 0x40), Tail(cp)]
  }

  function Utf8All(cps: seq<Scalar>): Bytes {
    if cps == [] then [] else Utf8(cps[0]) + Utf8All(cps[1..])
  }

  predicate IsTail(b: byte) { 0x80 <= b < 0xC0 }

  /** A number written with the lead bits `b - mark` and then six bits for each tail byte. */
  function Assemble(mark: nat, b: byte, tails: Bytes): int {
    if tails == [] then b as int - mark
    else 0x40 * Assemble(mark, b, tails[..|tails| - 1]) + (tails[|tails| - 1] as int - 0x80)
  }

  function Accept(cp: int, least: int, n: nat): Option<(Scalar, nat)> {
    if cp >= least && IsScalar(cp) then Some((cp, n)) else None
  }

  /** The scalar at the head of `s` and its length; None if the bytes are not valid UTF-8
      (overlong forms and surrogates included). */
  function DecodeOne(s: Bytes): (r: Option<(Scalar, nat)>)
    ensures r.Some? ==> 0 < r.value.1 <= |s|
  {
    if s == [] then None
    else if s[0] < 0x80 then Accept(s[0], 0, 1)
    else if 0xC0 <= s[0] < 0xE0 && |s| >= 2 && IsTail(s[1]) then
      Accept(Assemble(0xC0, s[0], s[1..2]), 0x80, 2)
    else if 0xE0 <= s[0] < 0xF0 && |s| >= 3 && IsTail(s[1]) && IsTail(s[2]) then
      Accept(Assemble(0xE0, s[0], s[1..3]), 0x800, 3)
    else if 0xF0 <= s[0] < 0xF8 && |s| >= 4 && IsTail(s[1]) && IsTail(s[2]) && IsTail(s[3]) then
      Accept(Assemble(0xF0, s[0], s[1..4]), 0x10000, 4)
    else None
  }

  function DecodeUtf8(s: Bytes): Option<seq<Scalar>> {
    if s == [] then Some([])
    else
      match DecodeOne(s)
      case None => None
      case Some((cp, n)) =>
        var rest := DecodeUtf8(s[n..]);
        if rest.None? then None else Some([cp] + rest.value)
  }

  lemma AssembleLast(mark: nat, b: byte, tails: Bytes, n: nat)
    requires Assemble(mark, b, tails) == n / 0x40
    ensures Assemble(mark, b, tails + [Tail(n)]) == n
  {
    assert (tails + [Tail(n)])[..|tails|] == tails;
  }

  lemma DecodeOneUtf8(cp: Scalar, rest: Bytes)
    ensures DecodeOne(Utf8(cp) + rest) == Some((cp, |Utf8(cp)|))
  {
    var s := Utf8(cp) + rest;
    if cp < 0x80 {
    } else if cp < 0x800 {
      AssembleLast(0xC0, s[0], [], cp);
      assert s[1..2] == [] + [Tail(cp)];
    } else if cp < 0x10000 {
      AssembleLast(0xE0, s[0], [], cp / 0x40);
      AssembleLast(0xE0, s[0], [] + [Tail(cp / 0x40)], cp);
      assert s[1..3] == [] + [Tail(cp / 0x40)] + [Tail(cp)];
    } else {
      AssembleLast(0xF0, s[0], [], cp / 0x1000);
      AssembleLast(0xF0, s[0], [] + [Tail(cp / 0x1000)], cp / 0x40);
      AssembleLast(0xF0, s[0], [] + [Tail(cp / 0x1000)] + [Tail(cp / 0x40)], cp);
      assert s[1..4] == [] + [Tail(cp / 0x1000)] + [Tail(cp / 0x40)] + [Tail(cp)];
    }
  }

  lemma {:induction false} Utf8RoundTrip(cps: seq<Scalar>)
    ensures DecodeUtf8(Utf8All(cps)) == Some(cps)
  {
    if cps != [] {
      var rest := Utf8All(cps[1..]);
      DecodeOneUtf8(cps[0], rest);
      assert Utf8All(cps) == Utf8(cps[0]) + rest;
      assert (Utf8(cps[0]) + rest)[|Utf8(cps[0])|..] == rest;
      Utf8RoundTrip(cps[1..]);
      assert [cps[0]] + cps[1..] == cps;
    }
  }

  /** The scalar a pair of UTF-16 units denotes; None if they are not a pair. */
  function PairValue(high: int, low: int): Option<Scalar> {
    if 0xD800 <= high < 0xDC00 <= low < 0xE000 then
      Some((high - 0xD800) * 0x400 + (low - 0xDC00) + 0x10000)
    else None
  }

  function HighUnit(cp: Scalar): (u: int)
    requires cp >= 0x10000
    ensures 0xD800 <= u < 0xDC00
  {
    0xD800 + (cp as int - 0x10000) / 0x400
  }

  function LowUnit(cp: Scalar): (u: int)
    requires cp >= 0x10000
    ensures 0xDC00 <= u < 0xE000
  {
    0xDC00 + (cp as int - 0x10000) % 0x400
  }

  lemma PairRoundTrip(cp: Scalar)
    requires cp >= 0x10000
    ensures PairValue(HighUnit(cp), LowUnit(cp)) == Some(cp)
  {
  }
}
