/** The streaming decoder of a module file's `data` string, against a pure decoder and
    the string grammar of section 7 of RFC 8259. */
module JsonStringReader {
  import opened Wrappers
  import opened Unicode

  const QUOTE: byte := 0x22
  const BACKSLASH: byte := 0x5C
  const LOWER_U: byte := 0x75
  const COLON: byte := 0x3A

  /** `Eof` is `io.EOF`, which a caller takes for the normal end of the data. */
  datatype ReadError = Eof | MissingQuote | ShortHex | BadHex | BadPair | BadEscape(esc: byte) | BadStart

  // ----- a pure decoder -----

  datatype Escape = Got(bytes: Bytes, rest: Bytes) | Bad(error: ReadError)

  function HexDigit(b: byte): Option<int> {
    if 0x30 <= b <= 0x39 then Some(b - 0x30)
    else if 0x41 <= b <= 0x46 then Some(b - 0x41 + 10)
    else if 0x61 <= b <= 0x66 then Some(b - 0x61 + 10)
    else None
  }

  predicate IsHex4(s: Bytes) {
    |s| == 4 && forall b | b in s :: HexDigit(b).Some?
  }

  function Hex4(s: Bytes): (u: int)
    requires IsHex4(s)
    ensures 0 <= u < 0x10000
  {
    assert s[0] in s && s[1] in s && s[2] in s && s[3] in s;
    HexDigit(s[0]).value * 0x1000 + HexDigit(s[1]).value * 0x100 + HexDigit(s[2]).value * 0x10 + HexDigit(s[3]).value
  }

  /** Four hexadecimal digits at the head of `s`.  An empty rest reads as `io.EOF`. */
  function TakeHex(s: Bytes): Result<int, ReadError> {
    if s == [] then Err(Eof)
    else if |s| < 4 then Err(ShortHex)
    else if !IsHex4(s[..4]) then Err(BadHex)
    else Ok(Hex4(s[..4]))
  }

  /** The text after `\u`. */
  function TakeUnicode(s: Bytes): (e: Escape)
    ensures e.Got? ==> |e.rest| < |s| && e.bytes != []
  {
    match TakeHex(s)
    case Err(error) => Bad(error)
    case Ok(first) =>
      var t := s[4..];
      if !IsSurrogate(first) then Got(Utf8(first), t)
      else if |t| < 2 then Bad(Eof)
      else if t[0] != BACKSLASH || t[1] != LOWER_U then Bad(BadPair)
      else
        match TakeHex(t[2..])
        case Err(error) => Bad(error)
        case Ok(second) =>
          match PairValue(first, second)
          case None => Bad(BadPair)
          case Some(cp) => Got(Utf8(cp), t[6..])
  }

  /** The character a two-character escape stands for. */
  function ShortEscape(esc: byte): Option<byte> {
    if esc == QUOTE || esc == BACKSLASH || esc == 0x2F then Some(esc)
    else if esc == 0x62 then Some(0x08)
    else if esc == 0x66 then Some(0x0C)
    else if esc == 0x6E then Some(0x0A)
    else if esc == 0x72 then Some(0x0D)
    else if esc == 0x74 then Some(0x09)
    else None
  }

  /** The text after a backslash. */
  function TakeEscape(s: Bytes): (e: Escape)
    requires s != []
    ensures e.Got? ==> |e.rest| < |s| && e.bytes != []
  {
    if ShortEscape(s[0]).Some? then Got([ShortEscape(s[0]).value], s[1..])
    else if s[0] == LOWER_U then TakeUnicode(s[1..])
    else Bad(BadEscape(s[0]))
  }

  datatype Ending = Closed(rest: Bytes) | Failed(error: ReadError)

  datatype Decoded = Decoded(bytes: Bytes, ending: Ending)

  function After(bytes: Bytes, d: Decoded): Decoded { Decoded(bytes + d.bytes, d.ending) }

  lemma AfterAfter(a: Bytes, b: Bytes, d: Decoded)
    ensures After(a, After(b, d)) == After(a + b, d)
  {
    assert a + (b + d.bytes) == a + b + d.bytes;
  }

  /** Everything a string body decodes to, and how it ends. */
  function Decode(s: Bytes): Decoded
    decreases |s|, 1
  {
    if s == [] then Decoded([], Failed(MissingQuote))
    else if s[0] == QUOTE then Decoded([], Closed(s[1..]))
    else if s[0] == BACKSLASH then DecodeEscaped(s[1..])
    else After([s[0]], Decode(s[1..]))
  }

  function DecodeEscaped(s: Bytes): Decoded
    decreases |s|, 0
  {
    if s == [] then Decoded([], Failed(MissingQuote))
    else
      match TakeEscape(s)
      case Bad(error) => Decoded([], Failed(error))
      case Got(bytes, rest) => After(bytes, Decode(rest))
  }

  // ----- the code -----

  predicate IsJsonSpace(b: byte) { b == 0x20 || b == 0x0A || b == 0x0D || b == 0x09 }

  function SkipSpace(s: Bytes): Bytes {
    if s != [] && IsJsonSpace(s[0]) then SkipSpace(s[1..]) else s
  }

  /** What follows `:` and `"` with white space around, if that is what the text starts with. */
  function ValueStart(s: Bytes): Option<Bytes> {
    var t := SkipSpace(s);
    if t == [] || t[0] != COLON then None
    else
      var u := SkipSpace(t[1..]);
      if u == [] || u[0] != QUOTE then None else Some(u[1..])
  }

  /** `jsonStringValueReader`, with the file it reads. */
  class StringReader {
    const input: Bytes
    var pos: nat
    var buf: Bytes
    var done: bool
    var escape: bool

    constructor (input: Bytes, offset: nat)
      requires offset <= |input|
      ensures Valid() && Rest() == input[offset..] && Remaining() == Decode(input[offset..])
      ensures !done && !escape && buf == []
    {
      this.input := input;
      pos, buf, done, escape := offset, [], false, false;
    }

    ghost predicate Valid()
      reads this
    {
      pos <= |input| && (done ==> buf == [])
    }

    ghost function Rest(): Bytes
      reads this
      requires Valid()
    {
      input[pos..]
    }

    /** What the reader has still to deliver. */
    ghost function Remaining(): Decoded
      reads this
      requires Valid()
    {
      if done then Decoded([], Closed(Rest()))
      else After(buf, if escape then DecodeEscaped(Rest()) else Decode(Rest()))
    }

    method ReadByte() returns (b: Option<byte>)
      requires Valid()
      modifies this`pos
      ensures Valid()
      ensures old(Rest()) == [] ==> b == None && pos == old(pos)
      ensures old(Rest()) != [] ==> b == Some(old(Rest())[0]) && Rest() == old(Rest())[1..]
    {
      if pos == |input| {
        return None;
      }
      b := Some(input[pos]);
      pos := pos + 1;
    }

    method ReadHex() returns (r: Result<int, ReadError>)
      requires Valid()
      modifies this`pos
      ensures Valid() && r == TakeHex(old(Rest()))
      ensures r.Ok? ==> Rest() == old(Rest())[4..]
    {
      var text := input[pos..];
      if text == [] {
        return Err(Eof);
      }
      if |text| < 4 {
        pos := |input|;
        return Err(ShortHex);
      }
      var hex := text[..4];
      pos := pos + 4;
      if !IsHex4(hex) {
        return Err(BadHex);
      }
      r := Ok(Hex4(hex));
    }

    method ReadUnicodeEscape() returns (r: Result<Bytes, ReadError>)
      requires Valid()
      modifies this`pos
      ensures Valid()
      ensures match TakeUnicode(old(Rest()))
              case Got(bytes, rest) => r == Ok(bytes) && Rest() == rest
              case Bad(error) => r == Err(error)
    {
      var first := ReadHex();
      if first.Err? {
        return Err(first.error);
      }
      if !IsSurrogate(first.value) {
        return Ok(Utf8(first.value));
      }
      var slash := ReadByte();
      if slash.None? {
        return Err(Eof);
      }
      var u := ReadByte();
      if u.None? {
        return Err(Eof);
      }
      if slash.value != BACKSLASH || u.value != LOWER_U {
        return Err(BadPair);
      }
      var second := ReadHex();
      if second.Err? {
        return Err(second.error);
      }
      var decoded := PairValue(first.value, second.value);
      if decoded.None? {
        return Err(BadPair);
      }
      r := Ok(Utf8(decoded.value));
    }

    method DecodeEscape(esc: byte) returns (r: Result<Bytes, ReadError>)
      requires Valid()
      modifies this`pos
      ensures Valid()
      ensures match TakeEscape([esc] + old(Rest()))
              case Got(bytes, rest) => r == Ok(bytes) && Rest() == rest
              case Bad(error) => r == Err(error)
    {
      assert ([esc] + Rest())[1..] == Rest();
      if ShortEscape(esc).Some? {
        return Ok([ShortEscape(esc).value]);
      }
      if esc == LOWER_U {
        r := ReadUnicodeEscape();
        return;
      }
      r := Err(BadEscape(esc));
    }

    /** Fills `p` from the decoded text.  The contract says exactly what is delivered and
        when an error is reported; after an error other than the end of the string it
        promises nothing about the state. */
    method Read(p: array<byte>) returns (n: nat, err: Option<ReadError>)
      requires Valid()
      modifies this`pos, this`buf, this`done, this`escape, p
      ensures n <= p.Length && forall i | n <= i < p.Length :: p[i] == old(p[i])
      ensures err.Some? <==> |old(Remaining()).bytes| < p.Length || old(done)
      ensures err == None ==>
                n == p.Length && Valid() && !done && old(Remaining()) == After(p[..n], Remaining())
      ensures err.Some? ==> p[..n] == old(Remaining()).bytes
      ensures err.Some? && old(Remaining()).ending.Closed? ==>
                err == Some(Eof) && Valid() && done && Rest() == old(Remaining()).ending.rest
      ensures err.Some? && old(Remaining()).ending.Failed? ==> err == Some(old(Remaining()).ending.error)
    {
      hide Decode, DecodeEscaped;
      n := 0;
      if done {
        return 0, Some(Eof);
      }
      ghost var start := Remaining();
      while n < p.Length
        invariant n <= p.Length && forall i | n <= i < p.Length :: p[i] == old(p[i])
        invariant Valid() && !done
        invariant start == After(p[..n], Remaining())
        decreases |input| - pos, |buf|
      {
        ghost var had := p[..n];
        var count: nat;
        if |buf| > 0 {
          count := DrainBuffer(p, n);
          if n + count == p.Length {
            assert p[..n + count] == had + p[n..n + count];
            AfterAfter(had, p[n..n + count], Remaining());
            return n + count, None;
          }
        } else {
          count, err := DecodeByte(p, n);
          if err.Some? {
            return;
          }
        }
        ghost var chunk := p[n..n + count];
        assert p[..n + count] == had + chunk;
        AfterAfter(had, chunk, Remaining());
        n := n + count;
      }
      err := None;
    }

    /** One turn of the loop with an empty carry-over: at most one byte is stored at `n`. */
    method DecodeByte(p: array<byte>, n: nat) returns (count: nat, err: Option<ReadError>)
      requires Valid() && !done && buf == [] && n < p.Length
      modifies this`pos, this`buf, this`done, this`escape, p
      ensures n + count <= p.Length && p[..n] == old(p[..n])
      ensures forall i | n + count <= i < p.Length :: p[i] == old(p[i])
      ensures err == None ==>
                && Valid() && !done && pos > old(pos)
                && old(Remaining()) == After(p[n..n + count], Remaining())
      ensures err.Some? ==> count == 0 && old(Remaining()).bytes == []
      ensures err.Some? && old(Remaining()).ending.Closed? ==>
                err == Some(Eof) && Valid() && done && Rest() == old(Remaining()).ending.rest
      ensures err.Some? && old(Remaining()).ending.Failed? ==> err == Some(old(Remaining()).ending.error)
    {
      count, err := 0, None;
      ghost var before, rest := Remaining(), Rest();
      assert before == if escape then DecodeEscaped(rest) else Decode(rest);
      var b := ReadByte();
      if b.None? {
        return 0, Some(MissingQuote);
      }
      assert rest == [b.value] + Rest();
      if escape {
        var decoded := DecodeEscape(b.value);
        if decoded.Err? {
          return 0, Some(decoded.error);
        }
        escape := false;
        buf := decoded.value;
        assert p[n..n] == [];
        assert After([], Remaining()) == Remaining();
      } else if b.value == BACKSLASH {
        escape := true;
        assert p[n..n] == [];
      } else if b.value == QUOTE {
        done := true;
        return 0, Some(Eof);
      } else {
        p[n] := b.value;
        count := 1;
        assert p[n..n + 1] == [b.value];
        assert After([], Decode(Rest())) == Decode(Rest());
      }
    }

    /** Moves as much of the carry-over as fits. */
    method DrainBuffer(p: array<byte>, n: nat) returns (copied: nat)
      requires Valid() && !done && |buf| > 0 && n < p.Length
      modifies this`buf, p
      ensures Valid() && 0 < copied <= p.Length - n && |buf| == |old(buf)| - copied
      ensures n + copied < p.Length ==> buf == []
      ensures p[..n] == old(p[..n]) && forall i | n + copied <= i < p.Length :: p[i] == old(p[i])
      ensures old(Remaining()) == After(p[n..n + copied], Remaining())
    {
      hide Decode, DecodeEscaped;
      ghost var rest := Remaining();
      copied := if |buf| < p.Length - n then |buf| else p.Length - n;
      CopyInto(p, n, buf[..copied]);
      buf := buf[copied..];
      assert rest.bytes == p[n..n + copied] + Remaining().bytes;
    }

    /** `copy` */
    method CopyInto(p: array<byte>, at: nat, bytes: Bytes)
      requires at + |bytes| <= p.Length
      modifies p
      ensures p[..at] == old(p[..at]) && p[at..at + |bytes|] == bytes
      ensures forall k | at + |bytes| <= k < p.Length :: p[k] == old(p[k])
    {
      for i := 0 to |bytes|
        invariant p[..at] == old(p[..at]) && p[at..at + i] == bytes[..i]
        invariant forall k | at + |bytes| <= k < p.Length :: p[k] == old(p[k])
      {
        p[at + i] := bytes[i];
      }
    }

    /** Reads with buffers of the given sizes until an error or until the sizes run out. */
    method ReadThrough(sizes: seq<nat>) returns (out: Bytes, err: Option<ReadError>)
      requires Valid() && !done
      modifies this`pos, this`buf, this`done, this`escape
      ensures err.Some? <==> |old(Remaining()).bytes| < Total(sizes)
      ensures err == None ==> |out| == Total(sizes) && out <= old(Remaining()).bytes
      ensures err.Some? ==>
                && out == old(Remaining()).bytes
                && err == Some(if old(Remaining()).ending.Closed? then Eof else old(Remaining()).ending.error)
    {
      out, err := [], None;
      ghost var start := Remaining();
      for i := 0 to |sizes|
        invariant Valid() && !done
        invariant err == None && start == After(out, Remaining()) && |out| == Total(sizes[..i])
      {
        var p := new byte[sizes[i]];
        ghost var before := Remaining();
        TotalGrows(sizes, i);
        var n;
        n, err := Read(p);
        if err.Some? {
          out := out + p[..n];
          return;
        }
        assert start.bytes == (out + p[..n]) + Remaining().bytes;
        out := out + p[..n];
      }
      assert sizes[..|sizes|] == sizes;
    }

    /** The name is followed by a colon and an opening quote. */
    method ConsumeStart() returns (err: Option<ReadError>)
      requires Valid() && !done && !escape && buf == []
      modifies this`pos
      ensures Valid()
      ensures err == None <==> ValueStart(old(Rest())).Some?
      ensures err == None ==> Remaining() == Decode(ValueStart(old(Rest())).value)
    {
      var b := ReadNonSpace();
      if b.None? || b.value != COLON {
        return Some(BadStart);
      }
      b := ReadNonSpace();
      if b.None? || b.value != QUOTE {
        return Some(BadStart);
      }
      err := None;
      assert After([], Decode(Rest())) == Decode(Rest());
    }

    method ReadNonSpace() returns (b: Option<byte>)
      requires Valid()
      modifies this`pos
      ensures Valid()
      ensures SkipSpace(old(Rest())) == [] <==> b == None
      ensures b.Some? ==> SkipSpace(old(Rest())) == [b.value] + Rest()
    {
      while true
        invariant Valid() && SkipSpace(Rest()) == SkipSpace(old(Rest()))
        decreases |input| - pos
      {
        ghost var rest := Rest();
        b := ReadByte();
        if b.None? {
          return;
        }
        if !IsJsonSpace(b.value) {
          assert rest == [b.value] + Rest();
          return;
        }
      }
    }
  }

  function Total(sizes: seq<nat>): nat {
    if sizes == [] then 0 else Total(sizes[..|sizes| - 1]) + sizes[|sizes| - 1]
  }

  lemma {:induction false} TotalGrows(sizes: seq<nat>, i: nat)
    requires i < |sizes|
    ensures Total(sizes[..i + 1]) == Total(sizes[..i]) + sizes[i]
    ensures Total(sizes[..i + 1]) <= Total(sizes)
  {
    assert sizes[..i + 1][..i] == sizes[..i];
    if i + 1 == |sizes| {
      assert sizes[..i + 1] == sizes;
    } else {
      var shorter := sizes[..|sizes| - 1];
      TotalGrows(shorter, i);
      assert shorter[..i + 1] == sizes[..i + 1];
    }
  }
}
