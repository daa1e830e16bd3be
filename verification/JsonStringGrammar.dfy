/** JSON string bodies as a grammar (section 7 of RFC 8259), and what the streaming
    decoder makes of each. */
module JsonStringGrammar {
  import opened Wrappers
  import opened Unicode
  import opened JsonStringReader

  // ----- the tables of the grammar -----

  /** The two-character escapes of section 7 of RFC 8259, and what each stands for. */
  const ESCAPES: map<char, char> :=
    map['"' := '"', '\\' := '\\', '/' := '/', 'b' := '\U{08}', 'f' := '\U{0C}', 'n' := '\U{0A}', 'r' := '\U{0D}',
        't' := '\U{09}']

  const HEX_DIGITS: map<char, nat> :=
    map['0' := 0, '1' := 1, '2' := 2, '3' := 3, '4' := 4, '5' := 5, '6' := 6, '7' := 7, '8' := 8, '9' := 9,
        'a' := 10, 'b' := 11, 'c' := 12, 'd' := 13, 'e' := 14, 'f' := 15,
        'A' := 10, 'B' := 11, 'C' := 12, 'D' := 13, 'E' := 14, 'F' := 15]

  predicate IsHexText(hex: Bytes) { |hex| == 4 && forall i | 0 <= i < 4 :: hex[i] as char in HEX_DIGITS }

  function Digit(b: byte): nat
    requires b as char in HEX_DIGITS
  {
    HEX_DIGITS[b as char]
  }

  /** The number four hexadecimal digits write. */
  function HexNumber(hex: Bytes): (u: int)
    requires IsHexText(hex)
  {
    ((Digit(hex[0]) * 16 + Digit(hex[1])) * 16 + Digit(hex[2])) * 16 + Digit(hex[3])
  }

  /** Two code units that stand for one character (section 2.2 of RFC 2781). */
  predicate IsPair(high: int, low: int) { 0xD800 <= high <= 0xDBFF && 0xDC00 <= low <= 0xDFFF }

  function PairNumber(high: int, low: int): Scalar
    requires IsPair(high, low)
  {
    0x10000 + (high - 0xD800) * 0x400 + (low - 0xDC00)
  }

  lemma EscapeTable(esc: byte)
    ensures ShortEscape(esc) == if esc as char in ESCAPES then Some(ESCAPES[esc as char] as int) else None
  {
  }

  lemma DigitTable(b: byte)
    ensures HexDigit(b) == if b as char in HEX_DIGITS then Some(Digit(b)) else None
  {
  }

  lemma HexTable(hex: Bytes)
    ensures IsHex4(hex) <==> IsHexText(hex)
    ensures IsHexText(hex) ==> HexNumber(hex) == Hex4(hex)
  {
    hide HexDigit, Digit, HEX_DIGITS;
    forall i | 0 <= i < |hex|
      ensures HexDigit(hex[i]) == if hex[i] as char in HEX_DIGITS then Some(Digit(hex[i])) else None
      ensures hex[i] in hex
    {
      DigitTable(hex[i]);
    }
  }

  lemma PairTable(high: int, low: int)
    ensures PairValue(high, low) == if IsPair(high, low) then Some(PairNumber(high, low)) else None
  {
  }

  // ----- the pieces of a string body -----

  datatype Piece = Raw(b: byte) | Short(esc: byte) | Unit(hex: Bytes) | Pair(high: Bytes, low: Bytes)

  predicate Proper(piece: Piece) {
    match piece
    case Raw(b) => b != 0x22 && b != 0x5C
    case Short(esc) => esc as char in ESCAPES
    case Unit(hex) => IsHexText(hex) && !(0xD800 <= HexNumber(hex) <= 0xDFFF)
    case Pair(high, low) => IsHexText(high) && IsHexText(low) && IsPair(HexNumber(high), HexNumber(low))
  }

  predicate AllProper(pieces: seq<Piece>) { forall piece | piece in pieces :: Proper(piece) }

  function Spelled(piece: Piece): Bytes {
    match piece
    case Raw(b) => [b]
    case Short(esc) => [0x5C, esc]
    case Unit(hex) => [0x5C, 0x75] + hex
    case Pair(high, low) => [0x5C, 0x75] + high + [0x5C, 0x75] + low
  }

  function Meaning(piece: Piece): Bytes
    requires Proper(piece)
  {
    match piece
    case Raw(b) => [b]
    case Short(esc) => Utf8(ESCAPES[esc as char] as int)
    case Unit(hex) =>
      HexTable(hex);
      Utf8(HexNumber(hex))
    case Pair(high, low) => Utf8(PairNumber(HexNumber(high), HexNumber(low)))
  }

  function SpelledAll(pieces: seq<Piece>): Bytes {
    if pieces == [] then [] else Spelled(pieces[0]) + SpelledAll(pieces[1..])
  }

  function MeaningAll(pieces: seq<Piece>): Bytes
    requires AllProper(pieces)
  {
    if pieces == [] then []
    else
      assert pieces[0] in pieces;
      Meaning(pieces[0]) + MeaningAll(pieces[1..])
  }

  // ----- decoding pieces -----

  lemma TakeHexOf(hex: Bytes, rest: Bytes)
    requires IsHex4(hex)
    ensures TakeHex(hex + rest) == Ok(Hex4(hex)) && (hex + rest)[4..] == rest
  {
    assert (hex + rest)[..4] == hex;
  }

  lemma TakeUnit(hex: Bytes, rest: Bytes)
    requires IsHex4(hex) && !IsSurrogate(Hex4(hex))
    ensures TakeUnicode(hex + rest) == Got(Utf8(Hex4(hex)), rest)
  {
    TakeHexOf(hex, rest);
  }

  lemma TakePair(high: Bytes, low: Bytes, rest: Bytes)
    requires IsHex4(high) && IsHex4(low) && PairValue(Hex4(high), Hex4(low)).Some?
    ensures TakeUnicode(high + [BACKSLASH, LOWER_U] + low + rest)
         == Got(Utf8(PairValue(Hex4(high), Hex4(low)).value), rest)
  {
    var t := [BACKSLASH, LOWER_U] + (low + rest);
    assert high + [BACKSLASH, LOWER_U] + low + rest == high + t;
    TakeHexOf(high, t);
    assert t[2..] == low + rest;
    TakeHexOf(low, rest);
    assert t[6..] == (low + rest)[4..];
  }

  lemma EscapeDecodes(esc: byte, body: Bytes, bytes: Bytes, rest: Bytes)
    requires TakeEscape([esc] + body) == Got(bytes, rest)
    ensures Decode([BACKSLASH, esc] + body) == After(bytes, Decode(rest))
  {
    assert ([BACKSLASH, esc] + body)[1..] == [esc] + body;
  }

  lemma RawDecodes(b: byte, rest: Bytes)
    requires Proper(Raw(b))
    ensures Decode([b] + rest) == After([b], Decode(rest))
  {
    assert ([b] + rest)[1..] == rest;
  }

  /** What a two-character escape stands for is a single byte. */
  lemma AsciiEscapes(esc: byte)
    requires esc as char in ESCAPES
    ensures (ESCAPES[esc as char] as int) < 0x80 && Utf8(ESCAPES[esc as char] as int) == [ESCAPES[esc as char] as int]
  {
  }

  lemma ShortDecodes(esc: byte, rest: Bytes)
    requires Proper(Short(esc))
    ensures TakeEscape([esc] + rest) == Got(Meaning(Short(esc)), rest)
  {
    hide TakeUnicode, ShortEscape;
    EscapeTable(esc);
    AsciiEscapes(esc);
    assert ([esc] + rest)[1..] == rest;
  }

  lemma UnicodeEscape(body: Bytes)
    ensures TakeEscape([LOWER_U] + body) == TakeUnicode(body)
  {
    hide TakeUnicode;
    assert ([LOWER_U] + body)[1..] == body;
  }

  lemma UnitDecodes(hex: Bytes, rest: Bytes)
    requires Proper(Unit(hex))
    ensures Decode(Spelled(Unit(hex)) + rest) == After(Meaning(Unit(hex)), Decode(rest))
  {
    hide Decode, TakeEscape, TakeUnicode, Hex4, Utf8, After, HexNumber, IsHexText, IsHex4;
    HexTable(hex);
    TakeUnit(hex, rest);
    UnicodeEscape(hex + rest);
    EscapeDecodes(LOWER_U, hex + rest, Meaning(Unit(hex)), rest);
    assert Spelled(Unit(hex)) + rest == [BACKSLASH, LOWER_U] + (hex + rest);
  }

  lemma PairDecodes(high: Bytes, low: Bytes, rest: Bytes)
    requires Proper(Pair(high, low))
    ensures Decode(Spelled(Pair(high, low)) + rest) == After(Meaning(Pair(high, low)), Decode(rest))
  {
    hide Decode, TakeEscape, TakeUnicode, Hex4, Utf8, PairValue, After, HexNumber, PairNumber, IsHexText, IsHex4;
    var body := high + [BACKSLASH, LOWER_U] + low + rest;
    HexTable(high);
    HexTable(low);
    PairTable(Hex4(high), Hex4(low));
    TakePair(high, low, rest);
    UnicodeEscape(body);
    EscapeDecodes(LOWER_U, body, Meaning(Pair(high, low)), rest);
    assert Spelled(Pair(high, low)) + rest == [BACKSLASH, LOWER_U] + body;
  }

  lemma PieceDecodes(piece: Piece, rest: Bytes)
    requires Proper(piece)
    ensures Decode(Spelled(piece) + rest) == After(Meaning(piece), Decode(rest))
  {
    match piece
    case Raw(b) => RawDecodes(b, rest);
    case Short(esc) =>
      hide Decode, TakeEscape, After, Utf8, ESCAPES;
      ShortDecodes(esc, rest);
      EscapeDecodes(esc, rest, Meaning(piece), rest);
    case Unit(hex) => UnitDecodes(hex, rest);
    case Pair(high, low) => PairDecodes(high, low, rest);
  }

  lemma {:induction false} PiecesDecode(pieces: seq<Piece>, rest: Bytes)
    requires AllProper(pieces)
    ensures Decode(SpelledAll(pieces) + rest) == After(MeaningAll(pieces), Decode(rest))
  {
    if pieces == [] {
      assert SpelledAll(pieces) + rest == rest;
      assert After([], Decode(rest)) == Decode(rest);
    } else {
      var tail := SpelledAll(pieces[1..]) + rest;
      assert pieces[0] in pieces;
      assert SpelledAll(pieces) + rest == Spelled(pieces[0]) + tail;
      PieceDecodes(pieces[0], tail);
      PiecesDecode(pieces[1..], rest);
      AfterAfter(Meaning(pieces[0]), MeaningAll(pieces[1..]), Decode(rest));
    }
  }

  /** Where no further piece can be read. */
  predicate Stuck(s: Bytes) {
    || s == [] || s[0] == QUOTE
    || (s[0] == BACKSLASH && (|s| == 1 || TakeEscape(s[1..]).Bad?))
  }

  lemma PairText(high: Bytes, low: Bytes, rest: Bytes)
    ensures [BACKSLASH, LOWER_U] + (high + ([BACKSLASH, LOWER_U] + (low + rest))) == Spelled(Pair(high, low)) + rest
  {
  }

  lemma UnicodePiece(t: Bytes) returns (piece: Piece, rest: Bytes)
    requires TakeUnicode(t).Got?
    ensures Proper(piece) && [BACKSLASH, LOWER_U] + t == Spelled(piece) + rest
  {
    hide Hex4, HexNumber, PairNumber, PairValue, IsHexText, IsHex4, HEX_DIGITS, Utf8;
    var high := t[..4];
    var u := t[4..];
    assert t == high + u;
    HexTable(high);
    if !IsSurrogate(Hex4(high)) {
      piece, rest := Unit(high), u;
    } else {
      var low := u[2..][..4];
      assert TakeHex(u[2..]) == Ok(Hex4(low));
      HexTable(low);
      PairTable(Hex4(high), Hex4(low));
      piece, rest := Pair(high, low), u[2..][4..];
      assert u[2..] == low + rest;
      assert u == [BACKSLASH, LOWER_U] + u[2..];
      PairText(high, low, rest);
    }
  }

  lemma FirstPiece(s: Bytes) returns (piece: Piece, rest: Bytes)
    requires !Stuck(s)
    ensures Proper(piece) && s == Spelled(piece) + rest && |rest| < |s|
  {
    hide ShortEscape;
    if |s| > 1 { EscapeTable(s[1]); }
    if s[0] != BACKSLASH {
      piece, rest := Raw(s[0]), s[1..];
    } else if s[1] as char in ESCAPES {
      piece, rest := Short(s[1]), s[2..];
    } else {
      assert s[1..][1..] == s[2..] && s == [BACKSLASH, LOWER_U] + s[2..];
      piece, rest := UnicodePiece(s[2..]);
    }
  }

  /** Any text is pieces up to a place where the decoder is stuck. */
  lemma {:induction false} Decompose(s: Bytes) returns (pieces: seq<Piece>, tail: Bytes)
    ensures AllProper(pieces) && s == SpelledAll(pieces) + tail && Stuck(tail)
    ensures Decode(s) == After(MeaningAll(pieces), Decode(tail))
    decreases |s|
  {
    hide Stuck, Decode, Proper, Spelled, Meaning, After;
    if Stuck(s) {
      pieces, tail := [], s;
      PiecesDecode(pieces, tail);
    } else {
      var piece, rest := FirstPiece(s);
      var more;
      more, tail := Decompose(rest);
      pieces := [piece] + more;
      assert pieces[1..] == more;
      assert s == SpelledAll(pieces) + tail;
      PiecesDecode(pieces, tail);
    }
  }

  /** The decoder reaches a closing quote exactly on the texts of the grammar, delivers
      exactly their meaning, and stops right behind the quote. */
  lemma ClosedExact(s: Bytes, bytes: Bytes, rest: Bytes)
    ensures Decode(s) == Decoded(bytes, Closed(rest)) <==>
            exists pieces ::
              AllProper(pieces) && s == SpelledAll(pieces) + ([0x22] + rest) && bytes == MeaningAll(pieces)
  {
    if Decode(s) == Decoded(bytes, Closed(rest)) {
      var pieces, tail := Decompose(s);
      assert tail != [] && tail[0] == QUOTE;
      assert tail == [QUOTE] + rest;
    }
    forall pieces | AllProper(pieces) && s == SpelledAll(pieces) + ([0x22] + rest) && bytes == MeaningAll(pieces)
      ensures Decode(s) == Decoded(bytes, Closed(rest))
    {
      PiecesDecode(pieces, [QUOTE] + rest);
      assert ([QUOTE] + rest)[1..] == rest;
    }
  }

  // ----- spelling a string -----

  datatype Spelling = AsIs | AsShort(esc: byte) | AsUnit(hex: Bytes) | AsPair(high: Bytes, low: Bytes)

  /** The ways section 7 of RFC 8259 allows to write one character. */
  predicate Spells(spelling: Spelling, cp: Scalar) {
    match spelling
    case AsIs => cp >= 0x20 && cp != 0x22 && cp != 0x5C
    case AsShort(esc) => esc as char in ESCAPES && ESCAPES[esc as char] as int == cp
    case AsUnit(hex) => IsHexText(hex) && HexNumber(hex) == cp
    case AsPair(high, low) =>
      && cp >= 0x10000 && IsHexText(high) && IsHexText(low)
      && HexNumber(high) == HighUnit(cp) && HexNumber(low) == LowUnit(cp)
  }

  function RawPieces(bytes: Bytes): seq<Piece> { seq(|bytes|, i requires 0 <= i < |bytes| => Raw(bytes[i])) }

  function PiecesOf(spelling: Spelling, cp: Scalar): seq<Piece> {
    match spelling
    case AsIs => RawPieces(Utf8(cp))
    case AsShort(esc) => [Short(esc)]
    case AsUnit(hex) => [Unit(hex)]
    case AsPair(high, low) => [Pair(high, low)]
  }

  /** The text of a string in which character `i` is written as `spellings[i]`. */
  function Print(cps: seq<Scalar>, spellings: seq<Spelling>): Bytes
    requires |cps| == |spellings|
  {
    if cps == [] then [] else SpelledAll(PiecesOf(spellings[0], cps[0])) + Print(cps[1..], spellings[1..])
  }

  lemma {:induction false} RawMeaning(bytes: Bytes)
    requires QUOTE !in bytes && BACKSLASH !in bytes
    ensures AllProper(RawPieces(bytes)) && MeaningAll(RawPieces(bytes)) == bytes
  {
    if bytes != [] {
      assert bytes[0] in bytes;
      assert RawPieces(bytes) == [Raw(bytes[0])] + RawPieces(bytes[1..]);
      RawMeaning(bytes[1..]);
    }
  }

  lemma Utf8AvoidsAscii(cp: Scalar)
    requires cp != QUOTE && cp != BACKSLASH
    ensures QUOTE !in Utf8(cp) && BACKSLASH !in Utf8(cp)
  {
  }

  lemma SpellingMeaning(spelling: Spelling, cp: Scalar)
    requires Spells(spelling, cp)
    ensures AllProper(PiecesOf(spelling, cp)) && MeaningAll(PiecesOf(spelling, cp)) == Utf8(cp)
  {
    match spelling
    case AsIs =>
      Utf8AvoidsAscii(cp);
      RawMeaning(Utf8(cp));
    case AsShort(esc) =>
      assert Short(esc) in [Short(esc)] && [Short(esc)][1..] == [];
    case AsUnit(hex) =>
      assert [Unit(hex)][1..] == [];
    case AsPair(high, low) =>
      PairRoundTrip(cp);
      assert [Pair(high, low)][1..] == [];
  }

  /** Every legal spelling of every string decodes to the UTF-8 of its characters. */
  lemma {:induction false} PrintDecodes(cps: seq<Scalar>, spellings: seq<Spelling>, rest: Bytes)
    requires |cps| == |spellings| && forall i | 0 <= i < |cps| :: Spells(spellings[i], cps[i])
    ensures Decode(Print(cps, spellings) + ([0x22] + rest)) == Decoded(Utf8All(cps), Closed(rest))
  {
    if cps == [] {
      assert [] + ([QUOTE] + rest) == [QUOTE] + rest && ([QUOTE] + rest)[1..] == rest;
    } else {
      var pieces := PiecesOf(spellings[0], cps[0]);
      var tail := Print(cps[1..], spellings[1..]) + ([QUOTE] + rest);
      SpellingMeaning(spellings[0], cps[0]);
      assert Print(cps, spellings) + ([QUOTE] + rest) == SpelledAll(pieces) + tail;
      PiecesDecode(pieces, tail);
      PrintDecodes(cps[1..], spellings[1..], rest);
    }
  }

  /** Reading back what was printed is the identity. */
  lemma PrintReadsBack(cps: seq<Scalar>, spellings: seq<Spelling>, rest: Bytes)
    requires |cps| == |spellings| && forall i | 0 <= i < |cps| :: Spells(spellings[i], cps[i])
    ensures var d := Decode(Print(cps, spellings) + ([0x22] + rest));
            DecodeUtf8(d.bytes) == Some(cps) && d.ending == Closed(rest)
  {
    PrintDecodes(cps, spellings, rest);
    Utf8RoundTrip(cps);
  }

  // ----- truncated files -----

  /** The texts after which a file that ends is taken for a finished one: the reader
      passes on the `io.EOF` of a hexadecimal number or a second half that is missing. */
  predicate HalfEscape(cut: Bytes) {
    && |cut| >= 2 && cut[0] == 0x5C && cut[1] == 0x75
    && (|cut| > 2 ==> |cut| >= 6 && IsHexText(cut[2..6]) && 0xD800 <= HexNumber(cut[2..6]) <= 0xDFFF)
    && |cut| <= 8 && (|cut| == 8 ==> cut[6] == 0x5C && cut[7] == 0x75)
  }

  lemma StuckAtEof(s: Bytes)
    requires Stuck(s)
    ensures Decode(s).ending == Failed(Eof) <==> HalfEscape(s)
  {
    if |s| >= 2 && s[0] == BACKSLASH && s[1] == LOWER_U {
      var t := s[2..];
      assert s[1..][1..] == t;
      assert |t| >= 4 ==> t[..4] == s[2..6];
      assert |t| >= 6 ==> t[4..][0] == s[6] && t[4..][1] == s[7];
      assert |t| >= 6 ==> |t[4..][2..]| == |s| - 8;
      if |t| >= 4 { HexTable(t[..4]); }
    }
  }

  /** Without a closing quote the reader reports a normal end exactly when the file stops
      inside a `\u` escape at such a place. */
  lemma TruncatedEofExact(s: Bytes)
    ensures Decode(s).ending == Failed(Eof) <==>
            exists pieces, cut :: AllProper(pieces) && HalfEscape(cut) && s == SpelledAll(pieces) + cut
  {
    if Decode(s).ending == Failed(Eof) {
      var pieces, tail := Decompose(s);
      StuckAtEof(tail);
    }
    forall pieces, cut | AllProper(pieces) && HalfEscape(cut) && s == SpelledAll(pieces) + cut
      ensures Decode(s).ending == Failed(Eof)
    {
      PiecesDecode(pieces, cut);
      HalfEscapeStuck(cut);
      StuckAtEof(cut);
    }
  }

  lemma HalfEscapeStuck(cut: Bytes)
    requires HalfEscape(cut)
    ensures Stuck(cut)
  {
    var t := cut[2..];
    assert cut[1..][1..] == t;
    if |t| > 0 {
      assert t[..4] == cut[2..6];
      HexTable(t[..4]);
    }
  }

  /** A file that stops right after `"a\u` reads as the finished string `a`. */
  lemma TruncatedExample()
    ensures Decode([0x61, 0x5C, 0x75]) == Decoded([0x61], Failed(Eof))
  {
    var s: Bytes := [0x61, BACKSLASH, LOWER_U];
    assert s[1..] == [BACKSLASH, LOWER_U];
    var t: Bytes := [BACKSLASH, LOWER_U];
    assert t[1..] == [LOWER_U];
    assert HalfEscape(t);
    HalfEscapeStuck(t);
    StuckAtEof(t);
    assert Decode(t).bytes == [] by {
      assert TakeEscape(t[1..]).Bad?;
    }
    assert [0x61] + [] == [0x61];
  }
}
