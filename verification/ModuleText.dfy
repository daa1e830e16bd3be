/** A module document as the bytes of its file: finding the key `data` among them and
    reading the string behind it. */
module ModuleText {
  import opened Wrappers
  import opened Unicode
  import opened JsonStringReader
  import opened JsonStringGrammar
  import opened ModuleTokens

  const LEFT_BRACE: byte := 0x7B
  const RIGHT_BRACE: byte := 0x7D
  const LEFT_BRACKET: byte := 0x5B
  const RIGHT_BRACKET: byte := 0x5D
  const COMMA: byte := 0x2C

  // ----- the tokens of a text -----

  predicate IsFiller(b: byte) { IsJsonSpace(b) || b == COLON || b == COMMA }

  /** The bytes of numbers, and of `true`, `false` and `null`. */
  predicate IsLiteral(b: byte) {
    0x30 <= b <= 0x39 || 0x41 <= b <= 0x5A || 0x61 <= b <= 0x7A || b == 0x2B || b == 0x2D || b == 0x2E
  }

  function SkipFiller(s: Bytes): (t: Bytes)
    ensures |t| <= |s|
  {
    if s != [] && IsFiller(s[0]) then SkipFiller(s[1..]) else s
  }

  function SkipLiteral(s: Bytes): (t: Bytes)
    ensures |t| <= |s|
  {
    if s != [] && IsLiteral(s[0]) then SkipLiteral(s[1..]) else s
  }

  /** A token and what is behind it. */
  datatype Lexed = Lexed(token: Token, rest: Bytes)

  function CharsOf(cps: seq<Scalar>): string { seq(|cps|, i requires 0 <= i < |cps| => cps[i] as char) }

  function ScalarsOf(s: string): seq<Scalar> { seq(|s|, i requires 0 <= i < |s| => s[i] as int) }

  lemma {:induction false} ClosedShorter(s: Bytes)
    ensures Decode(s).ending.Closed? ==> |Decode(s).ending.rest| < |s|
    decreases |s|
  {
    if s != [] && s[0] != QUOTE {
      if s[0] != BACKSLASH {
        ClosedShorter(s[1..]);
      } else if s[1..] != [] && TakeEscape(s[1..]).Got? {
        ClosedShorter(TakeEscape(s[1..]).rest);
      }
    }
  }

  /** The next token of the JSON library, as far as legal documents go. */
  function NextToken(s: Bytes): (r: Option<Lexed>)
    ensures r.Some? ==> |r.value.rest| < |s|
  {
    var t := SkipFiller(s);
    if t == [] then None
    else if t[0] == LEFT_BRACE then Some(Lexed(OpenObject, t[1..]))
    else if t[0] == RIGHT_BRACE then Some(Lexed(CloseObject, t[1..]))
    else if t[0] == LEFT_BRACKET then Some(Lexed(OpenArray, t[1..]))
    else if t[0] == RIGHT_BRACKET then Some(Lexed(CloseArray, t[1..]))
    else if t[0] == QUOTE then StringToken(t[1..])
    else if IsLiteral(t[0]) then Some(Lexed(Other, SkipLiteral(t[1..])))
    else None
  }

  function StringToken(s: Bytes): (r: Option<Lexed>)
    ensures r.Some? ==> |r.value.rest| < |s|
  {
    ClosedShorter(s);
    var d := Decode(s);
    if d.ending.Failed? then None
    else
      var cps := DecodeUtf8(d.bytes);
      if cps.None? then None else Some(Lexed(Text(CharsOf(cps.value)), d.ending.rest))
  }

  function LexAll(s: Bytes): seq<Lexed>
    decreases |s|
  {
    var next := NextToken(s);
    if next.None? then [] else [next.value] + LexAll(next.value.rest)
  }

  function TokensIn(lexed: seq<Lexed>): seq<Token> {
    seq(|lexed|, i requires 0 <= i < |lexed| => lexed[i].token)
  }

  // ----- the code -----

  /** The text of the string behind the key the scan stops at. */
  function DataText(input: Bytes): Option<Bytes> {
    var lexed := LexAll(input);
    var count := FirstStop(START, TokensIn(lexed));
    if count.None? || count.value == 0 then None else ValueStart(lexed[count.value - 1].rest)
  }

  predicate IsSuffix(t: Bytes, s: Bytes) { |t| <= |s| && t == s[|s| - |t|..] }

  lemma SuffixOfSuffix(a: Bytes, b: Bytes, c: Bytes)
    requires IsSuffix(a, b) && IsSuffix(b, c)
    ensures IsSuffix(a, c)
  {
  }

  lemma {:induction false} FillerSuffix(s: Bytes)
    ensures IsSuffix(SkipFiller(s), s)
  {
    if s != [] && IsFiller(s[0]) {
      FillerSuffix(s[1..]);
      SuffixOfSuffix(SkipFiller(s[1..]), s[1..], s);
    }
  }

  lemma {:induction false} LiteralSuffix(s: Bytes)
    ensures IsSuffix(SkipLiteral(s), s)
  {
    if s != [] && IsLiteral(s[0]) {
      LiteralSuffix(s[1..]);
      SuffixOfSuffix(SkipLiteral(s[1..]), s[1..], s);
    }
  }

  lemma {:induction false} ClosedSuffix(s: Bytes)
    ensures Decode(s).ending.Closed? ==> IsSuffix(Decode(s).ending.rest, s)
    decreases |s|
  {
    var d := Decode(s);
    if d.ending.Closed? {
      hide Decode;
      var pieces, tail := Decompose(s);
      ClosedHere(s, MeaningAll(pieces), tail);
    }
  }

  lemma ClosedHere(s: Bytes, bytes: Bytes, tail: Bytes)
    requires Decode(s).ending.Closed? && Decode(s) == After(bytes, Decode(tail)) && Stuck(tail) && IsSuffix(tail, s)
    ensures IsSuffix(Decode(s).ending.rest, s)
  {
    assert tail != [] && tail[0] == QUOTE;
    SuffixOfSuffix(tail[1..], tail, s);
  }

  lemma NextSuffix(s: Bytes)
    ensures NextToken(s).Some? ==> IsSuffix(NextToken(s).value.rest, s)
  {
    hide Decode, DecodeUtf8, CharsOf, SkipFiller, SkipLiteral, IsLiteral;
    FillerSuffix(s);
    var t := SkipFiller(s);
    if t != [] {
      ClosedSuffix(t[1..]);
      LiteralSuffix(t[1..]);
      SuffixOfSuffix(t[1..], t, s);
      if NextToken(s).Some? {
        SuffixOfSuffix(NextToken(s).value.rest, t[1..], s);
      }
    }
  }

  lemma {:induction false} LexedSuffix(s: Bytes, i: nat)
    requires i < |LexAll(s)|
    ensures IsSuffix(LexAll(s)[i].rest, s)
    decreases |s|
  {
    hide NextToken;
    NextSuffix(s);
    if i > 0 {
      var rest := NextToken(s).value.rest;
      LexedSuffix(rest, i - 1);
      SuffixOfSuffix(LexAll(rest)[i - 1].rest, rest, s);
    }
  }

  /** `newModuleDataReader`: a reader in front of the first character of the string. */
  method NewModuleDataReader(input: Bytes) returns (r: Option<StringReader>)
    ensures r.Some? <==> DataText(input).Some?
    ensures r.Some? ==>
      && fresh(r.value) && r.value.Valid() && !r.value.done
      && r.value.Remaining() == Decode(DataText(input).value)
  {
    var lexed := LexAll(input);
    var count := FindDataKey(TokensIn(lexed));
    if count.None? || count.value == 0 {
      return None;
    }
    LexedSuffix(input, count.value - 1);
    var reader := new StringReader(input, |input| - |lexed[count.value - 1].rest|);
    var err := reader.ConsumeStart();
    if err.Some? {
      return None;
    }
    r := Some(reader);
  }

  // ----- documents as bytes -----

  datatype Lexeme = Tok(token: Token) | Colon | Comma

  function Lexemes(v: Json): (lexemes: seq<Lexeme>)
    ensures lexemes != []
    decreases v
  {
    match v
    case Str(s) => [Tok(Text(s))]
    case Atom => [Tok(Other)]
    case Arr(items) => [Tok(OpenArray)] + ItemLexemes(items, []) + [Tok(CloseArray)]
    case Obj(members) => [Tok(OpenObject)] + MemberLexemes(members, []) + [Tok(CloseObject)]
  }

  /** `before` is what separates the first item from one in front of it. */
  function ItemLexemes(items: seq<Json>, before: seq<Lexeme>): seq<Lexeme>
    decreases items
  {
    if items == [] then [] else before + Lexemes(items[0]) + ItemLexemes(items[1..], [Comma])
  }

  function MemberLexemes(members: seq<Member>, before: seq<Lexeme>): seq<Lexeme>
    decreases members
  {
    if members == [] then []
    else
      before + [Tok(Text(members[0].key)), Colon] + Lexemes(members[0].value) + MemberLexemes(members[1..], [Comma])
  }

  ghost predicate WritesString(s: string, spellings: seq<Spelling>, text: Bytes) {
    && |spellings| == |s| && (forall i | 0 <= i < |s| :: Spells(spellings[i], s[i] as int))
    && text == ['"' as int] + Print(ScalarsOf(s), spellings) + ['"' as int]
  }

  /** How a lexeme may be written: a string in any legal spelling of its characters, any
      other plain value as any run of such bytes. */
  ghost predicate Writes(lexeme: Lexeme, text: Bytes) {
    match lexeme
    case Colon => text == [':' as int]
    case Comma => text == [',' as int]
    case Tok(OpenObject) => text == ['{' as int]
    case Tok(CloseObject) => text == ['}' as int]
    case Tok(OpenArray) => text == ['[' as int]
    case Tok(CloseArray) => text == [']' as int]
    case Tok(Text(s)) => exists spellings :: WritesString(s, spellings, text)
    case Tok(Other) => text != [] && forall b | b in text :: IsLiteral(b)
  }

  /** The white space of section 2 of RFC 8259. */
  predicate AllSpace(s: Bytes) {
    forall i | 0 <= i < |s| :: s[i] == ' ' as int || s[i] == '\t' as int || s[i] == '\n' as int || s[i] == '\r' as int
  }

  /** A lexeme in a file, with the white space in front of it. */
  datatype Placed = Placed(gap: Bytes, text: Bytes)

  ghost predicate Writing(lexemes: seq<Lexeme>, placed: seq<Placed>) {
    && |lexemes| == |placed|
    && forall i | 0 <= i < |lexemes| :: AllSpace(placed[i].gap) && Writes(lexemes[i], placed[i].text)
  }

  function Flat(placed: seq<Placed>): Bytes {
    if placed == [] then [] else placed[0].gap + (placed[0].text + Flat(placed[1..]))
  }

  /** `input` is the document, with any white space between its lexemes and around them. */
  ghost predicate IsDocument(input: Bytes, v: Json) {
    exists placed, tail :: Writing(Lexemes(v), placed) && AllSpace(tail) && input == Flat(placed) + tail
  }

  // ----- proofs: lexemes and tokens -----

  function TokenOf(lexeme: Lexeme): seq<Token> { if lexeme.Tok? then [lexeme.token] else [] }

  function TokensOf(lexemes: seq<Lexeme>): seq<Token> {
    if lexemes == [] then [] else TokenOf(lexemes[0]) + TokensOf(lexemes[1..])
  }

  lemma {:induction false} TokensOfConcat(a: seq<Lexeme>, b: seq<Lexeme>)
    ensures TokensOf(a + b) == TokensOf(a) + TokensOf(b)
  {
    hide TokenOf;
    if a == [] {
      assert a + b == b;
    } else {
      assert (a + b)[1..] == a[1..] + b;
      TokensOfConcat(a[1..], b);
      Regroup(TokenOf(a[0]), TokensOf(a[1..]), TokensOf(b));
    }
  }

  lemma OneToken(lexeme: Lexeme)
    ensures TokensOf([lexeme]) == if lexeme.Tok? then [lexeme.token] else []
  {
    assert [lexeme][1..] == [];
  }

  lemma {:induction false} ValueTokens(v: Json)
    ensures TokensOf(Lexemes(v)) == Tokens(v)
    decreases v
  {
    match v
    case Str(s) => OneToken(Tok(Text(s)));
    case Atom => OneToken(Tok(Other));
    case Arr(items) =>
      ItemsTokens(items, []);
      Enclosed(OpenArray, ItemLexemes(items, []), CloseArray);
    case Obj(members) =>
      MembersTokens(members, []);
      Enclosed(OpenObject, MemberLexemes(members, []), CloseObject);
  }

  lemma Enclosed(open: Token, inner: seq<Lexeme>, close: Token)
    ensures TokensOf([Tok(open)] + inner + [Tok(close)]) == [open] + TokensOf(inner) + [close]
  {
    hide TokensOf;
    TokensOfConcat([Tok(open)] + inner, [Tok(close)]);
    TokensOfConcat([Tok(open)], inner);
    OneToken(Tok(open));
    OneToken(Tok(close));
  }

  lemma {:induction false} ItemsTokens(items: seq<Json>, before: seq<Lexeme>)
    requires TokensOf(before) == []
    ensures TokensOf(ItemLexemes(items, before)) == ItemTokens(items)
    decreases items
  {
    if items != [] {
      ValueTokens(items[0]);
      OneToken(Comma);
      ItemsTokens(items[1..], [Comma]);
      TokensOfConcat(before + Lexemes(items[0]), ItemLexemes(items[1..], [Comma]));
      TokensOfConcat(before, Lexemes(items[0]));
      assert [] + Tokens(items[0]) == Tokens(items[0]);
    }
  }

  lemma {:induction false} MembersTokens(members: seq<Member>, before: seq<Lexeme>)
    requires TokensOf(before) == []
    ensures TokensOf(MemberLexemes(members, before)) == MemberTokens(members)
    decreases members, 0
  {
    if members != [] {
      var key, value := [Tok(Text(members[0].key)), Colon], Lexemes(members[0].value);
      var rest := MemberLexemes(members[1..], [Comma]);
      ValueTokens(members[0].value);
      OneToken(Comma);
      MembersTokens(members[1..], [Comma]);
      TokensOfConcat(before + key + value, rest);
      TokensOfConcat(before + key, value);
      TokensOfConcat(before, key);
      KeyTokens(members[0].key);
      assert [] + [Text(members[0].key)] == [Text(members[0].key)];
    }
  }

  lemma KeyTokens(key: string)
    ensures TokensOf([Tok(Text(key)), Colon]) == [Text(key)]
  {
    assert [Tok(Text(key)), Colon][1..] == [Colon] && [Colon][1..] == [];
  }

  // ----- proofs: plain values stand apart -----

  const PLAIN := Tok(Other)

  /** No two plain values follow each other. */
  predicate Apart(lexemes: seq<Lexeme>) {
    forall i | 0 < i < |lexemes| :: lexemes[i - 1] == PLAIN ==> lexemes[i] != PLAIN
  }

  lemma ApartConcat(a: seq<Lexeme>, b: seq<Lexeme>)
    requires Apart(a) && Apart(b)
    requires a == [] || b == [] || a[|a| - 1] != PLAIN || b[0] != PLAIN
    ensures Apart(a + b)
  {
    var s := a + b;
    forall i | 0 < i < |s|
      ensures s[i - 1] == PLAIN ==> s[i] != PLAIN
    {
      if i < |a| {
        assert s[i - 1] == a[i - 1] && s[i] == a[i];
      } else if i > |a| {
        assert s[i - 1] == b[i - 1 - |a|] && s[i] == b[i - |a|];
      }
    }
  }

  lemma {:induction false} ValueApart(v: Json)
    ensures Apart(Lexemes(v))
    decreases v
  {
    match v
    case Str(_) =>
    case Atom =>
    case Arr(items) =>
      ItemsApart(items, []);
      ApartConcat([Tok(OpenArray)], ItemLexemes(items, []));
      ApartConcat([Tok(OpenArray)] + ItemLexemes(items, []), [Tok(CloseArray)]);
    case Obj(members) =>
      MembersApart(members, []);
      ApartConcat([Tok(OpenObject)], MemberLexemes(members, []));
      ApartConcat([Tok(OpenObject)] + MemberLexemes(members, []), [Tok(CloseObject)]);
  }

  lemma {:induction false} ItemsApart(items: seq<Json>, before: seq<Lexeme>)
    requires before == [] || before == [Comma]
    ensures Apart(ItemLexemes(items, before))
    ensures before != [] && items != [] ==> ItemLexemes(items, before)[0] == Comma
    decreases items
  {
    if items != [] {
      ValueApart(items[0]);
      ItemsApart(items[1..], [Comma]);
      ApartConcat(before, Lexemes(items[0]));
      ApartConcat(before + Lexemes(items[0]), ItemLexemes(items[1..], [Comma]));
    }
  }

  lemma {:induction false} MembersApart(members: seq<Member>, before: seq<Lexeme>)
    requires before == [] || before == [Comma]
    ensures Apart(MemberLexemes(members, before))
    ensures members != [] ==> MemberLexemes(members, before)[0] != PLAIN
    decreases members, 0
  {
    if members != [] {
      var key, value := [Tok(Text(members[0].key)), Colon], Lexemes(members[0].value);
      ValueApart(members[0].value);
      MembersApart(members[1..], [Comma]);
      ApartConcat(before, key);
      ApartConcat(before + key, value);
      ApartConcat(before + key + value, MemberLexemes(members[1..], [Comma]));
    }
  }

  // ----- proofs: reading a written document -----

  lemma {:induction false} SkipGap(gap: Bytes, s: Bytes)
    requires AllSpace(gap)
    ensures SkipFiller(gap + s) == SkipFiller(s) && SkipSpace(gap + s) == SkipSpace(s)
  {
    if gap == [] {
      assert gap + s == s;
    } else {
      assert (gap + s)[1..] == gap[1..] + s;
      SkipGap(gap[1..], s);
    }
  }

  lemma {:induction false} SkipWord(word: Bytes, s: Bytes)
    requires (forall b | b in word :: IsLiteral(b)) && (s == [] || !IsLiteral(s[0]))
    ensures SkipLiteral(word + s) == s
  {
    if word == [] {
      assert word + s == s;
    } else {
      assert word[0] in word && (word + s)[1..] == word[1..] + s;
      SkipWord(word[1..], s);
    }
  }

  lemma StringLexed(s: string, spellings: seq<Spelling>, text: Bytes, rest: Bytes)
    requires WritesString(s, spellings, text)
    ensures text != [] && text[0] == QUOTE
    ensures Decode((text + rest)[1..]) == Decoded(Utf8All(ScalarsOf(s)), Closed(rest))
    ensures StringToken((text + rest)[1..]) == Some(Lexed(Text(s), rest))
  {
    hide Decode, DecodeUtf8, Print, Utf8All;
    var cps := ScalarsOf(s);
    assert (text + rest)[1..] == Print(cps, spellings) + ([QUOTE] + rest);
    PrintDecodes(cps, spellings, rest);
    Utf8RoundTrip(cps);
    assert CharsOf(cps) == s;
  }

  lemma FirstByte(lexeme: Lexeme, text: Bytes)
    requires Writes(lexeme, text)
    ensures text != []
    ensures IsLiteral(text[0]) <==> lexeme == PLAIN
    ensures text[0] == QUOTE <==> lexeme.Tok? && lexeme.token.Text?
    ensures text[0] == COLON <==> lexeme == Colon
    ensures text[0] == COMMA <==> lexeme == Comma
    ensures lexeme == PLAIN ==> text[0] !in {LEFT_BRACE, RIGHT_BRACE, LEFT_BRACKET, RIGHT_BRACKET}
    ensures !IsJsonSpace(text[0])
  {
    if lexeme == PLAIN {
      assert text[0] in text;
    }
  }

  lemma NoFiller(text: Bytes, rest: Bytes)
    requires text != [] && !IsFiller(text[0])
    ensures SkipFiller(text + rest) == text + rest
  {
  }

  /** The next token behind a gap, at a lexeme that is one. */
  lemma TokLexed(token: Token, placed: Placed, rest: Bytes)
    requires AllSpace(placed.gap) && Writes(Tok(token), placed.text)
    requires token == Other ==> rest == [] || !IsLiteral(rest[0])
    ensures NextToken(placed.gap + (placed.text + rest)) == Some(Lexed(token, rest))
  {
    hide StringToken, WritesString, IsLiteral, AllSpace, SkipFiller, SkipLiteral;
    var s := placed.text + rest;
    FirstByte(Tok(token), placed.text);
    NoFiller(placed.text, rest);
    SkipGap(placed.gap, s);
    match token
    case Text(x) =>
      var spellings :| WritesString(x, spellings, placed.text);
      StringLexed(x, spellings, placed.text, rest);
    case Other =>
      assert placed.text[0] in placed.text;
      assert s[1..] == placed.text[1..] + rest;
      assert forall b | b in placed.text[1..] :: b in placed.text;
      SkipWord(placed.text[1..], rest);
    case _ =>
      assert s[1..] == rest;
  }

  lemma SeparatorSkipped(lexeme: Lexeme, placed: Placed, rest: Bytes)
    requires !lexeme.Tok? && AllSpace(placed.gap) && Writes(lexeme, placed.text)
    ensures NextToken(placed.gap + (placed.text + rest)) == NextToken(rest)
  {
    SkipGap(placed.gap, placed.text + rest);
    assert (placed.text + rest)[1..] == rest;
  }

  /** The text behind a plain value goes on with another byte. */
  lemma GoesOn(lexemes: seq<Lexeme>, placed: seq<Placed>, tail: Bytes)
    requires Writing(lexemes, placed) && AllSpace(tail) && (lexemes == [] || lexemes[0] != PLAIN)
    ensures var rest := Flat(placed) + tail; rest == [] || !IsLiteral(rest[0])
  {
    if lexemes == [] {
      assert Flat(placed) + tail == tail;
    } else {
      FirstByte(lexemes[0], placed[0].text);
      assert placed[0].gap != [] ==> IsJsonSpace(placed[0].gap[0]);
    }
  }

  lemma FlatFirst(placed: seq<Placed>, tail: Bytes)
    requires placed != []
    ensures Flat(placed) + tail == placed[0].gap + (placed[0].text + (Flat(placed[1..]) + tail))
  {
  }

  lemma SpaceEnds(tail: Bytes)
    requires AllSpace(tail)
    ensures LexAll(tail) == []
  {
    SkipGap(tail, []);
    assert tail + [] == tail;
  }

  /** The tokens of a written document, and what is behind each. */
  lemma {:induction false} Reading(lexemes: seq<Lexeme>, placed: seq<Placed>, tail: Bytes)
    requires Writing(lexemes, placed) && AllSpace(tail) && Apart(lexemes)
    ensures TokensIn(LexAll(Flat(placed) + tail)) == TokensOf(lexemes)
    decreases |lexemes|
  {
    hide NextToken, Writes, Flat, IsLiteral;
    if lexemes == [] {
      EmptyFlat(placed, tail);
      SpaceEnds(tail);
    } else {
      var rest := Flat(placed[1..]) + tail;
      FlatFirst(placed, tail);
      Reading(lexemes[1..], placed[1..], tail);
      GoesOnBehind(lexemes, placed, tail);
      if lexemes[0].Tok? {
        TokLexed(lexemes[0].token, placed[0], rest);
        assert TokensIn([Lexed(lexemes[0].token, rest)] + LexAll(rest)) == [lexemes[0].token] + TokensIn(LexAll(rest));
      } else {
        SeparatorSkipped(lexemes[0], placed[0], rest);
        assert [] + TokensOf(lexemes[1..]) == TokensOf(lexemes[1..]);
      }
    }
  }

  lemma EmptyFlat(placed: seq<Placed>, tail: Bytes)
    requires placed == []
    ensures Flat(placed) + tail == tail
  {
  }

  lemma GoesOnBehind(lexemes: seq<Lexeme>, placed: seq<Placed>, tail: Bytes)
    requires lexemes != [] && Writing(lexemes, placed) && AllSpace(tail) && Apart(lexemes)
    ensures var rest := Flat(placed[1..]) + tail; lexemes[0] == PLAIN ==> rest == [] || !IsLiteral(rest[0])
  {
    if lexemes[0] == PLAIN {
      GoesOn(lexemes[1..], placed[1..], tail);
    }
  }

  /** What is behind the token at lexeme `j`. */
  lemma {:induction false} Behind(lexemes: seq<Lexeme>, placed: seq<Placed>, tail: Bytes, j: nat)
    requires Writing(lexemes, placed) && AllSpace(tail) && Apart(lexemes)
    requires j < |lexemes| && lexemes[j].Tok?
    ensures var lexed, c := LexAll(Flat(placed) + tail), |TokensOf(lexemes[..j])|;
            c < |lexed| && lexed[c].rest == Flat(placed[j + 1..]) + tail
    decreases |lexemes|
  {
    hide NextToken, Writes, Flat, IsLiteral;
    var rest := Flat(placed[1..]) + tail;
    FlatFirst(placed, tail);
    GoesOnBehind(lexemes, placed, tail);
    if lexemes[0].Tok? {
      TokLexed(lexemes[0].token, placed[0], rest);
    } else {
      SeparatorSkipped(lexemes[0], placed[0], rest);
    }
    if j == 0 {
      assert lexemes[..0] == [];
    } else {
      Behind(lexemes[1..], placed[1..], tail, j - 1);
      assert lexemes[1..][..j - 1] == lexemes[..j][1..] && placed[1..][j..] == placed[j + 1..];
    }
  }

  // ----- proofs: where the key is -----

  /** The value of the first key `data` in document order. */
  function FirstDataValue(v: Json): Json
    requires FirstDataKey(v).Some?
    decreases v
  {
    match v
    case Arr(items) => FirstValueOf(items)
    case Obj(members) => FirstValueIn(members)
  }

  function FirstValueOf(items: seq<Json>): Json
    requires FirstInItems(items).Some?
    decreases items
  {
    if FirstDataKey(items[0]).Some? then FirstDataValue(items[0]) else FirstValueOf(items[1..])
  }

  function FirstValueIn(members: seq<Member>): Json
    requires FirstInMembers(members).Some?
    decreases members
  {
    if members[0].key == "data" then members[0].value
    else if FirstDataKey(members[0].value).Some? then FirstDataValue(members[0].value)
    else FirstValueIn(members[1..])
  }

  /** Lexeme `j` is a string `data`, the `count`-th token, with `after` behind it. */
  ghost predicate FoundAt(lexemes: seq<Lexeme>, j: nat, after: seq<Lexeme>, count: nat) {
    && j < |lexemes| && lexemes[j] == Tok(Text(DATA))
    && after <= lexemes[j + 1..] && |TokensOf(lexemes[..j])| + 1 == count
  }

  lemma Moved(before: seq<Lexeme>, inner: seq<Lexeme>, behind: seq<Lexeme>, j: nat, after: seq<Lexeme>, count: nat)
    requires FoundAt(inner, j, after, count)
    ensures FoundAt(before + inner + behind, |before| + j, after, |TokensOf(before)| + count)
  {
    var all := before + inner + behind;
    assert all[..|before| + j] == before + inner[..j];
    TokensOfConcat(before, inner[..j]);
    assert all[|before| + j + 1..] == inner[j + 1..] + behind;
  }

  lemma FoundHere(before: seq<Lexeme>, after: seq<Lexeme>, rest: seq<Lexeme>)
    ensures FoundAt(before + [Tok(Text(DATA))] + after + rest, |before|, after, |TokensOf(before)| + 1)
  {
    var all := before + [Tok(Text(DATA))] + after + rest;
    assert all[..|before|] == before && all[|before| + 1..] == after + rest;
  }

  lemma {:induction false} KeyFound(v: Json) returns (j: nat)
    requires FirstDataKey(v).Some?
    ensures FoundAt(Lexemes(v), j, [Colon] + Lexemes(FirstDataValue(v)), FirstDataKey(v).value)
    decreases v
  {
    hide FoundAt;
    var after := [Colon] + Lexemes(FirstDataValue(v));
    match v
    case Arr(items) =>
      j := KeyInItems(items, []);
      OneToken(Tok(OpenArray));
      Moved([Tok(OpenArray)], ItemLexemes(items, []), [Tok(CloseArray)], j, after, FirstInItems(items).value);
      j := 1 + j;
    case Obj(members) =>
      j := KeyInMembers(members, []);
      OneToken(Tok(OpenObject));
      Moved([Tok(OpenObject)], MemberLexemes(members, []), [Tok(CloseObject)], j, after, FirstInMembers(members).value);
      j := 1 + j;
  }

  lemma {:induction false} KeyInItems(items: seq<Json>, before: seq<Lexeme>) returns (j: nat)
    requires FirstInItems(items).Some? && TokensOf(before) == []
    ensures FoundAt(ItemLexemes(items, before), j, [Colon] + Lexemes(FirstValueOf(items)), FirstInItems(items).value)
    decreases items
  {
    hide FoundAt, Lexemes, Tokens, TokensOf, FirstDataKey, FirstDataValue;
    var after := [Colon] + Lexemes(FirstValueOf(items));
    var first, rest := Lexemes(items[0]), ItemLexemes(items[1..], [Comma]);
    if FirstDataKey(items[0]).Some? {
      j := KeyFound(items[0]);
      Moved(before, first, rest, j, after, FirstDataKey(items[0]).value);
      j := |before| + j;
    } else {
      OneToken(Comma);
      j := KeyInItems(items[1..], [Comma]);
      Moved(before + first, rest, [], j, after, FirstInItems(items[1..]).value);
      TokensOfConcat(before, first);
      ValueTokens(items[0]);
      assert before + first + rest + [] == before + first + rest;
      j := |before + first| + j;
    }
  }

  lemma {:induction false} KeyInMembers(members: seq<Member>, before: seq<Lexeme>) returns (j: nat)
    requires FirstInMembers(members).Some? && TokensOf(before) == []
    ensures FoundAt(MemberLexemes(members, before), j, [Colon] + Lexemes(FirstValueIn(members)),
                    FirstInMembers(members).value)
    decreases members, 0
  {
    hide FoundAt, Lexemes, Tokens, TokensOf, FirstDataKey, FirstDataValue;
    var m := members[0];
    var key, value, rest := [Tok(Text(m.key)), Colon], Lexemes(m.value), MemberLexemes(members[1..], [Comma]);
    var after, all := [Colon] + Lexemes(FirstValueIn(members)), before + key + value + rest;
    if m.key == DATA {
      j := |before|;
      FoundHere(before, [Colon] + value, rest);
      assert all == before + [Tok(Text(DATA))] + ([Colon] + value) + rest;
    } else {
      KeyTokens(m.key);
      TokensOfConcat(before, key);
      if FirstDataKey(m.value).Some? {
        j := KeyFound(m.value);
        Moved(before + key, value, rest, j, after, FirstDataKey(m.value).value);
        j := |before + key| + j;
      } else {
        OneToken(Comma);
        j := KeyInMembers(members[1..], [Comma]);
        Moved(before + key + value, rest, [], j, after, FirstInMembers(members[1..]).value);
        TokensOfConcat(before + key, value);
        ValueTokens(m.value);
        assert all + [] == all;
        j := |before + key + value| + j;
      }
    }
  }

  /** What can follow an element of an array. */
  predicate FollowsItem(after: seq<Lexeme>) { after == [Comma] || after == [Tok(CloseArray)] }

  lemma FirstLexeme(v: Json)
    ensures Lexemes(v)[0].Tok? && (Lexemes(v)[0].token.Text? <==> v.Str?)
    ensures v.Str? ==> Lexemes(v) == [Tok(Text(v.s))]
  {
  }

  lemma BehindItem(items: seq<Json>, k: nat)
    requires k <= |items|
    ensures var rest := ItemLexemes(items[k..], [Comma]) + [Tok(CloseArray)]; FollowsItem(rest[..1])
  {
  }

  lemma {:induction false} DecoyFound(v: Json) returns (j: nat, after: seq<Lexeme>)
    requires FirstDecoy(v).Some?
    ensures FollowsItem(after) && FoundAt(Lexemes(v), j, after, FirstDecoy(v).value)
    decreases v
  {
    hide FoundAt, FollowsItem;
    match v
    case Arr(items) =>
      var inner := ItemLexemes(items, []) + [Tok(CloseArray)];
      assert items[0..] == items;
      j, after := DecoyFoundFrom(items, 0, []);
      OneToken(Tok(OpenArray));
      Moved([Tok(OpenArray)], inner, [], j, after, FirstDecoyFrom(items, 0).value);
      assert [Tok(OpenArray)] + inner + [] == Lexemes(v);
      j := 1 + j;
    case Obj(members) =>
      j, after := DecoyFoundIn(members, []);
      OneToken(Tok(OpenObject));
      Moved([Tok(OpenObject)], MemberLexemes(members, []), [Tok(CloseObject)], j, after, FirstDecoyIn(members).value);
      j := 1 + j;
  }

  lemma {:induction false} DecoyFoundFrom(items: seq<Json>, k: nat, before: seq<Lexeme>)
    returns (j: nat, after: seq<Lexeme>)
    requires k <= |items| && FirstDecoyFrom(items, k).Some? && TokensOf(before) == []
    ensures FollowsItem(after)
    ensures FoundAt(ItemLexemes(items[k..], before) + [Tok(CloseArray)], j, after, FirstDecoyFrom(items, k).value)
    decreases items, |items| - k
  {
    hide FoundAt, FollowsItem, Lexemes, Tokens, TokensOf, FirstDecoy, InKeyPlace;
    assert items[k..][1..] == items[k + 1..];
    var first, rest := Lexemes(items[k]), ItemLexemes(items[k + 1..], [Comma]) + [Tok(CloseArray)];
    var all := ItemLexemes(items[k..], before) + [Tok(CloseArray)];
    assert all == before + first + rest;
    if IsDecoy(items, k) {
      FirstLexeme(items[k]);
      BehindItem(items, k + 1);
      j, after := |before|, rest[..1];
      FoundHere(before, after, rest[1..]);
      assert all == before + [Tok(Text(DATA))] + after + rest[1..];
    } else {
      if FirstDecoy(items[k]).Some? {
        j, after := DecoyFound(items[k]);
        Moved(before, first, rest, j, after, FirstDecoy(items[k]).value);
        j := |before| + j;
      } else {
        OneToken(Comma);
        j, after := DecoyFoundFrom(items, k + 1, [Comma]);
        Moved(before + first, rest, [], j, after, FirstDecoyFrom(items, k + 1).value);
        TokensOfConcat(before, first);
        ValueTokens(items[k]);
        assert all + [] == all;
        j := |before + first| + j;
      }
    }
  }

  lemma {:induction false} DecoyFoundIn(members: seq<Member>, before: seq<Lexeme>) returns (j: nat, after: seq<Lexeme>)
    requires FirstDecoyIn(members).Some? && TokensOf(before) == []
    ensures FollowsItem(after) && FoundAt(MemberLexemes(members, before), j, after, FirstDecoyIn(members).value)
    decreases members, 0
  {
    hide FoundAt, FollowsItem, Lexemes, Tokens, TokensOf, FirstDecoy;
    var m := members[0];
    var key, value, rest := [Tok(Text(m.key)), Colon], Lexemes(m.value), MemberLexemes(members[1..], [Comma]);
    KeyTokens(m.key);
    TokensOfConcat(before, key);
    if FirstDecoy(m.value).Some? {
      j, after := DecoyFound(m.value);
      Moved(before + key, value, rest, j, after, FirstDecoy(m.value).value);
      j := |before + key| + j;
    } else {
      OneToken(Comma);
      j, after := DecoyFoundIn(members[1..], [Comma]);
      Moved(before + key + value, rest, [], j, after, FirstDecoyIn(members[1..]).value);
      TokensOfConcat(before + key, value);
      ValueTokens(m.value);
      assert before + key + value + rest + [] == before + key + value + rest;
      j := |before + key + value| + j;
    }
  }

  // ----- reading the data of a document -----

  /** The first key `data` has a string value, and no decoy comes before it. */
  predicate Readable(doc: Json) {
    !DecoyFirst(doc) && FirstDataKey(doc).Some? && FirstDataValue(doc).Str?
  }

  /** The bytes of the first `data` string. */
  function DataBytes(doc: Json): Bytes
    requires Readable(doc)
  {
    Utf8All(ScalarsOf(FirstDataValue(doc).s))
  }

  lemma GapFirst(placed: Placed, rest: Bytes, lexeme: Lexeme)
    requires AllSpace(placed.gap) && Writes(lexeme, placed.text)
    ensures placed.text != [] && SkipSpace(placed.gap + (placed.text + rest)) == placed.text + rest
  {
    FirstByte(lexeme, placed.text);
    SkipGap(placed.gap, placed.text + rest);
  }

  /** Behind a string that something else than a colon follows. */
  lemma NoStart(lexemes: seq<Lexeme>, placed: seq<Placed>, tail: Bytes)
    requires Writing(lexemes, placed) && lexemes != [] && lexemes[0] != Colon
    ensures ValueStart(Flat(placed) + tail) == None
  {
    FlatFirst(placed, tail);
    FirstByte(lexemes[0], placed[0].text);
    GapFirst(placed[0], Flat(placed[1..]) + tail, lexemes[0]);
  }

  /** Behind a key. */
  lemma StartExact(lexemes: seq<Lexeme>, placed: seq<Placed>, tail: Bytes)
    requires Writing(lexemes, placed) && |lexemes| >= 2 && lexemes[0] == Colon
    ensures var r := ValueStart(Flat(placed) + tail);
            && (r.Some? <==> lexemes[1].Tok? && lexemes[1].token.Text?)
            && (r.Some? ==>
                  Decode(r.value) == Decoded(Utf8All(ScalarsOf(lexemes[1].token.s)), Closed(Flat(placed[2..]) + tail)))
  {
    hide Decode, Flat;
    var rest := Flat(placed[2..]) + tail;
    FlatFirst(placed, tail);
    FlatFirst(placed[1..], tail);
    assert placed[1..][1..] == placed[2..];
    GapFirst(placed[0], Flat(placed[1..]) + tail, Colon);
    assert (placed[0].text + (Flat(placed[1..]) + tail))[1..] == Flat(placed[1..]) + tail;
    FirstByte(lexemes[1], placed[1].text);
    GapFirst(placed[1], rest, lexemes[1]);
    if lexemes[1].Tok? && lexemes[1].token.Text? {
      var s := lexemes[1].token.s;
      var spellings :| WritesString(s, spellings, placed[1].text);
      StringLexed(s, spellings, placed[1].text, rest);
    }
  }

  lemma WritingBehind(lexemes: seq<Lexeme>, placed: seq<Placed>, j: nat)
    requires Writing(lexemes, placed) && j <= |lexemes|
    ensures Writing(lexemes[j..], placed[j..])
  {
  }

  /** What is behind the place the scan stops at. */
  lemma StopText(lexemes: seq<Lexeme>, placed: seq<Placed>, tail: Bytes, j: nat, after: seq<Lexeme>, count: nat)
    requires Writing(lexemes, placed) && AllSpace(tail) && Apart(lexemes) && FoundAt(lexemes, j, after, count)
    requires FirstStop(START, TokensOf(lexemes)) == Some(count)
    ensures DataText(Flat(placed) + tail) == ValueStart(Flat(placed[j + 1..]) + tail)
    ensures Writing(lexemes[j + 1..], placed[j + 1..])
  {
    hide NextToken, Writes, Flat, FirstStop, ValueStart, LexAll, TokensIn;
    Reading(lexemes, placed, tail);
    Behind(lexemes, placed, tail, j);
    WritingBehind(lexemes, placed, j + 1);
  }

  /** Whether the text of a document leads to a string, and to which. */
  lemma DataTextExact(members: seq<Member>, input: Bytes)
    requires IsDocument(input, Obj(members))
    ensures var doc := Obj(members);
            && (DataText(input).Some? <==> Readable(doc))
            && (Readable(doc) ==>
                  var d := Decode(DataText(input).value); d.ending.Closed? && d.bytes == DataBytes(doc))
  {
    hide NextToken, Writes, Flat, FirstStop, ValueStart, Decode, FirstDecoy, FirstDataKey, FirstDataValue, Tokens,
      TokensOf, LexAll, Utf8All;
    var doc := Obj(members);
    var placed, tail :| Writing(Lexemes(doc), placed) && AllSpace(tail) && input == Flat(placed) + tail;
    var lexemes := Lexemes(doc);
    ValueApart(doc);
    ValueTokens(doc);
    ScanExact(members);
    if DecoyFirst(doc) {
      var j, after := DecoyFound(doc);
      StopText(lexemes, placed, tail, j, after, FirstDecoy(doc).value);
      NoStart(lexemes[j + 1..], placed[j + 1..], tail);
    } else if FirstDataKey(doc).Some? {
      var j := KeyFound(doc);
      var value := FirstDataValue(doc);
      StopText(lexemes, placed, tail, j, [Colon] + Lexemes(value), FirstDataKey(doc).value);
      FirstLexeme(value);
      StartExact(lexemes[j + 1..], placed[j + 1..], tail);
    } else {
      Reading(lexemes, placed, tail);
    }
  }

  /** Opening the data of a module file and reading it with buffers of the given sizes. */
  method ReadModuleData(input: Bytes, sizes: seq<nat>, ghost members: seq<Member>)
    returns (found: bool, out: Bytes, err: Option<ReadError>)
    requires IsDocument(input, Obj(members))
    ensures found <==> Readable(Obj(members))
    ensures found ==>
              var data := DataBytes(Obj(members));
              && (err.Some? <==> |data| < Total(sizes))
              && (err == None ==> |out| == Total(sizes) && out <= data)
              && (err.Some? ==> out == data && err == Some(Eof))
  {
    hide DataText, Decode, DataBytes, Readable, IsDocument;
    DataTextExact(members, input);
    var reader := NewModuleDataReader(input);
    if reader.None? {
      return false, [], None;
    }
    found := true;
    out, err := reader.value.ReadThrough(sizes);
  }
}
