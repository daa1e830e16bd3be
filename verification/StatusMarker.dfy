/** Reading the HTTP status that `curl -w` appends to a sandbox response. */
module StatusMarker {
  import opened Wrappers
  import opened GoStrings

  const MARKER := "\n__STATUS__:"
  const MAX_INT64 := 0x7FFF_FFFF_FFFF_FFFF

  // ----- the code -----

  datatype ParseError = MissingMarker | BadStatus

  datatype Response = Response(status: int, body: string)

  ghost predicate OccursAt(s: string, sub: string, i: int) {
    0 <= i && i + |sub| <= |s| && s[i..i + |sub|] == sub
  }

  /** `strings.LastIndex` */
  method LastIndex(s: string, sub: string) returns (idx: int)
    ensures idx == -1 ==> forall i :: !OccursAt(s, sub, i)
    ensures idx != -1 ==> OccursAt(s, sub, idx) && forall i | idx < i :: !OccursAt(s, sub, i)
  {
    idx := |s| - |sub|;
    while idx >= 0
      invariant -1 <= idx || |s| < |sub|
      invariant forall i | idx < i :: !OccursAt(s, sub, i)
    {
      if s[idx..idx + |sub|] == sub {
        return;
      }
      idx := idx - 1;
    }
    idx := -1;
  }

  predicate IsDigit(c: char) { '0' <= c <= '9' }

  function DigitValue(c: char): nat
    requires IsDigit(c)
  {
    c as nat - '0' as nat
  }

  function Digits(s: string): Option<nat> {
    if s == "" then Some(0)
    else if !IsDigit(s[|s| - 1]) then None
    else
      var high := Digits(s[..|s| - 1]);
      if high.None? then None else Some(10 * high.value + DigitValue(s[|s| - 1]))
  }

  /** `strconv.Atoi`: an optional sign, at least one digit, and a value that fits 64 bits. */
  function Atoi(s: string): Option<int> {
    var signed := s != "" && (s[0] == '-' || s[0] == '+');
    var text := if signed then s[1..] else s;
    var magnitude := Digits(text);
    if text == "" || magnitude.None? then None
    else
      var value: int := if signed && s[0] == '-' then 0 - magnitude.value else magnitude.value;
      if -MAX_INT64 - 1 <= value <= MAX_INT64 then Some(value) else None
  }

  /** The body is everything before the last marker; the status is what follows it. */
  ghost predicate ParsesTo(output: string, r: Result<Response, ParseError>) {
    && ((forall i :: !OccursAt(output, MARKER, i)) ==> r == Err(MissingMarker))
    && forall i | OccursAt(output, MARKER, i) && (forall j | i < j :: !OccursAt(output, MARKER, j)) ::
         r == match Atoi(TrimSpace(output[i + |MARKER|..]))
              case Some(code) => Ok(Response(code, output[..i]))
              case None => Err(BadStatus)
  }

  method ParseCurlOutput(output: string) returns (r: Result<Response, ParseError>)
    ensures ParsesTo(output, r)
  {
    var idx := LastIndex(output, MARKER);
    if idx == -1 {
      return Err(MissingMarker);
    }
    var status := Atoi(TrimSpace(output[idx + |MARKER|..]));
    if status.None? {
      return Err(BadStatus);
    }
    r := Ok(Response(status.value, output[..idx]));
  }

  // ----- what curl writes -----

  function Decimal(n: nat): (s: string)
    ensures s != "" && forall c | c in s :: IsDigit(c)
  {
    (if n < 10 then "" else Decimal(n / 10)) + [('0' as nat + n % 10) as char]
  }

  // ----- proofs -----

  lemma {:induction false} DigitsOfDecimal(n: nat)
    ensures Digits(Decimal(n)) == Some(n)
  {
    var s := Decimal(n);
    assert DigitValue(s[|s| - 1]) == n % 10;
    if n < 10 {
      assert s[..|s| - 1] == "";
    } else {
      assert s[..|s| - 1] == Decimal(n / 10);
      DigitsOfDecimal(n / 10);
    }
  }

  function Zeros(k: nat): string { seq(k, _ => '0') }

  lemma {:induction false} LeadingZeros(k: nat, s: string)
    ensures Digits(Zeros(k) + s) == Digits(s)
    decreases |s|, k
  {
    var whole := Zeros(k) + s;
    if s != "" {
      assert whole[..|whole| - 1] == Zeros(k) + s[..|s| - 1];
      LeadingZeros(k, s[..|s| - 1]);
    } else if k > 0 {
      assert whole[..k - 1] == Zeros(k - 1) + s;
      LeadingZeros(k - 1, s);
    }
  }

  lemma {:induction false} DigitsText(s: string) returns (k: nat)
    requires s != "" && Digits(s).Some?
    ensures s == Zeros(k) + Decimal(Digits(s).value)
  {
    var init, last := s[..|s| - 1], s[|s| - 1];
    k := 0;
    assert s == init + [last] && [(('0' as nat) + DigitValue(last)) as char] == [last];
    if init != "" {
      k := DigitsText(init);
      var high := Digits(init).value;
      if high == 0 {
        assert init == Zeros(k + 1);
        k := k + 1;
      } else {
        assert Decimal(Digits(s).value) == Decimal(high) + [last];
      }
    }
  }

  predicate IsInt64(value: int) { -0x8000_0000_0000_0000 <= value < 0x8000_0000_0000_0000 }

  /** The text is the number in decimal, perhaps with a sign and leading zeros. */
  ghost predicate Writes(s: string, value: int) {
    exists sign, k: nat ::
      && s == sign + Zeros(k) + Decimal(if value < 0 then 0 - value else value)
      && (sign == "" || sign == "+" || sign == "-") && (value < 0 ==> sign == "-") && (value > 0 ==> sign != "-")
  }

  lemma SignedDigits(sign: string, text: string, n: nat)
    requires sign == "" || sign == "+" || sign == "-"
    requires text != "" && text[0] != '-' && text[0] != '+' && Digits(text) == Some(n)
    ensures var value := if sign == "-" then 0 - n else n;
            Atoi(sign + text) == (if IsInt64(value) then Some(value) else None)
  {
    hide Digits;
    assert sign != "" ==> (sign + text)[1..] == text;
    assert sign == "" ==> sign + text == text;
  }

  lemma FirstDigit(k: nat, n: nat)
    ensures var text := Zeros(k) + Decimal(n);
            text != "" && text[0] != '-' && text[0] != '+'
  {
    var text := Zeros(k) + Decimal(n);
    assert Decimal(n)[0] in Decimal(n);
    assert text[0] == if k > 0 then '0' else Decimal(n)[0];
  }

  lemma SignedText(sign: string, k: nat, n: nat)
    requires sign == "" || sign == "+" || sign == "-"
    ensures var value := if sign == "-" then 0 - n else n;
            Atoi(sign + Zeros(k) + Decimal(n)) == (if IsInt64(value) then Some(value) else None)
  {
    hide Atoi, Digits, Decimal, Zeros;
    LeadingZeros(k, Decimal(n));
    DigitsOfDecimal(n);
    FirstDigit(k, n);
    SignedDigits(sign, Zeros(k) + Decimal(n), n);
    Regroup(sign, Zeros(k), Decimal(n));
  }

  /** Exactly the decimal numbers of 64 bits are read, and as themselves. */
  lemma AtoiExact(s: string, value: int)
    ensures Atoi(s) == Some(value) <==> Writes(s, value) && IsInt64(value)
  {
    hide Decimal, Zeros;
    if Atoi(s) == Some(value) {
      var sign := if s[0] == '-' || s[0] == '+' then [s[0]] else "";
      var text := s[|sign|..];
      var k := DigitsText(text);
      Regroup(sign, Zeros(k), Decimal(Digits(text).value));
      assert s == sign + text;
    }
    if Writes(s, value) {
      var sign, k: nat :|
        && s == sign + Zeros(k) + Decimal(if value < 0 then 0 - value else value)
        && (sign == "" || sign == "+" || sign == "-") && (value < 0 ==> sign == "-") && (value > 0 ==> sign != "-");
      SignedText(sign, k, if value < 0 then 0 - value else value);
    }
  }

  lemma DecimalNeedsNoTrim(code: nat)
    ensures TrimSpace(Decimal(code)) == Decimal(code)
  {
    var s := Decimal(code);
    assert s[0] in s && s[|s| - 1] in s;
  }

  lemma StatusReadsBack(code: nat)
    requires code <= MAX_INT64
    ensures Atoi(Decimal(code)) == Some(code)
  {
    var s := Decimal(code);
    assert s[0] in s;
    DigitsOfDecimal(code);
  }

  /** A text that starts with a newline and has no other one cannot start again later. */
  lemma NoLaterOccurrence(body: string, sub: string, rest: string)
    requires sub != "" && sub[0] == '\n' && '\n' !in sub[1..] && '\n' !in rest
    ensures OccursAt(body + sub + rest, sub, |body|)
    ensures forall i | |body| < i :: !OccursAt(body + sub + rest, sub, i)
  {
    var output := body + sub + rest;
    forall i | |body| < i && i + |sub| <= |output|
      ensures output[i] != '\n'
    {
      var k := i - |body|;
      assert output[i] == (sub + rest)[k] == (sub[1..] + rest)[k - 1];
    }
    forall i | |body| < i
      ensures !OccursAt(output, sub, i)
    {
      if i + |sub| <= |output| {
        assert output[i..i + |sub|][0] == output[i];
      }
    }
  }

  lemma LastMarker(body: string, rest: string)
    requires '\n' !in rest
    ensures var output := body + MARKER + rest;
            && OccursAt(output, MARKER, |body|) && (forall i | |body| < i :: !OccursAt(output, MARKER, i))
            && output[|body| + |MARKER|..] == rest && output[..|body|] == body
  {
    NoLaterOccurrence(body, MARKER, rest);
  }

  lemma NoNewline(code: nat)
    ensures '\n' !in Decimal(code)
  {
  }

  /** Parsing undoes the suffix, for every body, including one that contains the marker. */
  lemma SuffixParsesBack(body: string, code: nat, r: Result<Response, ParseError>)
    requires code < 0x8000_0000_0000_0000
    ensures ParsesTo(body + "\n__STATUS__:" + Decimal(code), r) <==> r == Ok(Response(code, body))
  {
    hide OccursAt, TrimSpace, Atoi, Decimal;
    var output := body + MARKER + Decimal(code);
    NoNewline(code);
    LastMarker(body, Decimal(code));
    DecimalNeedsNoTrim(code);
    StatusReadsBack(code);
    assert forall i | OccursAt(output, MARKER, i) && (forall j | i < j :: !OccursAt(output, MARKER, j)) :: i == |body|;
  }

  lemma TrimRightKeeps(s: string)
    requires s != "" && !IsSpace(s[|s| - 1])
    ensures TrimRightSpace(s) == s
  {
  }

  lemma TrimLeftMarker(sub: string, rest: string)
    requires |sub| > 1 && sub[0] == '\n' && !IsSpace(sub[1])
    ensures TrimLeftSpace(sub + rest) == sub[1..] + rest
  {
    assert (sub + rest)[1..] == sub[1..] + rest;
  }

  /** Trimming `body + sub + rest`, where `sub` is a newline and then a visible character. */
  lemma TrimmedText(body: string, sub: string, rest: string)
    requires |sub| > 1 && sub[0] == '\n' && !IsSpace(sub[1])
    requires rest != "" && !IsSpace(rest[|rest| - 1])
    ensures TrimSpace(body + sub + rest)
         == if AllSpace(body) then sub[1..] + rest else TrimLeftSpace(body) + sub + rest
  {
    hide IsSpace, TrimLeftSpace, TrimRightSpace, AllSpace;
    var tail := sub + rest;
    var kept := if AllSpace(body) then sub[1..] + rest else TrimLeftSpace(body) + tail;
    assert TrimLeftSpace(body + tail) == kept by {
      TrimLeftPrefix(body, tail);
      TrimLeftMarker(sub, rest);
    }
    assert kept[|kept| - 1] == rest[|rest| - 1];
    TrimRightKeeps(kept);
    Regroup(body, sub, rest);
    Regroup(TrimLeftSpace(body), sub, rest);
  }

  lemma NewlineFreeHasNoMarker(text: string, sub: string)
    requires sub != "" && sub[0] == '\n' && '\n' !in text
    ensures forall i :: !OccursAt(text, sub, i)
  {
    forall i
      ensures !OccursAt(text, sub, i)
    {
      if 0 <= i && i + |sub| <= |text| {
        assert text[i..i + |sub|][0] == text[i] && text[i] in text;
      }
    }
  }

  lemma TrimmedMarkerText(body: string, code: nat)
    ensures TrimSpace(body + MARKER + Decimal(code))
         == if AllSpace(body) then MARKER[1..] + Decimal(code) else TrimLeftSpace(body) + MARKER + Decimal(code)
  {
    var digits := Decimal(code);
    assert digits[|digits| - 1] in digits;
    TrimmedText(body, MARKER, digits);
  }

  /** What the parser makes of the trimmed output. */
  lemma TrimmedOutputParse(body: string, code: nat, r: Result<Response, ParseError>)
    requires code < 0x8000_0000_0000_0000
    ensures ParsesTo(TrimSpace(body + "\n__STATUS__:" + Decimal(code)), r) <==>
              r == if AllSpace(body) then Err(MissingMarker) else Ok(Response(code, TrimLeftSpace(body)))
  {
    hide ParsesTo, TrimSpace, TrimLeftSpace, Decimal;
    TrimmedMarkerText(body, code);
    if AllSpace(body) {
      BlankBodyParse(Decimal(code), r);
    } else {
      SuffixParsesBack(TrimLeftSpace(body), code, r);
    }
  }

  /** The sandbox backend trims a command's output before it is parsed, and the marker
      starts with a newline.  The response survives exactly when the body starts with a
      character that is not white space. */
  lemma TrimmedOutputExact(body: string, code: nat)
    requires code < 0x8000_0000_0000_0000
    ensures ParsesTo(TrimSpace(body + "\n__STATUS__:" + Decimal(code)), Ok(Response(code, body))) <==>
              body != "" && !IsSpace(body[0])
  {
    hide ParsesTo, TrimSpace, Decimal;
    TrimmedOutputParse(body, code, Ok(Response(code, body)));
    if body != "" {
      assert body[0] in body;
    }
  }

  lemma BlankBodyParse(digits: string, r: Result<Response, ParseError>)
    requires '\n' !in digits
    ensures ParsesTo(MARKER[1..] + digits, r) <==> r == Err(MissingMarker)
  {
    assert '\n' !in MARKER[1..];
    NewlineFreeHasNoMarker(MARKER[1..] + digits, MARKER);
  }

  /** A health endpoint that answers 200 with no body is read as a broken response. */
  lemma EmptyBodyIsLost(r: Result<Response, ParseError>)
    ensures ParsesTo(TrimSpace("" + MARKER + Decimal(200)), r) <==> r == Err(MissingMarker)
  {
    hide ParsesTo, TrimSpace, Decimal;
    TrimmedOutputParse("", 200, r);
  }
}
