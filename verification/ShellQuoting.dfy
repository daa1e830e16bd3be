/** Shell quoting of a sandbox launch command, against an independent reading of the Shell
    Command Language (IEEE Std 1003.1-2017): its tokens (sections 2.2, 2.3 and 2.6.2) and
    its lists of commands with redirections (sections 2.7 and 2.9). */
module ShellQuoting {
  import opened Wrappers
  import opened GoStrings

  // ----- the code -----

  /** An apostrophe is written by closing the quotes, quoting it in double quotes,
      and opening the quotes again. */
  const APOSTROPHE := "'\"'\"'"

  function EscapeArg(value: string): string {
    if value == "" then "''" else "'" + ReplaceAll(value, "'", APOSTROPHE) + "'"
  }

  /** What the append loop of `shellEscapeCommand` builds before it joins with blanks. */
  function EscapeAll(args: seq<string>): seq<string> {
    seq(|args|, i requires 0 <= i < |args| => EscapeArg(args[i]))
  }

  method EscapeCommand(args: seq<string>) returns (command: string)
    ensures command == Join(EscapeAll(args), ' ')
    ensures ShellTokens(command) == Some(ArgTokens(args))
  {
    var quoted: seq<string> := [];
    for i := 0 to |args|
      invariant quoted == EscapeAll(args)[..i]
    {
      quoted := quoted + [EscapeArg(args[i])];
    }
    assert quoted == EscapeAll(args);
    command := Join(quoted, ' ');
    CommandRoundTrip(args);
  }

  /** The command the sandbox runs; an image with neither ENTRYPOINT nor CMD is refused. */
  method BuildLaunchCommand(entrypoint: seq<string>, cmd: seq<string>) returns (r: Result<string, string>)
    ensures r.Err? <==> entrypoint == [] && cmd == []
    ensures r.Ok? ==> r.value == LAUNCH_PREFIX + Join(EscapeAll(entrypoint + cmd), ' ') + LAUNCH_SUFFIX
    ensures r.Ok? ==> ShellReads(r.value) == Some(LaunchLine(entrypoint + cmd))
  {
    var argv := entrypoint + cmd;
    if |argv| == 0 {
      return Err("image has no ENTRYPOINT or CMD to launch");
    }
    var command := EscapeCommand(argv);
    LaunchReadsBack(argv);
    r := Ok(LAUNCH_PREFIX + command + LAUNCH_SUFFIX);
  }

  const LAUNCH_PREFIX := "mkdir -p \"${TMPDIR:-/tmp}\" && "
  const LAUNCH_SUFFIX := " >\"${TMPDIR:-/tmp}" + "/vmdocker-agent.log\" 2>&1 &"

  // ----- the shell's tokens -----

  /** A character, or `${name:-otherwise}` inside double quotes. */
  datatype Part = Char(c: char) | Default(name: string, otherwise: string)

  /** A word after quote removal.  A word with quotes is never a reserved word, an alias or
      the number of a redirection. */
  datatype Word = Word(parts: seq<Part>, quoted: bool)

  datatype Token = WordToken(word: Word) | IoNumber(digits: string) | Operator(op: string)

  datatype Mode = Plain | InSingle | InDouble

  /** Characters that mean something else to the shell when they are not quoted
      (section 2.2), a newline included.  Of the operators only those with `&` and `>` are
      read; the others are not part of this reading. */
  predicate NeedsQuoting(c: char) {
    c in "|&;<>()$`\\*?[#~=%\n"
  }

  predicate IsBlank(c: char) { c == ' ' || c == '\t' }

  /** The longest operator at the start. */
  function OperatorAt(s: string): (op: string)
    requires s != "" && (s[0] == '&' || s[0] == '>')
    ensures 1 <= |op| <= |s|
  {
    if |s| == 1 then s[..1]
    else if s[0] == '&' then (if s[1] == '&' then s[..2] else s[..1])
    else if s[1] in "&>|" then s[..2]
    else s[..1]
  }

  predicate IsDigits(word: Word) {
    word.parts != [] && !word.quoted && forall p | p in word.parts :: p.Char? && '0' <= p.c <= '9'
  }

  function Digits(word: Word): string
    requires IsDigits(word)
  {
    seq(|word.parts|, i requires 0 <= i < |word.parts| => assert word.parts[i] in word.parts; word.parts[i].c)
  }

  /** A word that ends in front of `next`: digits alone in front of a redirection are its
      number (section 2.10.1). */
  function Ended(word: Word, next: char): Token {
    if next == '>' && IsDigits(word) then IoNumber(Digits(word)) else WordToken(word)
  }

  function Find(s: string, c: char): (r: Option<nat>)
    ensures r.Some? ==> r.value < |s|
  {
    if s == "" then None
    else if s[0] == c then Some(0)
    else
      var r := Find(s[1..], c);
      if r.None? then None else Some(r.value + 1)
  }

  predicate IsName(s: string) {
    && s != "" && !('0' <= s[0] <= '9')
    && forall c | c in s :: c == '_' || '0' <= c <= '9' || 'a' <= c <= 'z' || 'A' <= c <= 'Z'
  }

  /** Inside double quotes this text stands for itself. */
  predicate IsDoublePlain(text: string) {
    forall i | 0 <= i < |text| :: text[i] != '$' && text[i] != '`' && text[i] != '\\' && text[i] != '"'
  }

  /** Reads the rest of `${name:-otherwise}` behind the opening brace: the expansion and
      what follows it.  Other forms of expansion are not read. */
  function Expansion(s: string): (r: Option<(Part, string)>)
    ensures r.Some? ==> |r.value.1| < |s|
  {
    var colon := Find(s, ':');
    if colon.None? || !IsName(s[..colon.value]) then None
    else
      var tail := s[colon.value + 1..];
      var brace := Find(tail, '}');
      if brace.None? || tail[0] != '-' || !StandsForItself(tail[..brace.value]) then None
      else Some((Default(s[..colon.value], tail[1..brace.value]), tail[brace.value + 1..]))
  }

  predicate StandsForItself(text: string) { IsDoublePlain(text) && '\'' !in text }

  function Prepend(token: Token, rest: Option<seq<Token>>): Option<seq<Token>> {
    if rest.None? then None else Some([token] + rest.value)
  }

  function Append(word: Word, part: Part): Word { word.(parts := word.parts + [part]) }

  /** Splits the rest of a command into tokens.  `word` is the word being read, or None
      between words.  None: a quote is never closed, or a form that is not read. */
  function Tokens(s: string, mode: Mode, word: Option<Word>): Option<seq<Token>>
    decreases |s|
  {
    if s == "" then
      if mode != Plain then None
      else if word.Some? then Some([WordToken(word.value)]) else Some([])
    else
      var so := if word.Some? then word.value else Word([], false);
      match mode
      case InSingle =>
        if s[0] == '\'' then Tokens(s[1..], Plain, Some(so)) else Tokens(s[1..], InSingle, Some(Append(so, Char(s[0]))))
      case InDouble =>
        if s[0] == '"' then Tokens(s[1..], Plain, Some(so))
        else if s[0] == '$' then
          if |s| == 1 || s[1] != '{' then None
          else
            var e := Expansion(s[2..]);
            if e.None? then None else Tokens(e.value.1, InDouble, Some(Append(so, e.value.0)))
        else if s[0] == '`' then None
        else if s[0] == '\\' then
          if |s| == 1 then None
          else if s[1] in "$`\"\\" then Tokens(s[2..], InDouble, Some(Append(so, Char(s[1]))))
          else if s[1] == '\n' then Tokens(s[2..], InDouble, Some(so))
          else Tokens(s[1..], InDouble, Some(Append(so, Char('\\'))))
        else Tokens(s[1..], InDouble, Some(Append(so, Char(s[0]))))
      case Plain =>
        if IsBlank(s[0]) then
          var rest := Tokens(s[1..], Plain, None);
          if word.Some? then Prepend(WordToken(word.value), rest) else rest
        else if s[0] == '\'' then Tokens(s[1..], InSingle, Some(so.(quoted := true)))
        else if s[0] == '"' then Tokens(s[1..], InDouble, Some(so.(quoted := true)))
        else if s[0] == '&' || s[0] == '>' then
          var op := OperatorAt(s);
          var rest := Prepend(Operator(op), Tokens(s[|op|..], Plain, None));
          if word.Some? then Prepend(Ended(word.value, s[0]), rest) else rest
        else if NeedsQuoting(s[0]) then None
        else Tokens(s[1..], Plain, Some(Append(so, Char(s[0]))))
  }

  function ShellTokens(command: string): Option<seq<Token>> {
    Tokens(command, Plain, None)
  }

  // ----- the shell's commands -----

  datatype Redirect = Redirect(fd: Option<string>, op: string, target: Word)

  datatype Simple = Simple(words: seq<Word>, redirects: seq<Redirect>)

  const NOTHING := Simple([], [])

  /** Commands joined by `&&`, run in the background or not. */
  datatype CommandLine = CommandLine(steps: seq<Simple>, background: bool)

  predicate Redirects(tokens: seq<Token>) {
    |tokens| >= 2 && tokens[0].Operator? && tokens[0].op in {">", ">&", ">>", ">|"} && tokens[1].WordToken?
  }

  /** Reads the rest of a command line; `current` is the command being read. */
  function Reads(tokens: seq<Token>, current: Simple): Option<CommandLine>
    decreases |tokens|
  {
    if tokens == [] then
      if current == NOTHING then None else Some(CommandLine([current], false))
    else
      match tokens[0]
      case WordToken(w) => Reads(tokens[1..], current.(words := current.words + [w]))
      case IoNumber(n) =>
        if !Redirects(tokens[1..]) then None
        else
          var r := Redirect(Some(n), tokens[1].op, tokens[2].word);
          Reads(tokens[3..], current.(redirects := current.redirects + [r]))
      case Operator(op) =>
        if Redirects(tokens) then
          var r := Redirect(None, op, tokens[1].word);
          Reads(tokens[2..], current.(redirects := current.redirects + [r]))
        else if current == NOTHING then None
        else if op == "&&" then
          var rest := Reads(tokens[1..], NOTHING);
          if rest.None? then None else Some(CommandLine([current] + rest.value.steps, rest.value.background))
        else if op == "&" && |tokens| == 1 then Some(CommandLine([current], true))
        else None
  }

  function ShellReads(command: string): Option<CommandLine> {
    var tokens := ShellTokens(command);
    if tokens.None? then None else Reads(tokens.value, NOTHING)
  }

  // ----- what the launch command says -----

  function Chars(s: string): seq<Part> { seq(|s|, i requires 0 <= i < |s| => Char(s[i])) }

  function Bare(s: string): Word { Word(Chars(s), false) }

  function Quoted(s: string): Word { Word(Chars(s), true) }

  function ArgWords(args: seq<string>): seq<Word> {
    seq(|args|, i requires 0 <= i < |args| => Quoted(args[i]))
  }

  function WordTokens(words: seq<Word>): seq<Token> {
    seq(|words|, i requires 0 <= i < |words| => WordToken(words[i]))
  }

  function ArgTokens(args: seq<string>): seq<Token> {
    WordTokens(ArgWords(args))
  }

  const TEMP_DIR := Default("TMPDIR", "/tmp")

  const LOG_FILE := Word([TEMP_DIR] + Chars("/vmdocker-agent.log"), true)

  /** In the background: make the temporary directory, and if that succeeds run exactly
      `args`, both outputs going to the log file. */
  function LaunchLine(args: seq<string>): CommandLine {
    CommandLine(
      [Simple([Bare("mkdir"), Bare("-p"), Word([TEMP_DIR], true)], []),
       Simple(ArgWords(args), [Redirect(None, ">", LOG_FILE), Redirect(Some("2"), ">&", Bare("1"))])],
      true)
  }

  // ----- proofs: quoted arguments -----

  /** An escaped apostrophe read inside single quotes adds an apostrophe and stays there. */
  lemma ApostropheReadsBack(body: string, so: Word)
    requires so.quoted
    ensures Tokens(APOSTROPHE + body, InSingle, Some(so)) == Tokens(body, InSingle, Some(Append(so, Char('\''))))
  {
    var t1, t2, t3, t4 := ['"', '\'', '"', '\''] + body, ['\'', '"', '\''] + body, ['"', '\''] + body, ['\''] + body;
    var next := Append(so, Char('\''));
    assert APOSTROPHE + body == ['\''] + t1;
    assert (['\''] + t1)[1..] == t1 && t1[1..] == t2 && t2[1..] == t3 && t3[1..] == t4 && t4[1..] == body;
    assert Tokens(['\''] + t1, InSingle, Some(so)) == Tokens(t1, Plain, Some(so));
    assert Tokens(t1, Plain, Some(so)) == Tokens(t2, InDouble, Some(so));
    assert Tokens(t2, InDouble, Some(so)) == Tokens(t3, InDouble, Some(next));
    assert Tokens(t3, InDouble, Some(next)) == Tokens(t4, Plain, Some(next));
    assert Tokens(t4, Plain, Some(next)) == Tokens(body, InSingle, Some(next));
  }

  function AppendAll(word: Word, s: string): Word { word.(parts := word.parts + Chars(s)) }

  lemma AppendFirst(word: Word, s: string)
    requires s != ""
    ensures AppendAll(Append(word, Char(s[0])), s[1..]) == AppendAll(word, s)
  {
  }

  /** Inside single quotes, the escaped text followed by the closing quote adds exactly
      the original text to the current word. */
  lemma {:induction false} EscapedBodyReadsBack(value: string, rest: string, so: Word)
    requires so.quoted
    ensures Tokens(ReplaceAll(value, "'", APOSTROPHE) + "'" + rest, InSingle, Some(so))
         == Tokens(rest, Plain, Some(AppendAll(so, value)))
  {
    var text := ReplaceAll(value, "'", APOSTROPHE) + "'" + rest;
    if value == "" {
      assert text == ['\''] + rest && text[1..] == rest && AppendAll(so, value) == so;
    } else {
      var body := ReplaceAll(value[1..], "'", APOSTROPHE) + "'" + rest;
      EscapedBodyReadsBack(value[1..], rest, Append(so, Char(value[0])));
      AppendFirst(so, value);
      if value[0] == '\'' {
        assert "'" <= value;
        assert text == APOSTROPHE + body;
        ApostropheReadsBack(body, so);
      } else {
        assert !("'" <= value) by { assert "'"[0] != value[0]; }
        assert text == [value[0]] + body && text[1..] == body;
      }
    }
  }

  lemma ArgReadsBack(value: string, rest: string)
    ensures Tokens(EscapeArg(value) + rest, Plain, None) == Tokens(rest, Plain, Some(Quoted(value)))
  {
    hide ReplaceAll;
    var text, so := EscapeArg(value) + rest, Word([], true);
    assert AppendAll(so, value) == Quoted(value);
    if value == "" {
      assert text[1..] == "'" + rest && ("'" + rest)[1..] == rest;
    } else {
      assert text[1..] == ReplaceAll(value, "'", APOSTROPHE) + "'" + rest;
      EscapedBodyReadsBack(value, rest, so);
    }
  }

  function PrependAll(tokens: seq<Token>, rest: Option<seq<Token>>): Option<seq<Token>> {
    if rest.None? then None else Some(tokens + rest.value)
  }

  lemma PrependTwo(token: Token, tokens: seq<Token>, rest: Option<seq<Token>>)
    ensures Prepend(token, PrependAll(tokens, rest)) == PrependAll([token] + tokens, rest)
  {
    if rest.Some? {
      assert [token] + (tokens + rest.value) == [token] + tokens + rest.value;
    }
  }

  lemma PrependNone(rest: Option<seq<Token>>)
    ensures PrependAll([], rest) == rest
  {
    if rest.Some? {
      assert [] + rest.value == rest.value;
    }
  }

  lemma BlankReads(rest: string, word: Word)
    ensures Tokens(" " + rest, Plain, Some(word)) == Prepend(WordToken(word), Tokens(rest, Plain, None))
    ensures Tokens(" " + rest, Plain, None) == Tokens(rest, Plain, None)
  {
    assert (" " + rest)[1..] == rest;
  }

  lemma WordEnds(rest: string, word: Word)
    requires rest == "" || IsBlank(rest[0])
    ensures Tokens(rest, Plain, Some(word)) == Prepend(WordToken(word), Tokens(rest, Plain, None))
  {
    if rest == "" {
      assert [WordToken(word)] + [] == [WordToken(word)];
    }
  }

  /** The quoted arguments in front of a blank or the end read as exactly the arguments. */
  lemma {:induction false} ArgsReadBack(args: seq<string>, rest: string)
    requires rest == "" || IsBlank(rest[0])
    ensures Tokens(Join(EscapeAll(args), ' ') + rest, Plain, None)
         == PrependAll(ArgTokens(args), Tokens(rest, Plain, None))
  {
    hide EscapeArg, Tokens;
    var quoted := EscapeAll(args);
    if |args| == 0 {
      assert Join(quoted, ' ') + rest == rest && ArgTokens(args) == [];
      PrependNone(Tokens(rest, Plain, None));
    } else {
      assert ArgTokens(args) == [WordToken(Quoted(args[0]))] + ArgTokens(args[1..]);
      if |args| == 1 {
        ArgReadsBack(args[0], rest);
        WordEnds(rest, Quoted(args[0]));
        PrependTwo(WordToken(Quoted(args[0])), [], Tokens(rest, Plain, None));
        PrependNone(Tokens(rest, Plain, None));
        assert Join(quoted, ' ') == EscapeArg(args[0]) && ArgTokens(args[1..]) == [];
      } else {
        assert quoted[1..] == EscapeAll(args[1..]);
        var more := Join(quoted[1..], ' ') + rest;
        ArgsReadBack(args[1..], rest);
        ArgReadsBack(args[0], " " + more);
        BlankReads(more, Quoted(args[0]));
        PrependTwo(WordToken(Quoted(args[0])), ArgTokens(args[1..]), Tokens(rest, Plain, None));
        assert Join(quoted, ' ') + rest == quoted[0] + (" " + more);
      }
    }
  }

  /** The shell reads the quoted command as exactly the arguments, whatever they contain. */
  lemma CommandRoundTrip(args: seq<string>)
    ensures ShellTokens(Join(EscapeAll(args), ' ')) == Some(ArgTokens(args))
  {
    var command := Join(EscapeAll(args), ' ');
    ArgsReadBack(args, "");
    assert command + "" == command;
    assert ArgTokens(args) + [] == ArgTokens(args);
  }

  // ----- proofs: the text around them -----

  predicate IsBare(text: string) {
    forall c | c in text :: !NeedsQuoting(c) && !IsBlank(c) && c != '\'' && c != '"'
  }

  lemma {:induction false} BareReadsBack(text: string, rest: string, so: Word)
    requires IsBare(text)
    ensures Tokens(text + rest, Plain, Some(so)) == Tokens(rest, Plain, Some(AppendAll(so, text)))
  {
    if text == "" {
      assert text + rest == rest && AppendAll(so, text) == so;
    } else {
      assert text[0] in text && (text + rest)[1..] == text[1..] + rest;
      BareReadsBack(text[1..], rest, Append(so, Char(text[0])));
      AppendFirst(so, text);
    }
  }

  lemma WordStarts(s: string)
    requires s != "" && IsBare(s[..1])
    ensures Tokens(s, Plain, None) == Tokens(s, Plain, Some(Word([], false)))
  {
    assert s[0] in s[..1];
  }

  /** An unquoted word that starts here. */
  lemma BareStarts(text: string, rest: string)
    requires text != "" && IsBare(text)
    ensures Tokens(text + rest, Plain, None) == Tokens(rest, Plain, Some(Bare(text)))
  {
    hide Tokens, NeedsQuoting;
    assert forall c | c in (text + rest)[..1] :: c in text;
    WordStarts(text + rest);
    BareReadsBack(text, rest, Word([], false));
    assert AppendAll(Word([], false), text) == Bare(text);
  }

  lemma {:induction false} DoubleReadsBack(text: string, rest: string, so: Word)
    requires IsDoublePlain(text)
    ensures Tokens(text + rest, InDouble, Some(so)) == Tokens(rest, InDouble, Some(AppendAll(so, text)))
  {
    if text == "" {
      assert text + rest == rest && AppendAll(so, text) == so;
    } else {
      assert text[0] in text && (text + rest)[1..] == text[1..] + rest;
      DoubleReadsBack(text[1..], rest, Append(so, Char(text[0])));
      AppendFirst(so, text);
    }
  }

  lemma {:induction false} FindAt(a: string, c: char, rest: string)
    requires c !in a
    ensures Find(a + [c] + rest, c) == Some(|a|)
  {
    if a != "" {
      assert (a + [c] + rest)[1..] == a[1..] + [c] + rest;
      FindAt(a[1..], c, rest);
    }
  }

  const EXPANSION := "TMPDIR" + [':'] + ("-/tmp" + ['}'])

  lemma NameAndText()
    ensures IsName("TMPDIR") && ':' !in "TMPDIR"
    ensures StandsForItself("-/tmp") && '}' !in "-/tmp"
  {
  }

  lemma ExpansionReadsBack(rest: string)
    ensures Expansion(EXPANSION + rest) == Some((TEMP_DIR, rest))
  {
    hide Find, IsName, StandsForItself;
    var s, tail := EXPANSION + rest, "-/tmp" + ['}'] + rest;
    NameAndText();
    assert s == "TMPDIR" + [':'] + tail;
    FindAt("TMPDIR", ':', tail);
    FindAt("-/tmp", '}', rest);
    assert s[..6] == "TMPDIR" && s[7..] == tail && tail[..5] == "-/tmp" && tail[1..5] == "/tmp" && tail[6..] == rest;
  }

  /** The opening quote and the expansion. */
  lemma TempDirReads(rest: string)
    ensures Tokens("\"${" + EXPANSION + rest, Plain, None) == Tokens(rest, InDouble, Some(Word([TEMP_DIR], true)))
  {
    hide Expansion;
    var s, s1 := "\"${" + EXPANSION + rest, "${" + EXPANSION + rest;
    ExpansionReadsBack(rest);
    assert s[1..] == s1 && s1[2..] == EXPANSION + rest;
    assert Tokens(s, Plain, None) == Tokens(s1, InDouble, Some(Word([], true)));
    assert Append(Word([], true), TEMP_DIR) == Word([TEMP_DIR], true);
  }

  const LOG_NAME := "/vmdocker-agent.log"

  const BOTH_OUTPUTS := [IoNumber("2"), Operator(">&"), WordToken(Bare("1")), Operator("&")]

  const TO_LOG := [Operator(">"), WordToken(LOG_FILE)] + BOTH_OUTPUTS

  lemma OperatorReads(op: string, rest: string)
    requires op in {"&&", ">", ">&"} && (op == ">" ==> rest != "" && rest[0] !in "&>|")
    ensures Tokens(op + rest, Plain, None) == Prepend(Operator(op), Tokens(rest, Plain, None))
    ensures Tokens(op + rest, Plain, Some(Bare("2"))) ==
            Prepend(Ended(Bare("2"), op[0]), Prepend(Operator(op), Tokens(rest, Plain, None)))
  {
    var s := op + rest;
    assert OperatorAt(s) == op && s[|op|..] == rest;
  }

  lemma TwoIsNumber()
    ensures Ended(Bare("2"), '>') == IoNumber("2")
  {
    assert Bare("2").parts == [Char('2')] && IsDigits(Bare("2"));
    assert Digits(Bare("2")) == "2";
  }

  lemma LastReads()
    ensures Tokens("&", Plain, None) == Some([Operator("&")])
  {
    assert OperatorAt("&") == "&" && "&"[1..] == "";
    assert Tokens("", Plain, None) == Some([]);
    assert [Operator("&")] + [] == [Operator("&")];
  }

  lemma NumbersAreBare()
    ensures IsBare("1") && IsBare("2")
  {
  }

  lemma BothOutputsRead()
    ensures Tokens("2>&1 &", Plain, None) == Some(BOTH_OUTPUTS)
  {
    hide Tokens, NeedsQuoting, IsBare, Ended, IsDigits, Digits;
    var one := WordToken(Bare("1"));
    NumbersAreBare();
    LastReads();
    BlankReads("&", Bare("1"));
    BareStarts("1", " " + "&");
    OperatorReads(">&", "1" + (" " + "&"));
    TwoIsNumber();
    BareStarts("2", ">&" + ("1" + (" " + "&")));
    assert "2" + (">&" + ("1" + (" " + "&"))) == "2>&1 &";
    assert [one] + [Operator("&")] == [one, Operator("&")];
    assert [Operator(">&")] + [one, Operator("&")] == [Operator(">&"), one, Operator("&")];
    assert [IoNumber("2")] + [Operator(">&"), one, Operator("&")] == BOTH_OUTPUTS;
  }

  lemma LogNameIsPlain()
    ensures IsDoublePlain(LOG_NAME)
  {
  }

  lemma QuoteCloses(rest: string, so: Word)
    ensures Tokens("\"" + rest, InDouble, Some(so)) == Tokens(rest, Plain, Some(so))
  {
    assert ("\"" + rest)[1..] == rest;
  }

  /** A word in double quotes that starts with the temporary directory. */
  lemma FileReads(name: string, rest: string)
    requires IsDoublePlain(name)
    ensures Tokens("\"${" + EXPANSION + (name + ("\"" + (" " + rest))), Plain, None)
         == Prepend(WordToken(Word([TEMP_DIR] + Chars(name), true)), Tokens(rest, Plain, None))
  {
    hide Tokens, IsDoublePlain;
    var dir := Word([TEMP_DIR], true);
    TempDirReads(name + ("\"" + (" " + rest)));
    DoubleReadsBack(name, "\"" + (" " + rest), dir);
    QuoteCloses(" " + rest, AppendAll(dir, name));
    BlankReads(rest, AppendAll(dir, name));
  }

  lemma ExpansionText()
    ensures " >\"${TMPDIR:-/tmp}" == " " + (">" + ("\"${" + EXPANSION))
  {
  }

  lemma LogText()
    ensures "/vmdocker-agent.log\" 2>&1 &" == LOG_NAME + ("\"" + (" " + "2>&1 &"))
  {
  }

  lemma SuffixText()
    ensures LAUNCH_SUFFIX == " " + (">" + ("\"${" + EXPANSION + (LOG_NAME + ("\"" + (" " + "2>&1 &")))))
    ensures LAUNCH_SUFFIX[0] == ' '
  {
    ExpansionText();
    LogText();
    SuffixParts("\"${" + EXPANSION, LOG_NAME + ("\"" + (" " + "2>&1 &")));
  }

  lemma SuffixParts(a: string, b: string)
    ensures (" " + (">" + a)) + b == " " + (">" + (a + b))
  {
  }

  lemma SuffixReads()
    ensures Tokens(LAUNCH_SUFFIX, Plain, None) == Some(TO_LOG)
  {
    hide Tokens, IsDoublePlain;
    var file := "\"${" + EXPANSION + (LOG_NAME + ("\"" + (" " + "2>&1 &")));
    BothOutputsRead();
    LogNameIsPlain();
    FileReads(LOG_NAME, "2>&1 &");
    assert file[0] == '"';
    OperatorReads(">", file);
    BlankReads(">" + file, Word([], false));
    SuffixText();
    assert [Operator(">")] + ([WordToken(LOG_FILE)] + BOTH_OUTPUTS) == TO_LOG;
  }

  const MAKE_TEMP_DIR := [Bare("mkdir"), Bare("-p"), Word([TEMP_DIR], true)]

  lemma MkdirIsBare()
    ensures IsBare("mkdir")
  {
  }

  lemma FlagIsBare()
    ensures IsBare("-p") && IsDoublePlain("")
  {
  }

  lemma PrefixText()
    ensures LAUNCH_PREFIX
         == "mkdir" + (" " + ("-p" + (" " + ("\"${" + EXPANSION + ("" + ("\"" + (" " + ("&&" + " "))))))))
  {
  }

  lemma PrefixReads(rest: string)
    ensures Tokens(LAUNCH_PREFIX + rest, Plain, None)
         == Prepend(WordToken(MAKE_TEMP_DIR[0]),
                    Prepend(WordToken(MAKE_TEMP_DIR[1]), Prepend(WordToken(MAKE_TEMP_DIR[2]),
            Prepend(Operator("&&"), Tokens(rest, Plain, None)))))
  {
    hide Tokens, IsBare, IsDoublePlain;
    var and := "&&" + (" " + rest);
    var dir := "\"${" + EXPANSION + ("" + ("\"" + (" " + and)));
    var flag := "-p" + (" " + dir);
    MkdirIsBare();
    FlagIsBare();
    BlankReads(rest, Bare(""));
    OperatorReads("&&", " " + rest);
    FileReads("", and);
    assert [TEMP_DIR] + Chars("") == [TEMP_DIR];
    BlankReads(dir, Bare("-p"));
    BareStarts("-p", " " + dir);
    BlankReads(flag, Bare("mkdir"));
    BareStarts("mkdir", " " + flag);
    PrefixText();
    assert LAUNCH_PREFIX + rest == "mkdir" + (" " + flag);
  }

  lemma {:induction false} WordsRead(words: seq<Word>, rest: seq<Token>, current: Simple)
    ensures Reads(WordTokens(words) + rest, current) == Reads(rest, current.(words := current.words + words))
  {
    if words == [] {
      assert WordTokens(words) + rest == rest && current.words + words == current.words;
    } else {
      assert (WordTokens(words) + rest)[1..] == WordTokens(words[1..]) + rest;
      WordsRead(words[1..], rest, current.(words := current.words + [words[0]]));
      assert current.words + [words[0]] + words[1..] == current.words + words;
    }
  }

  lemma LogRead(words: seq<Word>)
    requires words != []
    ensures Reads(TO_LOG, Simple(words, []))
         == Some(CommandLine([Simple(words, [Redirect(None, ">", LOG_FILE), Redirect(Some("2"), ">&", Bare("1"))])],
                             true))
  {
    var one, both := Redirect(None, ">", LOG_FILE), Redirect(Some("2"), ">&", Bare("1"));
    assert TO_LOG[2..] == BOTH_OUTPUTS && BOTH_OUTPUTS[3..] == [Operator("&")];
    assert Reads([Operator("&")], Simple(words, [one, both])) == Some(CommandLine([Simple(words, [one, both])], true));
    assert [one] + [both] == [one, both] && [] + [one] == [one];
    assert Reads(BOTH_OUTPUTS, Simple(words, [one])) == Reads([Operator("&")], Simple(words, [one] + [both]));
    assert Reads(TO_LOG, Simple(words, [])) == Reads(TO_LOG[2..], Simple(words, [] + [one]));
  }

  lemma TokensTogether(rest: seq<Token>)
    ensures Prepend(WordToken(MAKE_TEMP_DIR[0]),
                    Prepend(WordToken(MAKE_TEMP_DIR[1]), Prepend(WordToken(MAKE_TEMP_DIR[2]),
            Prepend(Operator("&&"), Some(rest))))) == Some(WordTokens(MAKE_TEMP_DIR) + ([Operator("&&")] + rest))
  {
    var a, b, c := WordToken(MAKE_TEMP_DIR[0]), WordToken(MAKE_TEMP_DIR[1]), WordToken(MAKE_TEMP_DIR[2]);
    var more := [Operator("&&")] + rest;
    assert WordTokens(MAKE_TEMP_DIR) == [a, b, c];
    assert [a] + ([b] + ([c] + more)) == [a, b, c] + more;
  }

  lemma {:induction false} AndRead(current: Simple, rest: seq<Token>)
    requires current != NOTHING
    ensures Reads([Operator("&&")] + rest, current) ==
            var line := Reads(rest, NOTHING);
            if line.None? then None else Some(CommandLine([current] + line.value.steps, line.value.background))
  {
    var tokens := [Operator("&&")] + rest;
    assert tokens[0] == Operator("&&") && tokens[1..] == rest;
    assert !Redirects(tokens);
  }

  lemma LaunchTokens(args: seq<string>)
    ensures ShellTokens(LAUNCH_PREFIX + Join(EscapeAll(args), ' ') + LAUNCH_SUFFIX)
         == Some(WordTokens(MAKE_TEMP_DIR) + ([Operator("&&")] + (ArgTokens(args) + TO_LOG)))
  {
    hide Tokens, EscapeAll, Join;
    var command := Join(EscapeAll(args), ' ');
    SuffixText();
    SuffixReads();
    ArgsReadBack(args, LAUNCH_SUFFIX);
    PrefixReads(command + LAUNCH_SUFFIX);
    Regroup(LAUNCH_PREFIX, command, LAUNCH_SUFFIX);
    TokensTogether(ArgTokens(args) + TO_LOG);
  }

  /** The whole launch command reads as the line it is meant to be, whatever the arguments
      contain. */
  lemma LaunchReadsBack(args: seq<string>)
    requires args != []
    ensures ShellReads(LAUNCH_PREFIX + Join(EscapeAll(args), ' ') + LAUNCH_SUFFIX) == Some(LaunchLine(args))
  {
    hide Tokens, Reads, EscapeAll, Join;
    var tokens, words := ArgTokens(args) + TO_LOG, ArgWords(args);
    LaunchTokens(args);
    WordsRead(MAKE_TEMP_DIR, [Operator("&&")] + tokens, NOTHING);
    AndRead(Simple(MAKE_TEMP_DIR, []), tokens);
    WordsRead(words, TO_LOG, NOTHING);
    assert [] + words == words && [] + MAKE_TEMP_DIR == MAKE_TEMP_DIR;
    LogRead(words);
    var line := LaunchLine(args);
    assert [line.steps[0]] + [line.steps[1]] == line.steps;
  }
}
