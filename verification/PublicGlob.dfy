/** The glob compiler of the `public` entries: a regexp made by rewriting quoted text. */
module PublicGlob {
  import opened Wrappers
  import opened GoStrings

  // ----- the glob compiler -----

  predicate IsMeta(c: char) { c in "\\.+*?()|[]{}^$" }

  /** `regexp.QuoteMeta` */
  function QuoteMeta(s: string): string {
    if s == "" then ""
    else (if IsMeta(s[0]) then ['\\', s[0]] else [s[0]]) + QuoteMeta(s[1..])
  }

  function GlobToRegexp(glob: string): string {
    "^" + ReplaceAll(ReplaceAll(QuoteMeta(glob), "\\*", ".*"), "\\?", ".") + "$"
  }

  // ----- regular expressions: the part of Go's syntax such a text can use -----

  datatype Class = Exactly(c: char) | NotNewline

  datatype Item = TextStart | TextEnd | One(cls: Class) | Many(cls: Class)

  predicate IsWordChar(c: char) {
    '0' <= c <= '9' || 'A' <= c <= 'Z' || 'a' <= c <= 'z'
  }

  /** `regexp.Compile`.  None: an error, or syntax other than anchors, characters, escaped
      punctuation, `.` and greedy `*`. */
  function Parse(text: string): Option<seq<Item>>
    decreases |text|, 0
  {
    if text == "" then Some([])
    else if text[0] == '^' then Prepend(TextStart, Parse(text[1..]))
    else if text[0] == '$' then Prepend(TextEnd, Parse(text[1..]))
    else if text[0] == '\\' then
      if |text| == 1 || IsWordChar(text[1]) || text[1] >= '\U{80}' then None
      else ParseAfter(Exactly(text[1]), text[2..])
    else if text[0] == '.' then ParseAfter(NotNewline, text[1..])
    else if IsMeta(text[0]) then None
    else ParseAfter(Exactly(text[0]), text[1..])
  }

  function ParseAfter(cls: Class, rest: string): Option<seq<Item>>
    decreases |rest|, 1
  {
    if rest != "" && rest[0] == '*' then Prepend(Many(cls), Parse(rest[1..]))
    else Prepend(One(cls), Parse(rest))
  }

  function Prepend(item: Item, rest: Option<seq<Item>>): Option<seq<Item>> {
    if rest.None? then None else Some([item] + rest.value)
  }

  predicate InClass(c: char, cls: Class) {
    match cls
    case Exactly(d) => c == d
    case NotNewline => c != '\n'
  }

  /** A match of `items` in `s` that starts at position `i`. */
  predicate MatchAt(items: seq<Item>, s: string, i: nat)
    requires i <= |s|
    decreases |items|, |s| - i
  {
    if items == [] then true
    else
      match items[0]
      case TextStart => i == 0 && MatchAt(items[1..], s, i)
      case TextEnd => i == |s| && MatchAt(items[1..], s, i)
      case One(cls) => i < |s| && InClass(s[i], cls) && MatchAt(items[1..], s, i + 1)
      case Many(cls) =>
        || MatchAt(items[1..], s, i)
        || (i < |s| && InClass(s[i], cls) && MatchAt(items, s, i + 1))
  }

  /** `MatchString` searches for a match anywhere. */
  predicate MatchString(items: seq<Item>, s: string) {
    exists i :: 0 <= i <= |s| && MatchAt(items, s, i)
  }

  /** Whether the compiled form of `glob` matches the path `s`. */
  predicate Accepts(glob: string, s: string) {
    var regexp := Parse(GlobToRegexp(glob));
    regexp.Some? && MatchString(regexp.value, s)
  }

  // ----- what a glob means -----

  predicate IsWild(c: char) { c == '*' || c == '?' }

  predicate HasWild(s: string) { exists c | c in s :: IsWild(c) }

  /** The documented meaning: `*` is any run of characters, `?` any one character. */
  ghost predicate GlobMatches(glob: string, s: string) {
    if glob == "" then s == ""
    else if glob[0] == '*' then exists k :: 0 <= k <= |s| && GlobMatches(glob[1..], s[k..])
    else s != "" && (glob[0] == '?' || s[0] == glob[0]) && GlobMatches(glob[1..], s[1..])
  }

  /** The same, with wildcards that never match a newline. */
  ghost predicate LineMatches(glob: string, s: string) {
    if glob == "" then s == ""
    else if glob[0] == '*' then exists k :: 0 <= k <= |s| && '\n' !in s[..k] && LineMatches(glob[1..], s[k..])
    else s != "" && (if glob[0] == '?' then s[0] != '\n' else s[0] == glob[0]) && LineMatches(glob[1..], s[1..])
  }

  // ----- rewriting the quoted text changes exactly the wildcards -----

  function Unit(c: char): string {
    if c == '*' then ".*" else if c == '?' then "." else if IsMeta(c) then ['\\', c] else [c]
  }

  /** After the first replacement, `?` is still quoted. */
  function StarUnit(c: char): string { if c == '?' then "\\?" else Unit(c) }

  function Units(glob: string): string { if glob == "" then "" else Unit(glob[0]) + Units(glob[1..]) }

  function StarUnits(glob: string): string {
    if glob == "" then "" else StarUnit(glob[0]) + StarUnits(glob[1..])
  }

  lemma SkipOne(c: char, rest: string, pattern: string, replacement: string)
    requires |pattern| == 2
    requires c != pattern[0] || rest == "" || rest[0] != pattern[1]
    ensures ReplaceAll([c] + rest, pattern, replacement) == [c] + ReplaceAll(rest, pattern, replacement)
  {
    assert ([c] + rest)[1..] == rest;
    if rest == "" {
      assert [c] + rest == [c];
    } else {
      assert ([c] + rest)[..2] == [c, rest[0]];
      assert pattern == [pattern[0], pattern[1]];
    }
  }

  lemma SkipQuoted(c: char, rest: string, pattern: string, replacement: string)
    requires |pattern| == 2 && c != pattern[1]
    requires rest == "" || rest[0] != pattern[1]
    ensures ReplaceAll(['\\', c] + rest, pattern, replacement) == ['\\', c] + ReplaceAll(rest, pattern, replacement)
  {
    assert ['\\', c] + rest == ['\\'] + ([c] + rest);
    SkipOne('\\', [c] + rest, pattern, replacement);
    SkipOne(c, rest, pattern, replacement);
    var replaced := ReplaceAll(rest, pattern, replacement);
    assert ['\\'] + ([c] + replaced) == ['\\', c] + replaced;
  }

  lemma ReplaceHead(rest: string, pattern: string, replacement: string)
    requires pattern != ""
    ensures ReplaceAll(pattern + rest, pattern, replacement) == replacement + ReplaceAll(rest, pattern, replacement)
  {
    assert pattern <= pattern + rest && (pattern + rest)[|pattern|..] == rest;
  }

  lemma {:induction false} StarsReplaced(glob: string)
    ensures ReplaceAll(QuoteMeta(glob), "\\*", ".*") == StarUnits(glob)
    ensures QuoteMeta(glob) == "" || QuoteMeta(glob)[0] != '*'
  {
    if glob != "" {
      hide ReplaceAll;
      var c, rest := glob[0], QuoteMeta(glob[1..]);
      StarsReplaced(glob[1..]);
      if c == '*' {
        assert QuoteMeta(glob) == "\\*" + rest;
        ReplaceHead(rest, "\\*", ".*");
      } else if IsMeta(c) {
        assert QuoteMeta(glob) == ['\\', c] + rest;
        SkipQuoted(c, rest, "\\*", ".*");
      } else {
        SkipOne(c, rest, "\\*", ".*");
      }
    }
  }

  lemma QueryReplaced(c: char, rest: string)
    requires rest == "" || rest[0] != '?'
    ensures ReplaceAll(StarUnit(c) + rest, "\\?", ".") == Unit(c) + ReplaceAll(rest, "\\?", ".")
  {
    hide ReplaceAll;
    var done := ReplaceAll(rest, "\\?", ".");
    if c == '?' {
      ReplaceHead(rest, "\\?", ".");
    } else if c == '*' {
      assert ".*" + rest == ['.'] + (['*'] + rest);
      SkipOne('.', ['*'] + rest, "\\?", ".");
      SkipOne('*', rest, "\\?", ".");
      assert ['.'] + (['*'] + done) == ".*" + done;
    } else if IsMeta(c) {
      SkipQuoted(c, rest, "\\?", ".");
    } else {
      SkipOne(c, rest, "\\?", ".");
    }
  }

  lemma {:induction false} QueriesReplaced(glob: string)
    ensures ReplaceAll(StarUnits(glob), "\\?", ".") == Units(glob)
    ensures StarUnits(glob) == "" || StarUnits(glob)[0] != '?'
  {
    if glob != "" {
      hide ReplaceAll;
      QueriesReplaced(glob[1..]);
      QueryReplaced(glob[0], StarUnits(glob[1..]));
    }
  }

  function ItemOf(c: char): Item {
    if c == '*' then Many(NotNewline) else if c == '?' then One(NotNewline) else One(Exactly(c))
  }

  function ItemsOf(glob: string): seq<Item> {
    if glob == "" then [TextEnd] else [ItemOf(glob[0])] + ItemsOf(glob[1..])
  }

  lemma ParseUnit(c: char, rest: string)
    requires rest != "" && rest[0] != '*'
    ensures Parse(Unit(c) + rest) == Prepend(ItemOf(c), Parse(rest))
    ensures (Unit(c) + rest)[0] != '*'
  {
    var text := Unit(c) + rest;
    if c == '*' {
      assert text[1..] == ['*'] + rest && text[1..][1..] == rest;
    } else if c == '?' {
      assert text[1..] == rest;
    } else if IsMeta(c) {
      assert text[0] == '\\' && text[1] == c && text[2..] == rest;
    } else {
      assert text[0] == c && text[1..] == rest;
    }
  }

  lemma {:induction false} UnitsParse(glob: string)
    ensures Parse(Units(glob) + "$") == Some(ItemsOf(glob))
    ensures (Units(glob) + "$")[0] != '*'
  {
    if glob == "" {
      assert Units(glob) + "$" == "$" && "$"[1..] == "";
      assert [TextEnd] + [] == [TextEnd];
      assert Parse("$") == Prepend(TextEnd, Parse("")) == Some([TextEnd]);
    } else {
      UnitsParse(glob[1..]);
      ParseUnit(glob[0], Units(glob[1..]) + "$");
      assert Units(glob) + "$" == Unit(glob[0]) + (Units(glob[1..]) + "$");
    }
  }

  /** Compiling never fails, and gives the anchored items of the glob, one for each character. */
  lemma CompiledItems(glob: string)
    ensures Parse(GlobToRegexp(glob)) == Some([TextStart] + ItemsOf(glob))
  {
    StarsReplaced(glob);
    QueriesReplaced(glob);
    UnitsParse(glob);
    var text := GlobToRegexp(glob);
    assert text == "^" + (Units(glob) + "$") && text[1..] == Units(glob) + "$";
  }

  // ----- the compiled form has the meaning of the glob -----

  lemma {:induction false} ItemsMatch(glob: string, s: string, i: nat)
    requires i <= |s|
    ensures MatchAt(ItemsOf(glob), s, i) <==> LineMatches(glob, s[i..])
    decreases |glob|, |s| - i
  {
    if glob == "" {
      assert ItemsOf(glob)[1..] == [];
    } else {
      assert ItemsOf(glob)[1..] == ItemsOf(glob[1..]);
      if glob[0] == '*' {
        StarItemMatches(glob, s, i);
      } else if i < |s| {
        ItemsMatch(glob[1..], s, i + 1);
        assert s[i..][1..] == s[i + 1..];
      }
    }
  }

  lemma {:induction false} StarItemMatches(glob: string, s: string, i: nat)
    requires i <= |s| && glob != "" && glob[0] == '*'
    ensures MatchAt(ItemsOf(glob), s, i) <==> LineMatches(glob, s[i..])
    decreases |glob|, |s| - i, 0
  {
    assert ItemsOf(glob)[1..] == ItemsOf(glob[1..]);
    ItemsMatch(glob[1..], s, i);
    StarStep(glob, s[i..]);
    if i < |s| {
      ItemsMatch(glob, s, i + 1);
      assert s[i..][1..] == s[i + 1..];
    }
  }

  /** A run is empty, or one character longer than a run. */
  lemma StarStep(glob: string, t: string)
    requires glob != "" && glob[0] == '*'
    ensures LineMatches(glob, t) <==>
            LineMatches(glob[1..], t) || (t != "" && t[0] != '\n' && LineMatches(glob, t[1..]))
  {
    assert t[0..] == t && t[..0] == "";
    if LineMatches(glob, t) && !LineMatches(glob[1..], t) {
      var k :| 0 <= k <= |t| && '\n' !in t[..k] && LineMatches(glob[1..], t[k..]);
      assert k > 0 && t[..k][0] == t[0];
      assert t[1..][..k - 1] == t[..k][1..] && t[1..][k - 1..] == t[k..];
    }
    if t != "" && t[0] != '\n' && LineMatches(glob, t[1..]) {
      var k :| 0 <= k <= |t[1..]| && '\n' !in t[1..][..k] && LineMatches(glob[1..], t[1..][k..]);
      assert t[..k + 1] == [t[0]] + t[1..][..k] && t[k + 1..] == t[1..][k..];
    }
  }

  /** What the compiled glob accepts, for every glob and every string. */
  lemma CompilerExact(glob: string, s: string)
    ensures Accepts(glob, s) <==> LineMatches(glob, s)
  {
    CompiledItems(glob);
    var items := [TextStart] + ItemsOf(glob);
    assert items[1..] == ItemsOf(glob);
    ItemsMatch(glob, s, 0);
    assert s[0..] == s;
    assert MatchAt(items, s, 0) <==> LineMatches(glob, s);
  }

  lemma {:induction false} LineMeansGlob(glob: string, s: string)
    requires '\n' !in s || !HasWild(glob)
    ensures LineMatches(glob, s) <==> GlobMatches(glob, s)
    decreases |glob|
  {
    if glob != "" {
      if glob[0] == '*' {
        forall k | 0 <= k <= |s|
          ensures LineMatches(glob[1..], s[k..]) <==> GlobMatches(glob[1..], s[k..])
        {
          LineMeansGlob(glob[1..], s[k..]);
        }
      } else {
        assert IsWild(glob[0]) ==> HasWild(glob);
        if s != "" {
          assert forall c | c in glob[1..] :: c in glob;
          LineMeansGlob(glob[1..], s[1..]);
        }
      }
    }
  }

  /** The compiler preserves meaning on every path without a newline, whatever
      backslashes and regular-expression characters the glob contains. */
  lemma CompilerPreservesMeaning(glob: string, s: string)
    requires '\n' !in s
    ensures Accepts(glob, s) <==> GlobMatches(glob, s)
  {
    CompilerExact(glob, s);
    LineMeansGlob(glob, s);
  }

  // ----- where the code differs from the documented meaning -----

  function Newlines(s: string): nat {
    if s == "" then 0 else (if s[0] == '\n' then 1 else 0) + Newlines(s[1..])
  }

  lemma {:induction false} NewlinesSplit(s: string, k: nat)
    requires k <= |s| && '\n' !in s[..k]
    ensures Newlines(s) == Newlines(s[k..])
  {
    if k == 0 {
      assert s[0..] == s;
    } else {
      assert s[..k][0] == s[0];
      assert s[1..][..k - 1] == s[..k][1..] && s[1..][k - 1..] == s[k..];
      NewlinesSplit(s[1..], k - 1);
    }
  }

  /** The compiled glob spends its newlines one for one. */
  lemma {:induction false} LineMatchNewlines(glob: string, s: string)
    requires LineMatches(glob, s)
    ensures Newlines(s) == Newlines(glob)
    decreases |glob|
  {
    if glob != "" {
      if glob[0] == '*' {
        var k :| 0 <= k <= |s| && '\n' !in s[..k] && LineMatches(glob[1..], s[k..]);
        NewlinesSplit(s, k);
        LineMatchNewlines(glob[1..], s[k..]);
      } else {
        LineMatchNewlines(glob[1..], s[1..]);
      }
    }
  }

  /** Every wildcard filled with a newline. */
  function Filled(glob: string): string {
    if glob == "" then "" else [if IsWild(glob[0]) then '\n' else glob[0]] + Filled(glob[1..])
  }

  lemma {:induction false} FilledMatches(glob: string)
    ensures GlobMatches(glob, Filled(glob))
    ensures Newlines(Filled(glob)) >= Newlines(glob)
    ensures HasWild(glob) ==> Newlines(Filled(glob)) > Newlines(glob)
  {
    if glob != "" {
      var s := Filled(glob);
      FilledMatches(glob[1..]);
      assert s[1..] == Filled(glob[1..]);
      assert glob == [glob[0]] + glob[1..];
      if HasWild(glob) && !IsWild(glob[0]) {
        var c :| c in glob && IsWild(c);
        assert c in glob[1..];
      }
    }
  }

  /** The compiler agrees with the documented meaning on all strings exactly when the
      entry has no wildcard: `.` does not match a newline. */
  lemma AgreesEverywhereIffLiteral(glob: string)
    ensures (forall s :: Accepts(glob, s) <==> GlobMatches(glob, s)) <==> !HasWild(glob)
  {
    if HasWild(glob) {
      var s := Filled(glob);
      FilledMatches(glob);
      CompilerExact(glob, s);
      if LineMatches(glob, s) {
        LineMatchNewlines(glob, s);
      }
    } else {
      forall s
        ensures Accepts(glob, s) <==> GlobMatches(glob, s)
      {
        CompilerExact(glob, s);
        LineMeansGlob(glob, s);
      }
    }
  }

  /** A concrete miss: `*` does not cover a newline in a file name. */
  lemma StarMissesNewline()
    ensures GlobMatches("a*", "a\n") && !Accepts("a*", "a\n")
  {
    var glob, s := "a*", "a\n";
    CompilerExact(glob, s);
    assert glob[1..] == "*" && glob[1..][1..] == "" && s[1..] == "\n";
    assert s[1..][1..] == "";
    assert GlobMatches("*", "\n");
    assert Newlines(s) == 1 && Newlines(glob) == 0;
    if LineMatches(glob, s) {
      LineMatchNewlines(glob, s);
    }
  }
}
