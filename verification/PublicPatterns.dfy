/** The patterns accepted from a profile's `public` entries. */
module PublicPatterns {
  import opened Wrappers
  import opened GoStrings
  import opened GoPaths
  import opened PublicGlob

  datatype Pattern = Pattern(raw: string, rel: string, isGlob: bool)

  datatype Warning =
    | NoTilde(entry: string) | NoPath(entry: string) | HasDotDot(entry: string) | RootGlob(entry: string)
    | IsDirectory(entry: string, rel: string) | NoMatch(entry: string)

  function TrimLeftSlash(s: string): string {
    if s != "" && s[0] == '/' then TrimLeftSlash(s[1..]) else s
  }

  function LiteralPrefix(segs: Segments): (lit: Segments)
    ensures lit <= segs && forall seg | seg in lit :: !HasWild(seg)
    ensures |lit| < |segs| ==> HasWild(segs[|lit|])
  {
    if segs == [] || HasWild(segs[0]) then [] else [segs[0]] + LiteralPrefix(segs[1..])
  }

  function LiteralBaseDir(rel: string): string { Join(LiteralPrefix(Split(rel, '/')), '/') }

  lemma PrefixStep(segs: Segments, i: nat)
    requires i < |segs|
    ensures LiteralPrefix(segs[i..]) == if HasWild(segs[i]) then [] else [segs[i]] + LiteralPrefix(segs[i + 1..])
  {
    assert segs[i..][1..] == segs[i + 1..];
  }

  method ComputeLiteralBaseDir(rel: string) returns (base: string)
    ensures base == LiteralBaseDir(rel)
  {
    hide Split, Join, LiteralPrefix, HasWild;
    var segs := Split(rel, '/');
    var lit: Segments := [];
    assert segs[0..] == segs;
    for i := 0 to |segs|
      invariant LiteralPrefix(segs) == lit + LiteralPrefix(segs[i..])
    {
      PrefixStep(segs, i);
      if HasWild(segs[i]) {
        assert lit + [] == lit;
        return Join(lit, '/');
      }
      assert lit + ([segs[i]] + LiteralPrefix(segs[i + 1..])) == (lit + [segs[i]]) + LiteralPrefix(segs[i + 1..]);
      lit := lit + [segs[i]];
    }
    assert LiteralPrefix(segs[|segs|..]) == [] && lit + [] == lit;
    base := Join(lit, '/');
  }

  /** One entry of the profile. */
  function Classify(entry: string): Result<Pattern, Warning> {
    var e := TrimSpace(entry);
    if !("~/" <= e) then Err(NoTilde(entry))
    else
      var rel := TrimLeftSlash(e[2..]);
      if rel == "" then Err(NoPath(entry))
      else if ".." in Split(rel, '/') then Err(HasDotDot(entry))
      else if HasWild(rel) && LiteralBaseDir(rel) == "" then Err(RootGlob(entry))
      else Ok(Pattern(entry, rel, HasWild(rel)))
  }

  function Accepted(public: seq<string>): seq<Pattern> {
    if public == [] then []
    else
      var rest := Accepted(public[..|public| - 1]);
      match Classify(public[|public| - 1])
      case Ok(p) => rest + [p]
      case Err(_) => rest
  }

  function Rejected(public: seq<string>): seq<Warning> {
    if public == [] then []
    else
      var rest := Rejected(public[..|public| - 1]);
      match Classify(public[|public| - 1])
      case Ok(_) => rest
      case Err(w) => rest + [w]
  }

  /** Compiling an accepted entry's pattern never fails (`PublicGlob.CompiledItems`). */
  method CompilePatterns(public: seq<string>) returns (pats: seq<Pattern>, warnings: seq<Warning>)
    ensures pats == Accepted(public) && warnings == Rejected(public)
  {
    pats, warnings := [], [];
    for i := 0 to |public|
      invariant pats == Accepted(public[..i]) && warnings == Rejected(public[..i])
    {
      assert public[..i + 1][..i] == public[..i];
      match Classify(public[i]) {
        case Ok(p) => pats := pats + [p];
        case Err(w) => warnings := warnings + [w];
      }
    }
    assert public[..|public|] == public;
  }

  ghost predicate MatchesAny(rel: string, pats: seq<Pattern>) {
    exists p :: p in pats && Accepts(p.rel, rel)
  }

  method MatchesAnyPublic(rel: string, pats: seq<Pattern>) returns (matches: bool)
    ensures matches <==> MatchesAny(rel, pats)
  {
    for i := 0 to |pats|
      invariant forall p | p in pats[..i] :: !Accepts(p.rel, rel)
    {
      if Accepts(pats[i].rel, rel) {
        return true;
      }
    }
    assert pats[..|pats|] == pats;
    matches := false;
  }

  // ----- what an accepted pattern is -----

  /** A pattern that `Classify` can produce. */
  predicate Proper(p: Pattern) {
    && p.rel != "" && p.rel[0] != '/' && ".." !in Split(p.rel, '/')
    && p.isGlob == HasWild(p.rel) && (p.isGlob ==> LiteralBaseDir(p.rel) != "")
  }

  lemma {:induction false} TrimmedSlash(s: string)
    ensures TrimLeftSlash(s) != "" ==> TrimLeftSlash(s)[0] != '/'
  {
    if s != "" && s[0] == '/' {
      TrimmedSlash(s[1..]);
    }
  }

  function Slashes(n: nat): string { if n == 0 then "" else "/" + Slashes(n - 1) }

  lemma {:induction false} SlashesOff(s: string) returns (n: nat)
    ensures s == Slashes(n) + TrimLeftSlash(s)
  {
    n := 0;
    if s != "" && s[0] == '/' {
      n := SlashesOff(s[1..]);
      n := n + 1;
      assert s == "/" + s[1..];
    }
  }

  lemma {:induction false} TrimSlashes(n: nat, rel: string)
    requires rel != "" ==> rel[0] != '/'
    ensures TrimLeftSlash(Slashes(n) + rel) == rel
  {
    if n > 0 {
      assert (Slashes(n) + rel)[1..] == Slashes(n - 1) + rel;
      TrimSlashes(n - 1, rel);
    }
  }

  /** The entry is `~/`, perhaps more slashes, and then `rel`, with white space around. */
  ghost predicate Denotes(entry: string, rel: string) {
    && (rel != "" ==> rel[0] != '/')
    && exists n :: TrimSpace(entry) == "~/" + Slashes(n) + rel
  }

  /** A wildcard in the first element. */
  predicate WildFirst(rel: string) {
    exists i :: 0 <= i < |rel| && (rel[i] == '*' || rel[i] == '?') && '/' !in rel[..i]
  }

  lemma WildStep(rel: string)
    requires rel != ""
    ensures WildFirst(rel) <==> rel[0] == '*' || rel[0] == '?' || (rel[0] != '/' && WildFirst(rel[1..]))
  {
    var rest := rel[1..];
    assert forall i | 0 <= i < |rest| :: rel[..i + 1] == [rel[0]] + rest[..i] && rest[i] == rel[i + 1];
    assert rel[..0] == "";
    if WildFirst(rel) {
      var i :| 0 <= i < |rel| && (rel[i] == '*' || rel[i] == '?') && '/' !in rel[..i];
      assert i > 0 ==> rel[i] == rest[i - 1] && rel[..i] == [rel[0]] + rest[..i - 1];
    }
    if WildFirst(rest) && rel[0] != '/' {
      var i :| 0 <= i < |rest| && (rest[i] == '*' || rest[i] == '?') && '/' !in rest[..i];
      assert rel[i + 1] == rest[i] && '/' !in rel[..i + 1];
    }
  }

  lemma {:induction false} FirstPart(rel: string)
    ensures WildFirst(rel) <==> HasWild(Split(rel, '/')[0])
  {
    if rel != "" {
      var tail := Split(rel[1..], '/')[0];
      FirstPart(rel[1..]);
      WildStep(rel);
      WildAdded(rel[0], tail);
      assert rel[0] != '/' ==> Split(rel, '/')[0] == [rel[0]] + tail;
    }
  }

  lemma WildAdded(c: char, s: string)
    ensures HasWild([c] + s) <==> c == '*' || c == '?' || HasWild(s)
  {
    var whole := [c] + s;
    assert c in whole && forall d | d in s :: d in whole;
    assert forall d | d in whole :: d == c || d in s;
  }

  lemma BaseExact(rel: string)
    requires rel != "" && rel[0] != '/'
    ensures LiteralBaseDir(rel) == "" <==> WildFirst(rel)
  {
    FirstPart(rel);
    assert Split(rel, '/')[0] != "";
  }

  lemma DenotesTrimmed(entry: string, rel: string)
    requires Denotes(entry, rel)
    ensures "~/" <= TrimSpace(entry) && TrimLeftSlash(TrimSpace(entry)[2..]) == rel
  {
    var e := TrimSpace(entry);
    var n :| e == "~/" + Slashes(n) + rel;
    assert e[2..] == Slashes(n) + rel;
    TrimSlashes(n, rel);
  }

  /** Which entries are accepted, as what, and what each other one is refused for. */
  lemma ClassifyExact(entry: string)
    ensures Classify(entry) == Err(NoTilde(entry)) <==> !exists rel :: Denotes(entry, rel)
    ensures forall rel | Denotes(entry, rel) ::
              Classify(entry) == (
                if rel == "" then Err(NoPath(entry))
                else if ".." in Split(rel, '/') then Err(HasDotDot(entry))
                else if WildFirst(rel) then Err(RootGlob(entry))
                else Ok(Pattern(entry, rel, '*' in rel || '?' in rel)))
  {
    hide Split, TrimSpace, LiteralBaseDir, WildFirst;
    var e := TrimSpace(entry);
    if "~/" <= e {
      var n := SlashesOff(e[2..]);
      var rel := TrimLeftSlash(e[2..]);
      TrimmedSlash(e[2..]);
      assert e == "~/" + Slashes(n) + rel;
      assert Denotes(entry, rel);
    }
    forall rel | Denotes(entry, rel)
      ensures "~/" <= e && TrimLeftSlash(e[2..]) == rel
      ensures rel != "" ==> (LiteralBaseDir(rel) == "" <==> WildFirst(rel)) && (WildFirst(rel) ==> HasWild(rel))
    {
      DenotesTrimmed(entry, rel);
      if rel != "" {
        BaseExact(rel);
        WildSomewhere(rel);
      }
    }
  }

  lemma WildSomewhere(rel: string)
    ensures WildFirst(rel) ==> HasWild(rel)
    ensures HasWild(rel) <==> '*' in rel || '?' in rel
  {
    assert '*' in rel || '?' in rel ==> HasWild(rel) by {
      if '*' in rel { assert IsWild('*'); }
      if '?' in rel { assert IsWild('?'); }
    }
    if WildFirst(rel) {
      var i :| 0 <= i < |rel| && (rel[i] == '*' || rel[i] == '?') && '/' !in rel[..i];
      assert rel[i] in rel;
    }
  }

  lemma {:induction false} AcceptedProper(public: seq<string>)
    ensures forall p | p in Accepted(public) :: Proper(p)
    ensures |Accepted(public)| + |Rejected(public)| == |public|
  {
    if public != [] {
      AcceptedProper(public[..|public| - 1]);
      TrimmedSlash(TrimSpace(public[|public| - 1])[if "~/" <= TrimSpace(public[|public| - 1]) then 2 else 0..]);
    }
  }

  // ----- every match of a glob lies under its literal base -----

  lemma {:induction false} LiteralHead(lit: string, rest: string, s: string)
    requires !HasWild(lit) && LineMatches(lit + rest, s)
    ensures lit <= s && LineMatches(rest, s[|lit|..])
  {
    if lit == "" {
      assert lit + rest == rest && s[0..] == s;
    } else {
      assert lit[0] in lit && (lit + rest)[1..] == lit[1..] + rest;
      assert forall c | c in lit[1..] :: c in lit;
      LiteralHead(lit[1..], rest, s[1..]);
      assert s == [s[0]] + s[1..] && lit == [lit[0]] + lit[1..];
      assert s[1..][|lit| - 1..] == s[|lit|..];
    }
  }

  lemma {:induction false} LiteralWhole(lit: string, s: string)
    requires !HasWild(lit)
    ensures LineMatches(lit, s) <==> lit == s
  {
    if lit != "" {
      assert lit[0] in lit;
      assert forall c | c in lit[1..] :: c in lit;
      if s != "" {
        LiteralWhole(lit[1..], s[1..]);
        assert s == [s[0]] + s[1..] && lit == [lit[0]] + lit[1..];
      }
    }
  }

  lemma {:induction false} JoinWild(parts: Segments)
    ensures HasWild(Join(parts, '/')) <==> exists part :: part in parts && HasWild(part)
  {
    if |parts| == 1 {
      assert parts == [parts[0]];
    } else if |parts| > 1 {
      JoinWild(parts[1..]);
      var text := parts[0] + ['/'] + Join(parts[1..], '/');
      assert parts == [parts[0]] + parts[1..];
      if HasWild(text) {
        var c :| c in text && IsWild(c);
        assert c in parts[0] || c in Join(parts[1..], '/');
      }
      if HasWild(parts[0]) {
        var c :| c in parts[0] && IsWild(c);
        assert c in text;
      }
      if HasWild(Join(parts[1..], '/')) {
        var c :| c in Join(parts[1..], '/') && IsWild(c);
        assert c in text;
      }
    }
  }

  lemma HeadNotWild(lit: Segments)
    requires forall seg | seg in lit :: !HasWild(seg)
    ensures !HasWild(Join(lit, '/') + ['/'])
  {
    JoinWild(lit);
    forall c | c in Join(lit, '/') + ['/']
      ensures !IsWild(c)
    {
      assert c in Join(lit, '/') || c == '/';
    }
  }

  lemma SplitAfterHead(lit: Segments, parts: Segments, s: string)
    requires lit != [] && lit <= parts && Join(lit, '/') + ['/'] <= s
    requires forall part | part in parts :: '/' !in part
    ensures lit <= Split(s, '/') && |lit| < |Split(s, '/')|
  {
    var head := Join(lit, '/') + ['/'];
    var tail := s[|head|..];
    assert s == Join(lit, '/') + ['/'] + tail;
    SplitConcat(Join(lit, '/'), tail, '/');
    assert forall part | part in lit :: part in parts;
    SplitJoin(lit, '/');
  }

  /** The elements of a matched path start with the literal elements of the glob. */
  lemma MatchUnderBase(rel: string, s: string)
    requires HasWild(rel) && Accepts(rel, s)
    ensures var lit := LiteralPrefix(Split(rel, '/')); lit <= Split(s, '/') && |lit| < |Split(s, '/')|
  {
    hide Accepts, LineMatches, Split, Join, LiteralPrefix, HasWild;
    CompilerExact(rel, s);
    var parts := Split(rel, '/');
    var lit := LiteralPrefix(parts);
    SplitParts(rel, '/');
    LiteralShorter(rel);
    if lit != [] {
      HeadOfGlob(rel);
      HeadNotWild(lit);
      LiteralHead(Join(lit, '/') + ['/'], Join(parts[|lit|..], '/'), s);
      SplitAfterHead(lit, parts, s);
    }
  }

  lemma LiteralShorter(rel: string)
    requires HasWild(rel)
    ensures |LiteralPrefix(Split(rel, '/'))| < |Split(rel, '/')|
  {
    JoinSplit(rel, '/');
    JoinWild(Split(rel, '/'));
  }

  lemma HeadOfGlob(rel: string)
    requires HasWild(rel) && LiteralPrefix(Split(rel, '/')) != []
    ensures var parts := Split(rel, '/'); var lit := LiteralPrefix(parts);
            && |lit| < |parts|
            && rel == (Join(lit, '/') + ['/']) + Join(parts[|lit|..], '/')
  {
    hide HasWild, Split, Join, LiteralPrefix;
    LiteralShorter(rel);
    JoinSplit(rel, '/');
    var parts := Split(rel, '/');
    var lit := LiteralPrefix(parts);
    assert parts == lit + parts[|lit|..];
    JoinConcat(lit, parts[|lit|..], '/');
  }

  /** A glob that is accepted never reaches files directly in HOME, hidden ones included:
      what it matches lies below the directory it names. */
  lemma GlobStaysBelow(p: Pattern, path: Segments)
    requires Proper(p) && p.isGlob && AllNames(path) && path != []
    requires Accepts(p.rel, Text(path, false))
    ensures var base := CleanSegments(LiteralBaseDir(p.rel)); base != [] && base < path
    ensures LiteralBaseDir(p.rel) == Text(CleanSegments(LiteralBaseDir(p.rel)), false)
  {
    hide Accepts;
    var lit := LiteralPrefix(Split(p.rel, '/'));
    SplitText(path);
    SplitParts(p.rel, '/');
    MatchUnderBase(p.rel, Text(path, false));
    assert lit < path;
    assert AllNames(lit) by {
      forall seg | seg in lit ensures IsName(seg) { assert seg in path; }
    }
    assert lit != [];
    NamesNormal(lit, false);
    TextSegments(lit, false);
  }
}
