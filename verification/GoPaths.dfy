/** Go's lexical path functions (`path` and `path/filepath` on Unix) as a stack machine
    over segments, and the containment facts the archive extractors rely on. */
module GoPaths {
  import opened GoStrings

  type Segments = seq<string>

  // ----- the functions -----

  /** An ordinary path element. */
  predicate IsName(seg: string) {
    seg != "" && seg != "." && seg != ".." && '/' !in seg
  }

  predicate AllNames(segs: Segments) { forall seg | seg in segs :: IsName(seg) }

  function Step(stack: Segments, seg: string, rooted: bool): Segments {
    if seg == "" || seg == "." then stack
    else if seg == ".." then
      if stack != [] && stack[|stack| - 1] != ".." then stack[..|stack| - 1]
      else if rooted then stack
      else stack + [".."]
    else stack + [seg]
  }

  function Reduce(stack: Segments, segs: Segments, rooted: bool): Segments
    decreases |segs|
  {
    if segs == [] then stack else Reduce(Step(stack, segs[0], rooted), segs[1..], rooted)
  }

  predicate IsAbs(p: string) { p != "" && p[0] == '/' }

  function CleanSegments(p: string): Segments { Reduce([], Split(p, '/'), IsAbs(p)) }

  function Text(segs: Segments, rooted: bool): string {
    if rooted then "/" + Join(segs, '/')
    else if segs == [] then "."
    else Join(segs, '/')
  }

  function Clean(p: string): string { Text(CleanSegments(p), IsAbs(p)) }

  /** The text of an absolute path. */
  function AbsText(segs: Segments): string { Text(segs, true) }

  function JoinPath(a: string, b: string): string {
    if a == "" then (if b == "" then "" else Clean(b))
    else if b == "" then Clean(a)
    else Clean(a + "/" + b)
  }

  /** Everything up to the last slash, cleaned. */
  function Dir(p: string): string {
    var parts := Split(p, '/');
    if |parts| == 1 then Clean("") else Clean(Join(parts[..|parts| - 1], '/') + "/")
  }

  function Abs(cwd: string, p: string): string {
    if IsAbs(p) then Clean(p) else JoinPath(cwd, p)
  }

  function LastElement(parts: Segments): string {
    if parts == [] then "/"
    else if parts[|parts| - 1] != "" then parts[|parts| - 1]
    else LastElement(parts[..|parts| - 1])
  }

  function Base(p: string): string { if p == "" then "." else LastElement(Split(p, '/')) }

  function Dots(n: nat): Segments { seq(n, _ => "..") }

  function CommonPrefix(a: Segments, b: Segments): (n: nat)
    ensures n <= |a| && n <= |b|
  {
    if a == [] || b == [] || a[0] != b[0] then 0 else 1 + CommonPrefix(a[1..], b[1..])
  }

  /** `filepath.Rel` for two absolute paths. */
  function Rel(base: string, target: string): string {
    var b, t := CleanSegments(base), CleanSegments(target);
    var n := CommonPrefix(b, t);
    Text(Dots(|b| - n) + t[n..], false)
  }

  // ----- the stack machine -----

  /** Leading `..` elements, none when rooted, and then names. */
  predicate Normal(segs: Segments, rooted: bool) {
    && (forall seg | seg in segs :: seg == ".." || IsName(seg))
    && (forall i, j | 0 <= i < j < |segs| :: segs[j] == ".." ==> segs[i] == "..")
    && (rooted ==> ".." !in segs)
  }

  lemma {:induction false} ReduceNormal(stack: Segments, segs: Segments, rooted: bool)
    requires Normal(stack, rooted) && forall seg | seg in segs :: '/' !in seg
    ensures Normal(Reduce(stack, segs, rooted), rooted)
    decreases |segs|
  {
    if segs != [] {
      assert segs[0] in segs;
      ReduceNormal(Step(stack, segs[0], rooted), segs[1..], rooted);
    }
  }

  lemma {:induction false} ReduceConcat(stack: Segments, a: Segments, b: Segments, rooted: bool)
    ensures Reduce(stack, a + b, rooted) == Reduce(Reduce(stack, a, rooted), b, rooted)
    decreases |a|
  {
    if a == [] {
      assert a + b == b;
    } else {
      assert (a + b)[1..] == a[1..] + b;
      ReduceConcat(Step(stack, a[0], rooted), a[1..], b, rooted);
    }
  }

  lemma {:induction false} ReduceNames(stack: Segments, segs: Segments, rooted: bool)
    requires AllNames(segs)
    ensures Reduce(stack, segs, rooted) == stack + segs
    decreases |segs|
  {
    if segs == [] {
      assert stack + segs == stack;
    } else {
      assert IsName(segs[0]);
      ReduceNames(stack + [segs[0]], segs[1..], rooted);
      assert stack + [segs[0]] + segs[1..] == stack + segs;
    }
  }

  /** An already clean, unrooted element list is a fixed point. */
  lemma {:induction false} ReduceFixed(stack: Segments, segs: Segments, rooted: bool)
    requires Normal(stack + segs, rooted)
    ensures Reduce(stack, segs, rooted) == stack + segs
    decreases |segs|
  {
    if segs == [] {
      assert stack + segs == stack;
    } else {
      var whole := stack + segs;
      assert whole[|stack|] == segs[0] && segs[0] in whole;
      if segs[0] == ".." && stack != [] {
        assert whole[|stack| - 1] == stack[|stack| - 1];
      }
      assert stack + [segs[0]] + segs[1..] == whole;
      ReduceFixed(stack + [segs[0]], segs[1..], rooted);
    }
  }

  lemma CleanNormal(p: string)
    ensures Normal(CleanSegments(p), IsAbs(p))
  {
    SplitParts(p, '/');
    ReduceNormal([], Split(p, '/'), IsAbs(p));
  }

  lemma SplitText(segs: Segments)
    requires segs != [] && forall seg | seg in segs :: '/' !in seg
    ensures Split(Text(segs, true), '/') == [""] + segs
    ensures Split(Text(segs, false), '/') == segs
  {
    SplitJoin(segs, '/');
    SplitConcat("", Join(segs, '/'), '/');
    assert "" + ['/'] + Join(segs, '/') == Text(segs, true);
  }

  lemma NamesNormal(segs: Segments, rooted: bool)
    requires AllNames(segs)
    ensures Normal(segs, rooted)
  {
    forall i | 0 <= i < |segs|
      ensures segs[i] != ".."
    {
      assert segs[i] in segs;
    }
  }

  lemma EmptyText(rooted: bool)
    ensures CleanSegments(Text([], rooted)) == []
    ensures IsAbs(Text([], rooted)) == rooted
  {
    if rooted {
      assert "/"[1..] == "" && [""] + [""] == ["", ""];
      assert Split("/", '/') == ["", ""];
      assert ["", ""][1..] == [""] && [""][1..] == [];
      assert Reduce([], [""], true) == [];
    } else {
      SplitOne(".", '/');
      assert ["."][1..] == [];
    }
  }

  lemma FirstCharacter(segs: Segments)
    requires segs != [] && segs[0] != "" && '/' !in segs[0]
    ensures !IsAbs(Text(segs, false))
  {
    assert Text(segs, false)[0] == segs[0][0];
    assert segs[0][0] in segs[0];
  }

  /** A clean path reads back as its own elements. */
  lemma TextSegments(segs: Segments, rooted: bool)
    requires Normal(segs, rooted)
    ensures CleanSegments(Text(segs, rooted)) == segs
    ensures IsAbs(Text(segs, rooted)) == rooted
    ensures Clean(Text(segs, rooted)) == Text(segs, rooted)
  {
    if segs == [] {
      EmptyText(rooted);
    } else {
      SplitText(segs);
      ReduceFixed([], segs, rooted);
      assert [] + segs == segs;
      if rooted {
        ReduceConcat([], [""], segs, true);
        assert [""][1..] == [];
        assert Reduce([], [""], true) == Reduce([], [], true);
      } else {
        assert segs[0] in segs;
        FirstCharacter(segs);
      }
    }
  }

  lemma CleanIdempotent(p: string)
    ensures Clean(Clean(p)) == Clean(p) && CleanSegments(Clean(p)) == CleanSegments(p)
    ensures IsAbs(Clean(p)) == IsAbs(p)
  {
    CleanNormal(p);
    TextSegments(CleanSegments(p), IsAbs(p));
  }

  lemma CleanParts(p: string, middle: Segments, q: string, mid: string)
    requires p != "" && middle != [] && forall seg | seg in middle :: '/' !in seg
    requires mid == Join(middle, '/')
    ensures CleanSegments(p + "/" + mid + "/" + q)
         == Reduce(Reduce(CleanSegments(p), middle, IsAbs(p)), Split(q, '/'), IsAbs(p))
    ensures IsAbs(p + "/" + mid + "/" + q) == IsAbs(p)
  {
    SplitConcat(p, mid, '/');
    SplitConcat(p + "/" + mid, q, '/');
    SplitJoin(middle, '/');
    ReduceConcat([], Split(p, '/') + middle, Split(q, '/'), IsAbs(p));
    ReduceConcat([], Split(p, '/'), middle, IsAbs(p));
    assert (p + ['/'] + mid) + ['/'] + q == p + "/" + mid + "/" + q;
  }

  lemma CleanTwo(p: string, q: string)
    requires p != ""
    ensures CleanSegments(p + "/" + q) == Reduce(CleanSegments(p), Split(q, '/'), IsAbs(p))
    ensures IsAbs(p + "/" + q) == IsAbs(p)
  {
    SplitConcat(p, q, '/');
    ReduceConcat([], Split(p, '/'), Split(q, '/'), IsAbs(p));
    assert p + ['/'] + q == p + "/" + q;
  }

  /** The rules `path.Clean` is documented by: empty and `.` elements go, an inner `..` goes
      with the element in front of it, and a `..` at the root goes. */
  lemma CleanRules(p: string, q: string, name: string)
    requires p != "" && IsName(name)
    ensures Clean(p + "//" + q) == Clean(p + "/" + q)
    ensures Clean(p + "/./" + q) == Clean(p + "/" + q)
    ensures Clean(p + "/" + name + "/../" + q) == Clean(p + "/" + q)
    ensures Clean("/../" + q) == Clean("/" + q)
    ensures Clean("") == "."
  {
    hide Split, Text;
    CleanTwo(p, q);
    CleanParts(p, [""], q, "");
    CleanParts(p, ["."], q, ".");
    assert p + "/" + "" + "/" + q == p + "//" + q && p + "/" + "." + "/" + q == p + "/./" + q;
    assert [name, ".."][1..] == [".."] && Join([name, ".."], '/') == name + "/..";
    CleanParts(p, [name, ".."], q, name + "/..");
    assert p + "/" + (name + "/..") + "/" + q == p + "/" + name + "/../" + q;
    var stack := CleanSegments(p);
    ReduceOne(stack, "", IsAbs(p));
    ReduceOne(stack, ".", IsAbs(p));
    NameAndBack(stack, name, IsAbs(p));
    RootAndBack(q);
  }

  lemma NameAndBack(stack: Segments, name: string, rooted: bool)
    requires IsName(name)
    ensures Reduce(stack, [name, ".."], rooted) == stack
  {
    assert [name, ".."][1..] == [".."] && (stack + [name])[..|stack|] == stack;
    ReduceOne(stack + [name], "..", rooted);
  }

  lemma RootAndBack(q: string)
    ensures Clean("/../" + q) == Clean("/" + q) && Clean("") == "."
  {
    var rest := Split(q, '/');
    assert "/" + q == "" + ['/'] + q && "/../" + q == "" + ['/'] + ".." + ['/'] + q;
    SplitConcat("", q, '/');
    SplitConcat("" + ['/'] + "..", q, '/');
    SplitConcat("", "..", '/');
    SplitOne("..", '/');
    ReduceConcat([], ["", ".."], rest, true);
    ReduceConcat([], [""], rest, true);
    ReduceOne([], "", true);
    assert ["", ".."][1..] == [".."];
    ReduceOne([], "..", true);
    assert [""] + [".."] == ["", ".."];
    EmptyText(false);
    ReduceOne([], "", false);
  }

  lemma TextInjective(a: Segments, b: Segments, rooted: bool)
    requires Normal(a, rooted) && Normal(b, rooted) && Text(a, rooted) == Text(b, rooted)
    ensures a == b
  {
    TextSegments(a, rooted);
    TextSegments(b, rooted);
  }

  // ----- the extractors' guards -----

  /** The first guard, as the zip extractor writes it. */
  predicate ZipNameEscapes(name: string) {
    var rel := Clean(name);
    "/" <= name || rel == "." || rel == ".." || "../" <= rel
  }

  /** The first guard, as the tar extractor writes it: the root itself is allowed. */
  predicate TarNameEscapes(name: string) {
    var rel := Clean(name);
    IsAbs(name) || rel == ".." || "../" <= rel
  }

  lemma NoLeadingDots(name: string)
    requires !IsAbs(name)
    ensures AllNames(CleanSegments(name)) <==> Clean(name) != ".." && !("../" <= Clean(name))
  {
    var segs, rel := CleanSegments(name), Clean(name);
    CleanNormal(name);
    if segs != [] {
      assert segs[0] in segs;
      if segs[0] == ".." {
        if |segs| > 1 {
          assert rel == ".." + ['/'] + Join(segs[1..], '/');
          assert rel[..3] == "../";
        }
      } else {
        assert AllNames(segs);
        FirstElement(segs);
      }
    }
  }

  lemma FirstElement(segs: Segments)
    requires segs != [] && AllNames(segs)
    ensures var p := Text(segs, false); !("../" <= p) && p != ".." && p != "."
  {
    var p := Text(segs, false);
    assert IsName(segs[0]);
    SplitText(segs);
    if p == ".." || p == "." {
      SplitOne(p, '/');
    } else if "../" <= p {
      assert p == ".." + ['/'] + p[3..];
      SplitConcat("..", p[3..], '/');
      SplitOne("..", '/');
    }
  }

  /** The zip guard lets a name through exactly when its cleaned form is a non-empty list
      of ordinary elements below the destination. */
  lemma ZipGuardExact(name: string)
    ensures ZipNameEscapes(name) <==> IsAbs(name) || CleanSegments(name) == [] || !AllNames(CleanSegments(name))
  {
    assert "/" <= name <==> IsAbs(name) by {
      if name != "" { assert name[..1] == [name[0]]; }
    }
    if !IsAbs(name) {
      NoLeadingDots(name);
      if CleanSegments(name) != [] && AllNames(CleanSegments(name)) {
        FirstElement(CleanSegments(name));
      }
    }
  }

  lemma TarGuardExact(name: string)
    ensures TarNameEscapes(name) <==> IsAbs(name) || !AllNames(CleanSegments(name))
  {
    if !IsAbs(name) {
      NoLeadingDots(name);
    }
  }

  lemma JoinBelow(dst: Segments, segs: Segments)
    requires AllNames(dst) && AllNames(segs)
    ensures JoinPath(AbsText(dst), Text(segs, false)) == AbsText(dst + segs)
  {
    var a, b := AbsText(dst), Text(segs, false);
    assert b != "" by {
      if segs != [] { assert segs[0] in segs; }
    }
    NamesNormal(dst, true);
    var p := a + "/" + b;
    assert p == a + ['/'] + b;
    SplitConcat(a, b, '/');
    ReduceConcat([], Split(a, '/'), Split(b, '/'), true);
    TextSegments(dst, true);
    assert CleanSegments(p) == Reduce(dst, Split(b, '/'), true);
    if segs == [] {
      SplitOne(".", '/');
      assert ["."][1..] == [] && dst + segs == dst;
      assert Reduce(dst, ["."], true) == Reduce(dst, [], true);
    } else {
      SplitText(segs);
      ReduceNames(dst, segs, true);
    }
  }

  /** Lexical containment.  A name that passes the first guard of the zip extractor is
      joined to `dst/…` inside the destination, so the extractor's second guard never fires. */
  lemma ZipTargetInside(dst: Segments, name: string)
    requires dst != [] && AllNames(dst) && !ZipNameEscapes(name)
    ensures var target := JoinPath(AbsText(dst), Clean(name));
            && target == AbsText(dst + CleanSegments(name))
            && target != AbsText(dst) && AbsText(dst) + "/" <= target
            && ".." !in CleanSegments(name)
  {
    var segs := CleanSegments(name);
    ZipGuardExact(name);
    JoinBelow(dst, segs);
    JoinConcat(dst, segs, '/');
    assert AbsText(dst + segs) == AbsText(dst) + "/" + Join(segs, '/');
    assert ".." !in segs;
  }

  lemma {:induction false} CommonPrefixOfExtension(a: Segments, b: Segments)
    ensures CommonPrefix(a, a + b) == |a|
  {
    if a != [] {
      assert (a + b)[1..] == a[1..] + b;
      CommonPrefixOfExtension(a[1..], b);
    }
  }

  /** The same for the tar extractor, whose second guard goes through `filepath.Rel`:
      the relative path it computes is the cleaned name itself. */
  lemma TarTargetInside(dst: Segments, name: string)
    requires AllNames(dst) && !TarNameEscapes(name)
    ensures var target := JoinPath(AbsText(dst), Clean(name));
            && target == AbsText(dst + CleanSegments(name))
            && Rel(AbsText(dst), target) == Clean(name)
            && !(Rel(AbsText(dst), target) == ".." || "../" <= Rel(AbsText(dst), target))
  {
    var segs := CleanSegments(name);
    TarGuardExact(name);
    JoinBelow(dst, segs);
    NamesNormal(dst, true);
    NamesNormal(dst + segs, true);
    TextSegments(dst, true);
    TextSegments(dst + segs, true);
    CommonPrefixOfExtension(dst, segs);
    assert (dst + segs)[|dst|..] == segs && Dots(0) + segs == segs;
  }

  // ----- directories and bases of absolute paths -----

  lemma RootParts()
    ensures Split("/", '/') == ["", ""] && Dir("/") == "/"
  {
    assert "/"[1..] == "";
    assert Split("/", '/') == ["", ""];
    assert ["", ""][..1] == [""];
    assert Join([""], '/') + "/" == "/";
    TextSegments([], true);
  }

  lemma TrailingSlash(parent: Segments)
    requires AllNames(parent)
    ensures Split(Join([""] + parent, '/') + "/", '/') == [""] + parent + [""]
    ensures IsAbs(Join([""] + parent, '/') + "/")
  {
    hide Split;
    var up := [""] + parent;
    assert forall seg | seg in up :: '/' !in seg;
    SplitJoin(up, '/');
    SplitOne("", '/');
    SplitConcat(Join(up, '/'), "", '/');
    assert Join(up, '/') + "/" == Join(up, '/') + ['/'] + "";
    if parent == [] {
      assert up == [""];
    } else {
      assert up[1..] == parent;
    }
  }

  lemma ReduceParent(parent: Segments)
    requires AllNames(parent)
    ensures Reduce([], [""] + parent + [""], true) == parent
  {
    ReduceConcat([], [""] + parent, [""], true);
    ReduceConcat([], [""], parent, true);
    ReduceNames([], parent, true);
    assert [""][1..] == [] && [] + parent == parent;
  }

  lemma DirOfAbs(segs: Segments)
    requires AllNames(segs)
    ensures Dir(AbsText(segs)) == AbsText(if segs == [] then [] else segs[..|segs| - 1])
  {
    if segs == [] {
      RootParts();
    } else {
      hide Split, Reduce, Join;
      SplitText(segs);
      var parent := segs[..|segs| - 1];
      assert ([""] + segs)[..|segs|] == [""] + parent;
      TrailingSlash(parent);
      ReduceParent(parent);
    }
  }

  lemma BaseOfAbs(segs: Segments)
    requires AllNames(segs)
    ensures Base(AbsText(segs)) == if segs == [] then "/" else segs[|segs| - 1]
  {
    if segs == [] {
      RootParts();
      assert ["", ""][..1] == [""] && [""][..0] == [];
    } else {
      SplitText(segs);
      assert segs[|segs| - 1] in segs;
    }
  }

  lemma JoinName(parent: Segments, name: string)
    requires AllNames(parent) && IsName(name)
    ensures JoinPath(AbsText(parent), name) == AbsText(parent + [name])
  {
    assert Text([name], false) == name;
    JoinBelow(parent, [name]);
  }

  /** The path of `name` beside a path. */
  lemma JoinBeside(parent: Segments, last: string, name: string)
    requires AllNames(parent) && IsName(last) && IsName(name)
    ensures var p := AbsText(parent + [last]);
            Base(p) == last && JoinPath(Dir(p), name) == AbsText(parent + [name])
  {
    DirOfAbs(parent + [last]);
    BaseOfAbs(parent + [last]);
    assert (parent + [last])[..|parent|] == parent;
    JoinName(parent, name);
  }

  /** An absolute path, whatever it is given as. */
  lemma AbsIsAbsText(cwd: string, p: string)
    requires IsAbs(cwd)
    ensures exists segs :: AllNames(segs) && Abs(cwd, p) == AbsText(segs)
  {
    var q := if IsAbs(p) then p else if p == "" then cwd else cwd + "/" + p;
    assert Abs(cwd, p) == Clean(q) && IsAbs(q);
    CleanNormal(q);
    assert AllNames(CleanSegments(q));
  }

  // ----- making paths absolute -----

  /** Reducing a list over a rooted stack is reducing its normal form over it. */
  lemma {:induction false} NormalizeFirst(stack: Segments, segs: Segments)
    requires AllNames(stack) && forall seg | seg in segs :: '/' !in seg
    ensures Reduce(stack, segs, true) == Reduce(stack, Reduce([], segs, false), true)
    decreases |segs|
  {
    if segs == [] {
    } else {
      var init, last := segs[..|segs| - 1], segs[|segs| - 1];
      var u := Reduce([], init, false);
      assert init + [last] == segs && last in segs;
      NormalizeFirst(stack, init);
      ReduceConcat(stack, init, [last], true);
      ReduceConcat([], init, [last], false);
      ReduceOne(Reduce(stack, init, true), last, true);
      ReduceOne(u, last, false);
      assert forall seg | seg in init :: seg in segs;
      ReduceNormal([], init, false);
      NormalizeStep(stack, u, last);
    }
  }

  lemma ReduceOne(stack: Segments, seg: string, rooted: bool)
    ensures Reduce(stack, [seg], rooted) == Step(stack, seg, rooted)
  {
    assert [seg][1..] == [];
  }

  lemma NormalizeStep(stack: Segments, u: Segments, last: string)
    requires AllNames(stack) && '/' !in last && Normal(u, false)
    ensures Step(Reduce(stack, u, true), last, true) == Reduce(stack, Step(u, last, false), true)
  {
    if last == ".." && u != [] && u[|u| - 1] != ".." {
      var top := u[|u| - 1];
      assert top in u;
      var below := u[..|u| - 1];
      assert u == below + [top];
      ReduceConcat(stack, below, [top], true);
      ReduceOne(Reduce(stack, below, true), top, true);
      TopIsNotDots(stack, below, top);
    } else if last != "" && last != "." {
      ReduceConcat(stack, u, [last], true);
      ReduceOne(Reduce(stack, u, true), last, true);
    }
  }

  lemma TopIsNotDots(stack: Segments, below: Segments, top: string)
    requires IsName(top)
    ensures Step(Step(Reduce(stack, below, true), top, true), "..", true) == Reduce(stack, below, true)
  {
  }

  lemma JoinRelative(cwd: Segments, p: string)
    requires AllNames(cwd) && !IsAbs(p)
    ensures JoinPath(AbsText(cwd), p) == AbsText(Reduce(cwd, Split(p, '/'), true))
    ensures Reduce(cwd, Split(p, '/'), true) == Reduce(cwd, CleanSegments(p), true)
  {
    NamesNormal(cwd, true);
    TextSegments(cwd, true);
    SplitParts(p, '/');
    NormalizeFirst(cwd, Split(p, '/'));
    if p == "" {
      ReduceOne(cwd, "", true);
      SplitOne("", '/');
    } else {
      assert AbsText(cwd) + "/" + p == AbsText(cwd) + ['/'] + p;
      SplitConcat(AbsText(cwd), p, '/');
      ReduceConcat([], Split(AbsText(cwd), '/'), Split(p, '/'), true);
    }
  }

  /** An absolute path is cleaned, and a relative one is taken from the working directory. */
  lemma AbsReduces(cwd: Segments, p: string)
    requires AllNames(cwd)
    ensures var segs := Reduce(if IsAbs(p) then [] else cwd, Split(p, '/'), true);
            AllNames(segs) && Abs(AbsText(cwd), p) == AbsText(segs) && Abs(AbsText(cwd), Clean(p)) == AbsText(segs)
  {
    hide Reduce, Split, JoinPath;
    SplitParts(p, '/');
    ReduceNormal(if IsAbs(p) then [] else cwd, Split(p, '/'), true);
    CleanIdempotent(p);
    NamesNormal(cwd, true);
    if IsAbs(p) {
      assert Clean(p) == AbsText(CleanSegments(p));
    } else {
      JoinRelative(cwd, p);
      JoinRelative(cwd, Clean(p));
    }
  }
}
