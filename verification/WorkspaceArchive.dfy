/** Workspace archives: a directory tree as a list of tar members and back. */
module WorkspaceArchive {
  import opened Wrappers
  import opened GoPaths
  import opened Unicode
  import opened FileTrees

  datatype MemberKind = DirMember | FileMember | OtherMember

  datatype TarMember = TarMember(name: string, kind: MemberKind, data: Bytes)

  datatype ArchiveError = InvalidPath(name: string) | WriteFailed

  // ----- compressing -----

  function MemberFor(p: Segments, entry: Entry): TarMember {
    match entry
    case Folder => TarMember(Text(p, false), DirMember, [])
    case File(data) => TarMember(Text(p, false), FileMember, data)
  }

  function MembersFor(t: Tree, paths: seq<Segments>): seq<TarMember>
    requires forall p | p in paths :: p in t
  {
    seq(|paths|, i requires 0 <= i < |paths| => MemberFor(paths[i], t[paths[i]]))
  }

  ghost predicate Archives(members: seq<TarMember>, t: Tree) {
    exists paths :: Enumerates(paths, t.Keys - {[]}) && members == MembersFor(t, paths)
  }

  /** The members of some of the paths of a tree. */
  ghost predicate ArchivesPart(members: seq<TarMember>, t: Tree) {
    exists paths :: (forall p | p in paths :: p in t) && members == MembersFor(t, paths)
  }

  lemma EnumerateMore<T(!new)>(s: seq<T>, elements: set<T>, x: T)
    requires Enumerates(s, elements) && x !in elements
    ensures Enumerates(s + [x], elements + {x})
  {
  }

  lemma NextVisited(visited: seq<Segments>, i: nat, paths: seq<Segments>, all: set<Segments>)
    requires i < |visited| && Enumerates(visited, all)
    requires Enumerates(paths, Elements(visited[..i]) - {[]})
    ensures visited[i] in all
    ensures Enumerates(if visited[i] == [] then paths else paths + [visited[i]], Elements(visited[..i + 1]) - {[]})
  {
    var p, before := visited[i], Elements(visited[..i]);
    assert p in visited && p !in before;
    assert visited[..i + 1] == visited[..i] + [p];
    assert Elements(visited[..i + 1]) == before + {p};
    if p == [] {
      assert before + {p} - {[]} == before - {[]};
    } else {
      EnumerateMore(paths, before - {[]}, p);
      assert before + {p} - {[]} == before - {[]} + {p};
    }
  }

  lemma NextMember(t: Tree, paths: seq<Segments>, p: Segments)
    requires p in t && forall q | q in paths :: q in t
    ensures MembersFor(t, paths + [p]) == MembersFor(t, paths) + [MemberFor(p, t[p])]
  {
    hide MemberFor;
  }

  lemma AllVisited(t: Tree, visited: seq<Segments>, paths: seq<Segments>)
    requires Enumerates(visited, set p | p in t && Above([], p))
    requires Enumerates(paths, Elements(visited) - {[]})
    ensures Enumerates(paths, t.Keys - {[]})
  {
    forall p | p in t.Keys
      ensures p in visited
    {
      assert Above([], p);
    }
    assert Elements(visited) == t.Keys;
  }

  /** How a walk ended: over all paths, with an error before a header was written, or with
      one when `written` bytes of the file `p` had been copied behind its header. */
  datatype WalkEnd = Finished | BeforeHeader | InsideFile(p: Segments, written: nat)

  /** The bytes a header has announced are missing. */
  ghost predicate LeavesGap(walk: WalkEnd, t: Tree) {
    walk.InsideFile? && walk.p in t && t[walk.p].File? && walk.written < |t[walk.p].data|
  }

  /** The error of closing the tar writer replaces that of the walk.  So a walk that fails,
      for instance because the directory is missing, is reported only when it stops in the
      middle of a file. */
  method CompressDirectory(dir: Option<Tree>) returns (r: Option<seq<TarMember>>, ghost walk: WalkEnd)
    ensures r.None? <==> dir.Some? && LeavesGap(walk, dir.value)
    ensures walk.Finished? ==> dir.Some? && ([] in dir.value ==> r.Some? && Archives(r.value, dir.value))
    ensures dir.Some? && r.Some? ==> ArchivesPart(r.value, dir.value)
    ensures dir.None? ==> r == Some([]) && walk == BeforeHeader
  {
    hide Elements, MembersFor, MemberFor;
    if dir.None? {
      return Some([]), BeforeHeader;
    }
    var t := dir.value;
    var members: seq<TarMember> := [];
    var visited := Walk(t, []);
    ghost var paths: seq<Segments> := [];
    NothingVisited(t);
    assert visited[..0] == [];
    for i := 0 to |visited|
      invariant forall p | p in paths :: p in t
      invariant members == MembersFor(t, paths)
      invariant Enumerates(paths, Elements(visited[..i]) - {[]})
    {
      hide Enumerates;
      var walkFails: bool := *;
      if walkFails {
        return Some(members), BeforeHeader;
      }
      var p := visited[i];
      NextVisited(visited, i, paths, set p | p in t && Above([], p));
      if p == [] {
        continue;
      }
      if t[p].File? {
        var copyFails: bool := *;
        var written :| 0 <= written <= |t[p].data|;
        if copyFails && written < |t[p].data| {
          return None, InsideFile(p, written);
        }
        if copyFails {
          NextMember(t, paths, p);
          return Some(members + [MemberFor(p, t[p])]), InsideFile(p, written);
        }
      }
      NextMember(t, paths, p);
      members := members + [MemberFor(p, t[p])];
      paths := paths + [p];
    }
    assert visited[..|visited|] == visited;
    AllVisited(t, visited, paths);
    return Some(members), Finished;
  }

  lemma NothingVisited(t: Tree)
    ensures MembersFor(t, []) == [] && Enumerates<Segments>([], Elements<Segments>([]) - {[]})
  {
  }

  // ----- extracting -----

  /** One turn of the extraction loop. */
  function ExtractOne(t: Tree, m: TarMember): Result<Tree, ArchiveError> {
    if TarNameEscapes(m.name) then Err(InvalidPath(m.name)) else ExtractAt(t, CleanSegments(m.name), m.kind, m.data)
  }

  function ExtractAt(t: Tree, p: Segments, kind: MemberKind, data: Bytes): Result<Tree, ArchiveError> {
    match kind
    case DirMember => if IsBlocked(t, p) then Err(WriteFailed) else Ok(WithDirs(t, p))
    case FileMember =>
      if p == [] || IsBlocked(t, Parent(p)) then Err(WriteFailed)
      else
        var made := WithDirs(t, Parent(p));
        if Writable(made, p) then Ok(made[p := File(data)]) else Err(WriteFailed)
    case OtherMember => Ok(t)
  }

  function Extract(t: Tree, members: seq<TarMember>): Result<Tree, ArchiveError> {
    if members == [] then Ok(t)
    else
      var before := Extract(t, members[..|members| - 1]);
      if before.Err? then before else ExtractOne(before.value, members[|members| - 1])
  }

  lemma {:induction false} ExtractFails(t: Tree, members: seq<TarMember>, i: nat)
    requires i <= |members| && Extract(t, members[..i]).Err?
    ensures Extract(t, members) == Extract(t, members[..i])
    decreases |members| - i
  {
    if i == |members| {
      assert members[..i] == members;
    } else {
      assert members[..i + 1][..i] == members[..i];
      ExtractFails(t, members, i + 1);
    }
  }

  /** Unpacks into `disk`, whose directory is `dst`. */
  method DecompressToDirectory(disk: Disk, dst: Segments, members: seq<TarMember>) returns (r: Option<ArchiveError>)
    requires AllNames(dst)
    modifies disk
    ensures old(disk.faulted) ==> disk.faulted
    ensures r == None ==> Extract(old(disk.tree), members) == Ok(disk.tree) && disk.faulted == old(disk.faulted)
    ensures r.Some? && !disk.faulted ==> Extract(old(disk.tree), members) == Err(r.value)
  {
    hide ExtractOne;
    for i := 0 to |members|
      invariant Extract(old(disk.tree), members[..i]) == Ok(disk.tree) && disk.faulted == old(disk.faulted)
    {
      assert members[..i + 1][..i] == members[..i];
      ghost var before := disk.tree;
      r := ExtractMember(disk, dst, members[i]);
      if r.Some? {
        if !disk.faulted {
          ExtractFails(old(disk.tree), members, i + 1);
        }
        return;
      }
    }
    assert members[..|members|] == members;
    r := None;
  }

  method ExtractMember(disk: Disk, dst: Segments, m: TarMember) returns (r: Option<ArchiveError>)
    requires AllNames(dst)
    modifies disk
    ensures old(disk.faulted) ==> disk.faulted
    ensures r == None ==> ExtractOne(old(disk.tree), m) == Ok(disk.tree) && disk.faulted == old(disk.faulted)
    ensures r.Some? && !disk.faulted ==> ExtractOne(old(disk.tree), m) == Err(r.value)
  {
    if TarNameEscapes(m.name) {
      return Some(InvalidPath(m.name));
    }
    var target := JoinPath(AbsText(dst), Clean(m.name));
    var rel := Rel(AbsText(dst), target);
    TarTargetInside(dst, m.name);
    if rel == ".." || "../" <= rel {
      assert false;
    }
    var p := CleanSegments(m.name);
    match m.kind {
    case DirMember =>
      var ok := disk.MkdirAll(p);
      if !ok {
        return Some(WriteFailed);
      }
    case FileMember =>
      if p == [] {
        return Some(WriteFailed);
      }
      var ok := disk.MkdirAll(Parent(p));
      if !ok {
        return Some(WriteFailed);
      }
      ok := disk.WriteFile(p, m.data);
      if !ok {
        return Some(WriteFailed);
      }
    case OtherMember =>
    }
    r := None;
  }

  // ----- the round trip -----

  ghost predicate Covered(q: Segments, visited: seq<Segments>) {
    q == [] || exists x :: x in visited && Above(q, x)
  }

  /** The tree after the members of `visited` are extracted. */
  ghost function Partial(t: Tree, visited: seq<Segments>): Tree {
    map q | q in t && Covered(q, visited) :: t[q]
  }

  lemma MemberName(p: Segments, entry: Entry)
    requires AllNames(p)
    ensures CleanSegments(MemberFor(p, entry).name) == p && !TarNameEscapes(MemberFor(p, entry).name)
  {
    NamesNormal(p, false);
    TextSegments(p, false);
    TarGuardExact(Text(p, false));
  }

  lemma CoveredNext(q: Segments, visited: seq<Segments>, x: Segments)
    ensures Covered(q, visited + [x]) <==> Covered(q, visited) || Above(q, x)
  {
    assert x in visited + [x];
    if q != [] && Covered(q, visited) {
      var y :| y in visited && Above(q, y);
      assert y in visited + [x];
    }
  }

  lemma PartialNext(t: Tree, visited: seq<Segments>, x: Segments)
    requires WellFormed(t) && x in t
    ensures forall q :: q in Partial(t, visited + [x]) <==> q in Partial(t, visited) || Above(q, x)
    ensures forall q | Above(q, x) :: q in t && (q != x ==> t[q] == Folder)
  {
    forall q
      ensures q in Partial(t, visited + [x]) <==> q in Partial(t, visited) || Above(q, x)
      ensures Above(q, x) ==> q in t && (q != x ==> t[q] == Folder)
    {
      CoveredNext(q, visited, x);
      if Above(q, x) { AboveIsFolder(t, q, x); }
    }
  }

  lemma ExtractFolder(t: Tree, visited: seq<Segments>, x: Segments)
    requires WellFormed(t) && x in t && t[x] == Folder
    ensures ExtractAt(Partial(t, visited), x, DirMember, []) == Ok(Partial(t, visited + [x]))
  {
    hide WellFormed, Covered, WithDirs, IsBlocked;
    var before, after := Partial(t, visited), Partial(t, visited + [x]);
    PartialNext(t, visited, x);
    assert !Blocked(before, x);
    assert WithDirs(before, x) == after;
  }

  /** Making the directories above a new file and writing it adds exactly the paths above it. */
  lemma FileAdded(before: Tree, after: Tree, x: Segments)
    requires x != [] && x in after && after[x].File?
    requires forall q :: q in after <==> q in before || Above(q, x)
    requires forall q | q in before :: before[q] == after[q]
    requires forall q | Above(q, x) && q != x :: q in after && after[q] == Folder
    ensures !Blocked(before, Parent(x))
    ensures Writable(WithDirs(before, Parent(x)), x)
    ensures WithDirs(before, Parent(x))[x := after[x]] == after
  {
    var up := Parent(x);
    var made := WithDirs(before, up);
    forall q
      ensures Above(q, x) <==> q == x || Above(q, up)
    {
      AboveParent(q, x);
    }
    assert !Above(x, up) && Above(up, up);
    assert forall q | q in made && q != x :: made[q] == after[q];
    assert forall q | q in made :: q in after;
    assert forall q | q in after && q != x :: q in made;
  }

  lemma ExtractFile(t: Tree, visited: seq<Segments>, x: Segments)
    requires WellFormed(t) && x in t && x != [] && t[x].File?
    ensures ExtractAt(Partial(t, visited), x, FileMember, t[x].data) == Ok(Partial(t, visited + [x]))
  {
    PartialNext(t, visited, x);
    assert Above(x, x);
    FileAdded(Partial(t, visited), Partial(t, visited + [x]), x);
  }

  lemma ExtractNext(t: Tree, visited: seq<Segments>, x: Segments)
    requires WellFormed(t) && x in t && x != []
    ensures ExtractOne(Partial(t, visited), MemberFor(x, t[x])) == Ok(Partial(t, visited + [x]))
  {
    hide ExtractAt, Partial;
    MemberName(x, t[x]);
    if t[x].Folder? {
      ExtractFolder(t, visited, x);
    } else {
      ExtractFile(t, visited, x);
    }
  }

  lemma PartialNone(t: Tree)
    requires WellFormed(t)
    ensures Partial(t, []) == EMPTY_DIR
  {
    assert forall q :: Covered(q, []) <==> q == [];
  }

  lemma PartialAll(t: Tree, paths: seq<Segments>)
    requires forall q :: q in paths <==> q in t.Keys - {[]}
    ensures Partial(t, paths) == t
  {
    forall q | q in t
      ensures Covered(q, paths)
    {
      if q != [] {
        assert q in paths && Above(q, q);
      }
    }
  }

  lemma ExtractSnoc(t: Tree, init: seq<TarMember>, m: TarMember)
    requires Extract(t, init).Ok?
    ensures Extract(t, init + [m]) == ExtractOne(Extract(t, init).value, m)
  {
    hide ExtractOne;
    assert (init + [m])[..|init|] == init;
  }

  lemma {:induction false} ExtractAll(t: Tree, paths: seq<Segments>)
    requires WellFormed(t) && forall p | p in paths :: p in t && p != []
    ensures Extract(EMPTY_DIR, MembersFor(t, paths)) == Ok(Partial(t, paths))
    decreases |paths|
  {
    if paths == [] {
      PartialNone(t);
      assert MembersFor(t, paths) == [];
    } else {
      hide Partial, Extract, ExtractOne, MemberFor, MembersFor, WellFormed;
      var init, x := paths[..|paths| - 1], paths[|paths| - 1];
      assert init + [x] == paths && x in paths && forall p | p in init :: p in paths;
      ExtractAll(t, init);
      ExtractNext(t, init, x);
      NextMember(t, init, x);
      ExtractSnoc(EMPTY_DIR, MembersFor(t, init), MemberFor(x, t[x]));
    }
  }

  /** Any tree of directories (empty ones included) and regular files, archived in any
      order of its paths, is rebuilt exactly in an empty directory. */
  lemma ArchiveRoundTrip(t: Tree, members: seq<TarMember>)
    requires WellFormed(t) && Archives(members, t)
    ensures Extract(EMPTY_DIR, members) == Ok(t)
  {
    hide Partial, Extract, MembersFor, WellFormed;
    var paths :| Enumerates(paths, t.Keys - {[]}) && members == MembersFor(t, paths);
    ExtractAll(t, paths);
    PartialAll(t, paths);
  }
}
