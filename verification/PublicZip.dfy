/** public.zip: the collected files as zip members, and back into a spawn workspace. */
module PublicZip {
  import opened Wrappers
  import opened GoPaths
  import opened Unicode
  import opened FileTrees
  import opened WorkspaceArchive
  import opened PublicPatterns
  import opened PublicEntries
  import opened PublicCollection

  const DEFAULT_MAX_BYTES: nat := 0x400_0000

  datatype ZipMember = ZipMember(name: string, isDir: bool, isSymlink: bool, data: Bytes)

  datatype ZipError = TooLarge | Corrupt | PathEscape | WriteError

  /** The zip library: a lossless encoding of member lists. */
  datatype ZipFormat = ZipFormat(encode: seq<ZipMember> -> Bytes, parse: Bytes -> Option<seq<ZipMember>>)

  ghost predicate Lossless(format: ZipFormat) {
    format.parse([]) == None && forall ms :: format.parse(format.encode(ms)) == Some(ms)
  }

  // ----- building -----

  ghost predicate Named(entries: seq<PublicEntry>, home: Tree) {
    forall e | e in entries :: IsFile(home, CleanSegments(e.path))
  }

  function MemberOf(home: Tree, e: PublicEntry): ZipMember
    requires IsFile(home, CleanSegments(e.path))
  {
    ZipMember(e.path, false, false, home[CleanSegments(e.path)].data)
  }

  function ZipFor(home: Tree, entries: seq<PublicEntry>): (members: seq<ZipMember>)
    requires Named(entries, home)
    ensures |members| == |entries|
    ensures forall i | 0 <= i < |entries| :: members[i] == MemberOf(home, entries[i])
  {
    seq(|entries|, i requires 0 <= i < |entries| => MemberOf(home, entries[i]))
  }

  lemma ZipForNext(home: Tree, init: seq<PublicEntry>, e: PublicEntry)
    requires Named(init + [e], home)
    ensures Named(init, home) && IsFile(home, CleanSegments(e.path))
    ensures ZipFor(home, init + [e]) == ZipFor(home, init) + [MemberOf(home, e)]
  {
    hide CleanSegments, IsFile;
    assert e in init + [e];
    assert forall x | x in init :: x in init + [e];
  }

  /** The home-relative path of an entry names the collected file. */
  lemma EntryIsFile(entries: seq<PublicEntry>, pats: seq<Pattern>, home: Tree, digest: Digest, e: PublicEntry)
    requires WellFormed(home) && Collects(entries, pats, home, digest) && e in entries
    ensures var q := CleanSegments(e.path);
            IsFile(home, q) && e == EntryFor(home, q, digest) && e.path == Text(q, false)
  {
    hide CleanSegments, Text, WellFormed, SortedByPath, KeysOf;
    var keys :|
      && KeysOf(keys, pats, home) && FileKeys(keys, home)
      && SortedByPath(entries) && Permutations.Permutation(entries, EntriesFor(home, keys, digest));
    Permutations.SameElements(entries, EntriesFor(home, keys, digest));
    var i :| 0 <= i < |keys| && EntriesFor(home, keys, digest)[i] == e;
    assert keys[i] in keys;
    EntryPath(home, CleanSegments(keys[i]), digest);
  }

  lemma EntryPath(home: Tree, q: Segments, digest: Digest)
    requires WellFormed(home) && IsFile(home, q)
    ensures CleanSegments(EntryFor(home, q, digest).path) == q && EntryFor(home, q, digest).path == Text(q, false)
  {
    NamesNormal(q, false);
    TextSegments(q, false);
  }

  lemma AllNamed(entries: seq<PublicEntry>, pats: seq<Pattern>, home: Tree, digest: Digest)
    requires WellFormed(home) && Collects(entries, pats, home, digest)
    ensures Named(entries, home)
  {
    forall e | e in entries
      ensures IsFile(home, CleanSegments(e.path))
    {
      EntryIsFile(entries, pats, home, digest, e);
    }
  }

  /** Collects the files again and stores each under its path. */
  method BuildPublicZip(home: Tree, public: seq<string>, digest: Digest, format: ZipFormat)
    returns (r: Option<Bytes>, ghost entries: seq<PublicEntry>, ghost faulted: bool, ghost failed: seq<bool>)
    requires WellFormed(home)
    ensures r.Some? ==>
      && Failing(Accepted(public), failed)
      && Collects(entries, Kept(Accepted(public), failed), home, digest) && Named(entries, home)
      && r.value == format.encode(ZipFor(home, entries))
    ensures r.Some? ==> !SomeBaseBlocked(Accepted(public), home)
    ensures r.None? ==> faulted || SomeBaseBlocked(Accepted(public), home)
  {
    hide Collects, SomeBaseBlocked, WellFormed, Accepted, Rejected, WarningsFor, SumSizes, IsFile, CleanSegments, Kept;
    entries := [];
    var collected;
    collected, faulted, failed := CollectPublic(home, public, digest);
    if collected.None? {
      return None, entries, faulted, failed;
    }
    var found := collected.value.entries;
    entries := found;
    AllNamed(found, Kept(Accepted(public), failed), home, digest);
    var members: seq<ZipMember> := [];
    for i := 0 to |found|
      invariant members == ZipFor(home, found)[..i]
    {
      var readFails: bool := *;
      if readFails {
        return None, entries, true, failed;
      }
      assert found[i] in found;
      members := members + [MemberOf(home, found[i])];
    }
    assert members == ZipFor(home, found);
    r := Some(format.encode(members));
  }

  // ----- unpacking -----

  /** One member, with `remaining` bytes of the budget left. */
  function UnpackOne(t: Tree, m: ZipMember, remaining: int): Result<Tree, ZipError> {
    if m.isDir then Ok(t)
    else if m.isSymlink || ZipNameEscapes(m.name) then Err(PathEscape)
    else
      match ExtractAt(t, CleanSegments(m.name), FileMember, m.data)
      case Err(_) => Err(WriteError)
      case Ok(after) => if |m.data| > remaining then Err(TooLarge) else Ok(after)
  }

  /** The expanded size of the file members. */
  function Expanded(members: seq<ZipMember>): nat {
    if members == [] then 0
    else
      var m := members[|members| - 1];
      Expanded(members[..|members| - 1]) + if m.isDir then 0 else |m.data|
  }

  function UnpackMembers(t: Tree, members: seq<ZipMember>, max: nat): Result<Tree, ZipError> {
    if members == [] then Ok(t)
    else
      var init := members[..|members| - 1];
      var before := UnpackMembers(t, init, max);
      if before.Err? then before else UnpackOne(before.value, members[|members| - 1], max - Expanded(init))
  }

  lemma {:induction false} UnpackStep(t: Tree, init: seq<ZipMember>, m: ZipMember, max: nat)
    requires UnpackMembers(t, init, max).Ok?
    ensures UnpackMembers(t, init + [m], max)
         == UnpackOne(UnpackMembers(t, init, max).value, m, max - Expanded(init))
  {
    hide UnpackOne, Expanded;
    LastAndRest(init, m);
  }

  lemma LastAndRest(init: seq<ZipMember>, m: ZipMember)
    ensures var all := init + [m]; all != [] && all[..|all| - 1] == init && all[|all| - 1] == m
  {
  }

  function Unpack(t: Tree, zip: Bytes, format: ZipFormat, max: nat): Result<Tree, ZipError> {
    if |zip| > max then Err(TooLarge)
    else
      match format.parse(zip)
      case None => Err(Corrupt)
      case Some(members) => UnpackMembers(t, members, max)
  }

  lemma {:induction false} UnpackFails(t: Tree, members: seq<ZipMember>, max: nat, i: nat)
    requires i <= |members| && UnpackMembers(t, members[..i], max).Err?
    ensures UnpackMembers(t, members, max) == UnpackMembers(t, members[..i], max)
    decreases |members| - i
  {
    if i == |members| {
      assert members[..i] == members;
    } else {
      assert members[..i + 1][..i] == members[..i];
      UnpackFails(t, members, max, i + 1);
    }
  }

  /** What a success says of each member that is no directory: it is a regular file, under a
      relative name that cleans to at least one ordinary element. */
  ghost predicate SafeMember(m: ZipMember) {
    m.isDir || (!m.isSymlink && !("/" <= m.name) && CleanSegments(m.name) != [] && AllNames(CleanSegments(m.name)))
  }

  lemma {:induction false} UnpackedSafe(t: Tree, members: seq<ZipMember>, max: nat)
    requires UnpackMembers(t, members, max).Ok?
    ensures forall m | m in members :: SafeMember(m)
  {
    hide ExtractAt;
    if members != [] {
      var last := members[|members| - 1];
      UnpackedSafe(t, members[..|members| - 1], max);
      if !last.isDir { ZipGuardExact(last.name); }
      assert members == members[..|members| - 1] + [last];
    }
  }

  /** Copies at most one byte more than the budget allows. */
  method WritePublicFile(disk: Disk, p: Segments, src: Bytes, max: nat) returns (n: nat, error: Option<ZipError>)
    modifies disk
    ensures old(disk.faulted) ==> disk.faulted
    ensures old(disk.written) <= disk.written <= old(disk.written) + max + 1
    ensures error == None ==>
      && n == |src| <= max && Writable(old(disk.tree), p) && disk.tree == old(disk.tree)[p := File(src)]
      && disk.written == old(disk.written) + n && disk.faulted == old(disk.faulted)
    ensures error.Some? && !disk.faulted ==>
      error.value == if Writable(old(disk.tree), p) then TooLarge else WriteError
    ensures error == Some(TooLarge) ==> |src| > max
  {
    var copied := if |src| > max then src[..max + 1] else src;
    var ok := disk.WriteFile(p, copied);
    if !ok {
      return 0, Some(WriteError);
    }
    n := |copied|;
    error := if n > max then Some(TooLarge) else None;
  }

  method UnpackMember(disk: Disk, dst: Segments, m: ZipMember, remaining: nat)
    returns (n: nat, error: Option<ZipError>)
    requires AllNames(dst) && dst != []
    modifies disk
    ensures old(disk.faulted) ==> disk.faulted
    ensures old(disk.written) <= disk.written <= old(disk.written) + remaining + 1
    ensures error == None ==>
      && UnpackOne(old(disk.tree), m, remaining) == Ok(disk.tree) && disk.faulted == old(disk.faulted)
      && n == (if m.isDir then 0 else |m.data|) <= remaining && disk.written == old(disk.written) + n
    ensures error.Some? && !disk.faulted ==> UnpackOne(old(disk.tree), m, remaining) == Err(error.value)
  {
    if m.isDir {
      return 0, None;
    }
    if m.isSymlink {
      return 0, Some(PathEscape);
    }
    if ZipNameEscapes(m.name) {
      return 0, Some(PathEscape);
    }
    var target := JoinPath(AbsText(dst), Clean(m.name));
    ZipTargetInside(dst, m.name);
    if target != AbsText(dst) && !(AbsText(dst) + "/" <= target) {
      assert false;
    }
    var p := CleanSegments(m.name);
    ZipGuardExact(m.name);
    var ok := disk.MkdirAll(Parent(p));
    if !ok {
      return 0, Some(WriteError);
    }
    n, error := WritePublicFile(disk, p, m.data, remaining);
  }

  method UnpackPublicZip(disk: Disk, dst: Segments, zip: Bytes, format: ZipFormat, max: nat)
    returns (error: Option<ZipError>)
    requires AllNames(dst) && dst != []
    modifies disk
    ensures old(disk.faulted) ==> disk.faulted
    ensures disk.written <= old(disk.written) + max + 1
    ensures error == None ==>
      && Unpack(old(disk.tree), zip, format, max) == Ok(disk.tree) && disk.faulted == old(disk.faulted)
      && disk.written == old(disk.written) + Expanded(format.parse(zip).value) <= old(disk.written) + max
    ensures error.Some? && !disk.faulted ==> Unpack(old(disk.tree), zip, format, max) == Err(error.value)
    ensures error == None ==>
      && |zip| <= max && format.parse(zip).Some?
      && forall m | m in format.parse(zip).value :: SafeMember(m)
  {
    hide UnpackOne, SafeMember;
    if |zip| > max {
      return Some(TooLarge);
    }
    var parsed := format.parse(zip);
    if parsed.None? {
      return Some(Corrupt);
    }
    var members := parsed.value;
    var remaining: int := max;
    for i := 0 to |members|
      invariant 0 <= remaining == max - Expanded(members[..i])
      invariant disk.written == old(disk.written) + Expanded(members[..i])
      invariant UnpackMembers(old(disk.tree), members[..i], max) == Ok(disk.tree) && disk.faulted == old(disk.faulted)
    {
      assert members[..i + 1][..i] == members[..i];
      var n;
      n, error := UnpackMember(disk, dst, members[i], remaining);
      if error.Some? {
        if !disk.faulted {
          UnpackFails(old(disk.tree), members, max, i + 1);
        }
        return;
      }
      remaining := remaining - n;
    }
    assert members[..|members|] == members;
    UnpackedSafe(old(disk.tree), members, max);
    error := None;
  }

  // ----- what a successful unpacking leaves -----

  /** No later member is written to the same file. */
  predicate LastWriter(members: seq<ZipMember>, i: nat)
    requires i < |members|
  {
    && !members[i].isDir
    && forall j | i < j < |members| ::
         members[j].isDir || CleanSegments(members[j].name) != CleanSegments(members[i].name)
  }

  predicate IsTarget(members: seq<ZipMember>, q: Segments) {
    exists i :: 0 <= i < |members| && !members[i].isDir && CleanSegments(members[i].name) == q
  }

  predicate AboveTarget(members: seq<ZipMember>, q: Segments) {
    exists i :: 0 <= i < |members| && !members[i].isDir && Above(q, CleanSegments(members[i].name))
  }

  lemma {:induction false} UnpackedSum(t: Tree, members: seq<ZipMember>, max: nat)
    requires UnpackMembers(t, members, max).Ok?
    ensures Expanded(members) <= max
  {
    if members != [] {
      UnpackedSum(t, members[..|members| - 1], max);
    }
  }

  /** `r` is `t` with the file `p` written and the directories above it made. */
  ghost predicate Wrote(t: Tree, r: Tree, p: Segments, data: Bytes) {
    && p in r && r[p] == File(data)
    && (forall q :: q in r <==> q in t || Above(q, p))
    && (forall q | q in r && q != p :: r[q] == if q in t then t[q] else Folder)
  }

  lemma OneUnpacked(t: Tree, m: ZipMember, remaining: int)
    requires UnpackOne(t, m, remaining).Ok?
    ensures m.isDir ==> UnpackOne(t, m, remaining).value == t
    ensures !m.isDir ==> Wrote(t, UnpackOne(t, m, remaining).value, CleanSegments(m.name), m.data)
  {
    if !m.isDir {
      var p := CleanSegments(m.name);
      ZipGuardExact(m.name);
      forall q
        ensures Above(q, p) <==> q == p || Above(q, Parent(p))
      {
        AboveParent(q, p);
      }
    }
  }

  /** Each target holds the data of the last member written to it. */
  ghost predicate HoldsLast(r: Tree, members: seq<ZipMember>) {
    forall i | 0 <= i < |members| && LastWriter(members, i) ::
      var p := CleanSegments(members[i].name); p in r && r[p] == File(members[i].data)
  }

  /** Every file that is no target is what it was, and the only new paths are the targets
      and the directories above them. */
  ghost predicate AddsOnlyTargets(t: Tree, r: Tree, members: seq<ZipMember>) {
    && (forall q :: q in r <==> q in t || AboveTarget(members, q))
    && (forall q | q in r && !IsTarget(members, q) :: r[q] == if q in t then t[q] else Folder)
  }

  lemma {:induction false} UnpackedContents(t: Tree, members: seq<ZipMember>, max: nat)
    requires UnpackMembers(t, members, max).Ok?
    ensures var r := UnpackMembers(t, members, max).value; HoldsLast(r, members) && AddsOnlyTargets(t, r, members)
  {
    hide UnpackOne, HoldsLast, AddsOnlyTargets, Wrote, CleanSegments;
    if members == [] {
      NothingWritten(t);
    } else {
      var init, m := members[..|members| - 1], members[|members| - 1];
      UnpackedContents(t, init, max);
      assert members == init + [m];
      var before := UnpackMembers(t, init, max).value;
      var after := UnpackMembers(t, members, max).value;
      OneUnpacked(before, m, max - Expanded(init));
      HoldsLastNext(before, after, init, m);
      AddsNext(t, before, after, init, m);
    }
  }

  lemma NothingWritten(t: Tree)
    ensures HoldsLast(t, []) && AddsOnlyTargets(t, t, [])
  {
  }

  lemma HoldsLastNext(before: Tree, after: Tree, init: seq<ZipMember>, m: ZipMember)
    requires HoldsLast(before, init)
    requires m.isDir ==> after == before
    requires !m.isDir ==> Wrote(before, after, CleanSegments(m.name), m.data)
    ensures HoldsLast(after, init + [m])
  {
    hide CleanSegments;
    var members := init + [m];
    assert members[|init|] == m;
    forall i | 0 <= i < |init| && LastWriter(members, i)
      ensures var p := CleanSegments(members[i].name); p in after && after[p] == File(members[i].data)
    {
      assert members[i] == init[i];
      assert forall j | i < j < |init| :: members[j] == init[j];
      assert LastWriter(init, i);
    }
  }

  lemma AddsNext(t: Tree, before: Tree, after: Tree, init: seq<ZipMember>, m: ZipMember)
    requires AddsOnlyTargets(t, before, init)
    requires m.isDir ==> after == before
    requires !m.isDir ==> Wrote(before, after, CleanSegments(m.name), m.data)
    ensures AddsOnlyTargets(t, after, init + [m])
  {
    hide CleanSegments, IsTarget, AboveTarget;
    TargetsNext(init, m);
  }

  lemma TargetsNext(init: seq<ZipMember>, m: ZipMember)
    ensures forall q :: IsTarget(init + [m], q) <==> IsTarget(init, q) || (!m.isDir && q == CleanSegments(m.name))
    ensures forall q :: AboveTarget(init + [m], q) <==>
              AboveTarget(init, q) || (!m.isDir && Above(q, CleanSegments(m.name)))
  {
    hide CleanSegments;
    var members := init + [m];
    assert members[|init|] == m && forall i | 0 <= i < |init| :: members[i] == init[i];
  }
}
