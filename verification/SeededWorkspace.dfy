/** Exporting a workspace, seeding another from the module, and exporting that again. */
module SeededWorkspace {
  import opened Wrappers
  import opened GoPaths
  import opened Unicode
  import opened FileTrees
  import opened WorkspaceArchive
  import opened WorkspaceRestore
  import opened PublicGlob
  import opened PublicPatterns
  import opened PublicEntries
  import opened PublicCollection
  import opened PublicZip
  import opened ModuleExport

  // ----- collected files -----

  /** Each entry stands for a file of `home`, under its own path. */
  ghost predicate Faithful(entries: seq<PublicEntry>, home: Tree) {
    forall e | e in entries ::
      var q := CleanSegments(e.path);
      IsFile(home, q) && e.path == Text(q, false) && e.size == |home[q].data|
  }

  function PathsOf(entries: seq<PublicEntry>): (paths: seq<Segments>)
    ensures |paths| == |entries| && forall i | 0 <= i < |entries| :: paths[i] == CleanSegments(entries[i].path)
  {
    seq(|entries|, i requires 0 <= i < |entries| => CleanSegments(entries[i].path))
  }

  lemma CollectedFaithful(entries: seq<PublicEntry>, pats: seq<Pattern>, home: Tree, digest: Digest)
    requires WellFormed(home) && Collects(entries, pats, home, digest)
    ensures Faithful(entries, home) && Named(entries, home)
  {
    hide WellFormed, Collects, CleanSegments, Text;
    forall e | e in entries
      ensures var q := CleanSegments(e.path);
              IsFile(home, q) && e.path == Text(q, false) && e.size == |home[q].data|
    {
      EntryIsFile(entries, pats, home, digest, e);
    }
  }

  lemma FaithfulNext(init: seq<PublicEntry>, e: PublicEntry, home: Tree)
    requires Faithful(init + [e], home)
    ensures Faithful(init, home) && Faithful([e], home)
  {
    hide CleanSegments, Text, IsFile;
    assert e in init + [e];
    assert forall x | x in init :: x in init + [e];
  }

  lemma {:induction false} ExpandedSum(home: Tree, entries: seq<PublicEntry>)
    requires Faithful(entries, home) && Named(entries, home)
    ensures Expanded(ZipFor(home, entries)) == SumSizes(entries)
    decreases |entries|
  {
    if entries != [] {
      hide CleanSegments, Text, ZipFor, Named, Faithful;
      var init, last := entries[..|entries| - 1], entries[|entries| - 1];
      assert entries == init + [last];
      FaithfulNext(init, last, home);
      ZipForNext(home, init, last);
      ExpandedSum(home, init);
      OneSize(last, home);
      assert (ZipFor(home, init) + [MemberOf(home, last)])[..|init|] == ZipFor(home, init);
    }
  }

  lemma OneSize(e: PublicEntry, home: Tree)
    requires Faithful([e], home)
    ensures IsFile(home, CleanSegments(e.path)) && |MemberOf(home, e).data| == e.size
  {
    hide CleanSegments, Text;
    assert e in [e];
  }

  // ----- what is seeded into a workspace -----

  /** `start` with the paths of `home` that lead to one of `visited`. */
  ghost function Merged(start: Tree, home: Tree, visited: seq<Segments>): Tree { start + Partial(home, visited) }

  /** A workspace that can be seeded with files of `home`: the folders it has are its own,
      and the files it has are files of `home`. */
  ghost predicate Fits(start: Tree, home: Tree) {
    WellFormed(start) && forall q | IsFile(start, q) :: IsFile(home, q) && home[q] == start[q]
  }

  /** A file is to be written where the workspace has a folder. */
  ghost predicate Collides(start: Tree, paths: seq<Segments>) {
    exists p :: p in paths && p in start && start[p] == Folder
  }

  ghost predicate FilesOf(home: Tree, paths: seq<Segments>) { forall p | p in paths :: IsFile(home, p) }

  lemma CoveredFile(home: Tree, paths: seq<Segments>, q: Segments)
    requires WellFormed(home) && FilesOf(home, paths) && IsFile(home, q) && q in Partial(home, paths)
    ensures q in paths
  {
    hide WellFormed;
    RootIsFolder(home);
    var x :| x in paths && Above(q, x);
    AboveIsFolder(home, q, x);
  }

  lemma RootIsFolder(t: Tree)
    requires WellFormed(t)
    ensures [] in t && t[[]] == Folder
  {
  }

  /** Every file of the merged tree is a file of `home`. */
  lemma MergedFile(start: Tree, home: Tree, paths: seq<Segments>, q: Segments)
    requires Fits(start, home) && IsFile(Merged(start, home, paths), q)
    ensures IsFile(home, q) && home[q] == Merged(start, home, paths)[q]
  {
  }

  lemma MergedNothing(start: Tree, home: Tree)
    requires Fits(start, home) && WellFormed(home)
    ensures Merged(start, home, []) == start
  {
    PartialNone(home);
  }

  /** Writing one more file of `home`, when no folder is in its place. */
  lemma MergedNext(start: Tree, home: Tree, paths: seq<Segments>, x: Segments)
    requires WellFormed(home) && Fits(start, home) && IsFile(home, x) && !(x in start && start[x] == Folder)
    ensures ExtractAt(Merged(start, home, paths), x, FileMember, home[x].data) == Ok(Merged(start, home, paths + [x]))
  {
    var before, after := Merged(start, home, paths), Merged(start, home, paths + [x]);
    RootIsFolder(home);
    PartialNext(home, paths, x);
    MergedAgrees(start, home, paths, x);
    hide WellFormed, Fits, Merged;
    assert Above(x, x);
    FileAdded(before, after, x);
  }

  lemma MergedAgrees(start: Tree, home: Tree, paths: seq<Segments>, x: Segments)
    requires WellFormed(home) && Fits(start, home) && IsFile(home, x) && !(x in start && start[x] == Folder)
    requires forall q :: q in Partial(home, paths + [x]) <==> q in Partial(home, paths) || Above(q, x)
    requires forall q | Above(q, x) :: q in home && (q != x ==> home[q] == Folder)
    ensures var before, after := Merged(start, home, paths), Merged(start, home, paths + [x]);
            && x in after && after[x] == home[x]
            && (forall q :: q in after <==> q in before || Above(q, x))
            && (forall q | q in before :: before[q] == after[q])
            && forall q | Above(q, x) && q != x :: q in after && after[q] == Folder
  {
    hide WellFormed, Covered;
    assert Above(x, x);
    var before, after := Merged(start, home, paths), Merged(start, home, paths + [x]);
    forall q | q in before
      ensures before[q] == after[q]
    {
      if q in start && q !in Partial(home, paths) && Above(q, x) && start[q].File? {
        assert IsFile(start, q);
      }
    }
  }

  /** Where the workspace has a folder, a file cannot be written. */
  lemma MergedCollision(start: Tree, home: Tree, paths: seq<Segments>, x: Segments)
    requires WellFormed(home) && FilesOf(home, paths) && !Collides(start, paths)
    requires IsFile(home, x) && x in start && start[x] == Folder
    ensures ExtractAt(Merged(start, home, paths), x, FileMember, home[x].data).Err?
  {
    hide WellFormed;
    var t := Merged(start, home, paths);
    if x in Partial(home, paths) {
      CoveredFile(home, paths, x);
      assert false;
    }
    assert x in t && t[x] == Folder;
  }

  // ----- unpacking into it -----

  lemma UnpackEntry(start: Tree, home: Tree, visited: seq<Segments>, e: PublicEntry, remaining: int)
    requires WellFormed(home) && Fits(start, home) && FilesOf(home, visited) && !Collides(start, visited)
    requires Faithful([e], home) && IsFile(home, CleanSegments(e.path))
    ensures var q := CleanSegments(e.path);
            var r := UnpackOne(Merged(start, home, visited), MemberOf(home, e), remaining);
            if q in start && start[q] == Folder then r.Err?
            else r == if e.size > remaining then Err(TooLarge) else Ok(Merged(start, home, visited + [q]))
  {
    hide ExtractAt, Merged, Collides, FilesOf, Fits;
    assert e in [e];
    var q := CleanSegments(e.path);
    NamesNormal(q, false);
    TextSegments(q, false);
    ZipGuardExact(e.path);
    if q in start && start[q] == Folder {
      MergedCollision(start, home, visited, q);
    } else {
      MergedNext(start, home, visited, q);
    }
  }

  /** What unpacking some collected files gives: they are added, if and only if their sizes
      are within the budget and no folder is in the place of one. */
  ghost predicate Unpacks(r: Result<Tree, ZipError>, start: Tree, home: Tree, visited: seq<Segments>,
                          entries: seq<PublicEntry>, max: nat) {
    && (r.Ok? <==> SumSizes(entries) <= max && !Collides(start, PathsOf(entries)))
    && (r.Ok? ==> r.value == Merged(start, home, visited + PathsOf(entries)))
    && (r.Err? && !Collides(start, PathsOf(entries)) ==> r.error == TooLarge)
  }

  lemma PathsNext(init: seq<PublicEntry>, last: PublicEntry, start: Tree, home: Tree, visited: seq<Segments>)
    requires Faithful(init, home) && FilesOf(home, visited) && !Collides(start, visited)
    ensures PathsOf(init + [last]) == PathsOf(init) + [CleanSegments(last.path)]
    ensures var q := CleanSegments(last.path);
            Collides(start, PathsOf(init + [last])) <==>
              Collides(start, PathsOf(init)) || (q in start && start[q] == Folder)
    ensures FilesOf(home, visited + PathsOf(init))
    ensures !Collides(start, PathsOf(init)) ==> !Collides(start, visited + PathsOf(init))
  {
    hide CleanSegments, Text;
    var q, paths := CleanSegments(last.path), PathsOf(init);
    assert PathsOf(init + [last]) == paths + [q];
    assert q in paths + [q] && forall p | p in paths :: p in paths + [q];
    forall p | p in paths
      ensures IsFile(home, p)
    {
      var i :| 0 <= i < |init| && paths[i] == p;
      assert init[i] in init;
    }
  }

  lemma UnpackNext(start: Tree, home: Tree, visited: seq<Segments>, init: seq<PublicEntry>, last: PublicEntry, max: nat)
    requires WellFormed(home) && Fits(start, home) && FilesOf(home, visited) && !Collides(start, visited)
    requires Faithful(init + [last], home) && Named(init, home) && Named(init + [last], home)
    requires Unpacks(UnpackMembers(Merged(start, home, visited), ZipFor(home, init), max), start, home, visited, init,
                     max)
    ensures Unpacks(UnpackMembers(Merged(start, home, visited), ZipFor(home, init + [last]), max), start, home, visited,
                    init + [last], max)
  {
    hide CleanSegments, Text, UnpackOne, UnpackMembers, Merged, WellFormed, ZipFor, Named, Faithful, Expanded, SumSizes;
    hide IsFile, MemberOf, Fits, FilesOf, Collides;
    FaithfulNext(init, last, home);
    ZipForNext(home, init, last);
    SumAppend(init, last);
    PathsNext(init, last, start, home, visited);
    if SumSizes(init) <= max && !Collides(start, PathsOf(init)) {
      ExpandedSum(home, init);
      UnpackEntry(start, home, visited + PathsOf(init), last, max - SumSizes(init));
      UnpackStep(Merged(start, home, visited), ZipFor(home, init), MemberOf(home, last), max);
      assert visited + PathsOf(init) + [CleanSegments(last.path)] == visited + PathsOf(init + [last]);
    } else {
      UnpackStays(Merged(start, home, visited), ZipFor(home, init), MemberOf(home, last), max);
    }
  }

  lemma {:induction false} UnpackExactly(start: Tree, home: Tree, visited: seq<Segments>, entries: seq<PublicEntry>,
                                         max: nat)
    requires WellFormed(home) && Fits(start, home) && FilesOf(home, visited) && !Collides(start, visited)
    requires Faithful(entries, home) && Named(entries, home)
    ensures Unpacks(UnpackMembers(Merged(start, home, visited), ZipFor(home, entries), max), start, home, visited,
                    entries, max)
    decreases |entries|
  {
    if entries == [] {
      assert visited + PathsOf(entries) == visited;
    } else {
      hide UnpackMembers, Merged, WellFormed, ZipFor, Named, Faithful, Unpacks, Fits, FilesOf, Collides;
      var init, last := entries[..|entries| - 1], entries[|entries| - 1];
      assert entries == init + [last];
      FaithfulNext(init, last, home);
      ZipForNext(home, init, last);
      UnpackExactly(start, home, visited, init, max);
      UnpackNext(start, home, visited, init, last, max);
    }
  }

  lemma UnpackStays(t: Tree, init: seq<ZipMember>, m: ZipMember, max: nat)
    requires UnpackMembers(t, init, max).Err?
    ensures UnpackMembers(t, init + [m], max) == UnpackMembers(t, init, max)
  {
    assert (init + [m])[..|init|] == init;
  }

  // ----- seeding it -----

  /** The profile and the collected files. */
  function Targets(entries: seq<PublicEntry>): seq<Segments> { [PROFILE] + PathsOf(entries) }

  /** The workspace a module seeds: what it had, with the profile, the collected files and
      nothing else. */
  ghost function Seeded(start: Tree, home: Tree, entries: seq<PublicEntry>): Tree {
    Merged(start, home, Targets(entries))
  }

  /** Within the size limits, and only then, a fresh workspace is seeded. */
  ghost predicate WithinLimits(home: Tree, entries: seq<PublicEntry>, lib: Library)
    requires IsFile(home, PROFILE) && Named(entries, home)
  {
    && |home[PROFILE].data| <= 0x10_0000
    && |lib.format.encode(ZipFor(home, entries))| <= 0x400_0000
    && SumSizes(entries) <= 0x400_0000
  }

  lemma WriteAtTop(t: Tree, p: Segments, data: Bytes)
    requires |p| == 1 && [] in t && t[[]] == Folder
    ensures ExtractAt(t, p, FileMember, data) == if Writable(t, p) then Ok(t[p := File(data)]) else Err(WriteFailed)
  {
    assert Parent(p) == [];
    assert WithDirs(t, []) == t;
    assert forall q | Above(q, []) :: q == [];
    assert !Blocked(t, []);
  }

  lemma SeedProfile(start: Tree, home: Tree)
    requires WellFormed(home) && Fits(start, home) && IsFile(home, PROFILE)
    ensures Writable(start, PROFILE) <==> !Collides(start, [PROFILE])
    ensures Writable(start, PROFILE) ==> start[PROFILE := home[PROFILE]] == Merged(start, home, [PROFILE])
  {
    RootIsFolder(start);
    MergedNothing(start, home);
    assert PROFILE in [PROFILE] && Parent(PROFILE) == [];
    if !Collides(start, [PROFILE]) {
      MergedNext(start, home, [], PROFILE);
      assert [] + [PROFILE] == [PROFILE];
      WriteAtTop(start, PROFILE, home[PROFILE].data);
    }
  }

  lemma SeedThree(t: Tree, a: Member, b: Member, c: Member, format: ZipFormat)
    requires a.name != PROFILE_MEMBER && a.name != PUBLIC_MEMBER && b.name == PROFILE_MEMBER
    ensures HasProfile([a, b, c])
    ensures SeedOne(t, b, format).Err? ==> SeedMembers(t, [a, b, c], format) == SeedOne(t, b, format)
    ensures SeedOne(t, b, format).Ok? ==>
              SeedMembers(t, [a, b, c], format) == SeedOne(SeedOne(t, b, format).value, c, format)
  {
    var ms := [a, b, c];
    assert ms[1] == b;
    assert ms[..2] == [a, b] && [a, b][..1] == [a] && [a][..0] == [];
    assert SeedOne(t, a, format) == Ok(t);
    hide SeedOne;
    assert SeedMembers(t, [a], format) == Ok(t);
    assert SeedMembers(t, [a, b], format) == SeedOne(t, b, format);
  }

  lemma TargetsCollide(start: Tree, entries: seq<PublicEntry>)
    ensures Collides(start, Targets(entries)) <==> Collides(start, [PROFILE]) || Collides(start, PathsOf(entries))
  {
    var targets := Targets(entries);
    assert forall p :: p in targets <==> p == PROFILE || p in PathsOf(entries);
  }

  /** A workspace whose files, if it has any, are those of the exported one is seeded from
      the module if and only if the profile, the zip and the expanded files are within their
      limits and it has no folder in the place of a file to be written.  It then gains exactly
      the profile, the collected files and the folders above them. */
  lemma SeedExactly(home: Tree, image: Bytes, lib: Library, members: seq<Member>, entries: seq<PublicEntry>,
                    start: Tree)
    requires WellFormed(home) && Lossless(lib.format) && IsExport(home, image, lib, members, entries)
    requires Fits(start, home)
    ensures var r := Seed(start, members, lib.format);
            && (r.Ok? <==> WithinLimits(home, entries, lib) && !Collides(start, Targets(entries)))
            && (r.Ok? ==> r.value == Seeded(start, home, entries))
            && (r.Err? && !Collides(start, Targets(entries)) ==>
                  r.error == if |home[PROFILE].data| > 0x10_0000 then ProfileTooLarge
                             else if |lib.format.encode(ZipFor(home, entries))| > 0x400_0000 then ZipTooLarge
                             else BadZip(TooLarge))
  {
    hide WellFormed, Collects, Merged, ZipFor, Named, Writable, UnpackMembers, SeedMembers, HasProfile, Faithful, Fits,
      Collides, FilesOf;
    hide SomeBaseBlocked, Accepted, Rejected;
    var profile, zip := home[PROFILE].data, lib.format.encode(ZipFor(home, entries));
    CollectedFaithful(entries, Accepted(PublicOf(home, lib)), home, lib.digest);
    assert lib.format.parse(zip) == Some(ZipFor(home, entries)) && zip != [];
    MemberNames();
    var a, b, c := Member(IMAGE_MEMBER, image), Member(PROFILE_MEMBER, profile), Member(PUBLIC_MEMBER, zip);
    assert members == [a, b, c];
    SeedThree(start, a, b, c, lib.format);
    SeedProfile(start, home);
    TargetsCollide(start, entries);
    ProfileIsFile(home);
    if |profile| <= MAX_PROFILE_BYTES && |zip| <= DEFAULT_MAX_BYTES && Writable(start, PROFILE) {
      UnpackExactly(start, home, [PROFILE], entries, DEFAULT_MAX_BYTES);
    }
  }

  lemma ProfileIsFile(home: Tree)
    requires IsFile(home, PROFILE)
    ensures FilesOf(home, [PROFILE])
  {
  }

  // ----- exporting it again -----

  lemma TargetFiles(home: Tree, entries: seq<PublicEntry>)
    requires Faithful(entries, home) && IsFile(home, PROFILE)
    ensures FilesOf(home, Targets(entries))
  {
    hide CleanSegments, Text;
    forall p | p in Targets(entries)
      ensures IsFile(home, p)
    {
      if p != PROFILE {
        var i :| 0 <= i < |entries| && PathsOf(entries)[i] == p;
        assert entries[i] in entries;
      }
    }
  }

  lemma SeededWellFormed(start: Tree, home: Tree, paths: seq<Segments>)
    requires WellFormed(home) && Fits(start, home) && FilesOf(home, paths) && !Collides(start, paths)
    ensures WellFormed(Merged(start, home, paths))
  {
    var t, part := Merged(start, home, paths), Partial(home, paths);
    PartialWellFormed(home, paths);
    forall p | p in t
      ensures AllNames(p) && Parent(p) in t && (p != [] ==> t[Parent(p)] == Folder)
    {
      if p !in part && Parent(p) in part && home[Parent(p)].File? {
        CoveredFile(home, paths, Parent(p));
      }
    }
  }

  lemma PartialWellFormed(home: Tree, visited: seq<Segments>)
    requires WellFormed(home)
    ensures WellFormed(Partial(home, visited))
  {
    var t := Partial(home, visited);
    assert Covered([], visited);
    forall p | p in t
      ensures AllNames(p) && Parent(p) in t && (p != [] ==> t[Parent(p)] == Folder)
    {
      if p != [] {
        var x :| x in visited && Above(p, x);
        AboveParent(p, x);
        assert Covered(Parent(p), visited);
      }
    }
  }

  lemma TargetThere(start: Tree, home: Tree, paths: seq<Segments>, q: Segments)
    requires q in paths && IsFile(home, q)
    ensures IsFile(Merged(start, home, paths), q) && Merged(start, home, paths)[q] == home[q]
  {
    assert Above(q, q);
  }

  /** The seeded workspace holds the same files under the selected keys. */
  lemma SeededSelection(start: Tree, home: Tree, entries: seq<PublicEntry>, pats: seq<Pattern>, digest: Digest)
    requires WellFormed(home) && Fits(start, home) && Collects(entries, pats, home, digest)
    ensures SameSelection(pats, home, Seeded(start, home, entries))
  {
    hide WellFormed, Accepts, CleanSegments, Text, SortedByPath, Merged, Fits;
    var w := Seeded(start, home, entries);
    forall key
      ensures Selected(pats, key, home) <==> Selected(pats, key, w)
      ensures IsFile(w, CleanSegments(key)) ==>
                IsFile(home, CleanSegments(key)) && home[CleanSegments(key)] == w[CleanSegments(key)]
    {
      if IsFile(w, CleanSegments(key)) {
        MergedFile(start, home, Targets(entries), CleanSegments(key));
      }
      if Selected(pats, key, home) {
        SelectedCollected(start, home, entries, pats, digest, key);
        var p :| p in pats && Selects(p, key, home);
        assert Selects(p, key, w);
      }
      if Selected(pats, key, w) {
        var p :| p in pats && Selects(p, key, w);
        assert Selects(p, key, home);
      }
    }
  }

  lemma SelectedCollected(start: Tree, home: Tree, entries: seq<PublicEntry>, pats: seq<Pattern>, digest: Digest,
                          key: string)
    requires WellFormed(home) && Collects(entries, pats, home, digest) && Selected(pats, key, home)
    ensures IsFile(Seeded(start, home, entries), CleanSegments(key))
  {
    hide WellFormed, Selected, CleanSegments, Text, SortedByPath, Merged;
    var keys :|
      && KeysOf(keys, pats, home) && FileKeys(keys, home)
      && SortedByPath(entries) && Permutations.Permutation(entries, EntriesFor(home, keys, digest));
    Permutations.SameElements(entries, EntriesFor(home, keys, digest));
    var i :| 0 <= i < |keys| && keys[i] == key;
    var q, e := CleanSegments(key), EntriesFor(home, keys, digest)[i];
    assert IsFile(home, q) && e in entries;
    EntryPath(home, q, digest);
    var paths := PathsOf(entries);
    var j :| 0 <= j < |entries| && entries[j] == e;
    assert paths[j] == q && q in paths && q in Targets(entries);
    TargetThere(start, home, Targets(entries), q);
  }

  lemma BlockedBefore(start: Tree, home: Tree, paths: seq<Segments>, p: Pattern)
    requires WellFormed(home) && Fits(start, home) && BaseBlocked(p, Merged(start, home, paths))
    ensures BaseBlocked(p, home)
  {
    hide CleanSegments, LiteralBaseDir, Merged, Fits, WellFormed;
    var w, root := Merged(start, home, paths), CleanSegments(LiteralBaseDir(p.rel));
    var q :| Above(q, root) && q in w && w[q].File?;
    MergedFile(start, home, paths, q);
    if root in home { AboveIsFolder(home, q, root); }
  }

  lemma SeededBases(start: Tree, home: Tree, paths: seq<Segments>, pats: seq<Pattern>)
    requires WellFormed(home) && Fits(start, home) && !SomeBaseBlocked(pats, home)
    ensures !SomeBaseBlocked(pats, Merged(start, home, paths))
  {
    hide BaseBlocked, WellFormed, Merged, Fits;
    if SomeBaseBlocked(pats, Merged(start, home, paths)) {
      var p :| p in pats && BaseBlocked(p, Merged(start, home, paths));
      BlockedBefore(start, home, paths, p);
      assert false;
    }
  }

  /** Exporting, seeding a workspace and exporting that with the same image is accepted, and
      gives the same collection and the same module.  The seeded workspace may be empty, have
      its layout directories or any other folders (`FoldersFit`), or be seeded already. */
  lemma ExportSeedFixedPoint(home: Tree, image: Bytes, lib: Library, members: seq<Member>, entries: seq<PublicEntry>,
                             start: Tree, workspace: Tree, members2: seq<Member>, entries2: seq<PublicEntry>)
    requires WellFormed(home) && Lossless(lib.format) && IsExport(home, image, lib, members, entries)
    requires Fits(start, home)
    requires Seed(start, members, lib.format) == Ok(workspace)
    ensures WellFormed(workspace) && Refusal(workspace, image, lib) == None && Fits(workspace, home)
    ensures IsExport(workspace, image, lib, members2, entries2) ==> entries2 == entries && members2 == members
  {
    hide WellFormed, Collects, Merged, ZipFor, Named, SomeBaseBlocked, Accepted, Rejected, Seed, SameSelection, Fits,
      Collides, FilesOf, Faithful;
    var pats, targets := Accepted(PublicOf(home, lib)), Targets(entries);
    SeedExactly(home, image, lib, members, entries, start);
    CollectedFaithful(entries, pats, home, lib.digest);
    TargetFiles(home, entries);
    SeededWellFormed(start, home, targets);
    SeededFits(start, home, targets);
    assert targets[0] == PROFILE;
    TargetThere(start, home, targets, PROFILE);
    SeededBases(start, home, targets, pats);
    if IsExport(workspace, image, lib, members2, entries2) {
      SeededSelection(start, home, entries, pats, lib.digest);
      CollectionsAgree(entries, entries2, pats, home, workspace, lib.digest);
      SameZip(start, home, workspace, entries);
    }
  }

  lemma SeededFits(start: Tree, home: Tree, paths: seq<Segments>)
    requires Fits(start, home) && WellFormed(Merged(start, home, paths))
    ensures Fits(Merged(start, home, paths), home)
  {
    hide WellFormed, Merged;
    forall q | IsFile(Merged(start, home, paths), q)
      ensures IsFile(home, q) && home[q] == Merged(start, home, paths)[q]
    {
      MergedFile(start, home, paths, q);
    }
  }

  lemma SameZip(start: Tree, home: Tree, workspace: Tree, entries: seq<PublicEntry>)
    requires Named(entries, home) && Named(entries, workspace) && workspace == Seeded(start, home, entries)
    requires Fits(start, home)
    ensures ZipFor(home, entries) == ZipFor(workspace, entries)
  {
    hide CleanSegments, Merged, Fits;
    forall i | 0 <= i < |entries|
      ensures MemberOf(home, entries[i]) == MemberOf(workspace, entries[i])
    {
      assert entries[i] in entries;
      MergedFile(start, home, Targets(entries), CleanSegments(entries[i].path));
    }
  }

  // ----- workspaces that can be seeded -----

  /** Any tree of folders; the empty directory is one. */
  lemma FoldersFit(start: Tree, home: Tree)
    requires WellFormed(start) && forall q | q in start :: start[q] == Folder
    ensures Fits(start, home) && WellFormed(EMPTY_DIR)
  {
  }

  lemma {:induction false} WithLayoutFolders(t: Tree, dirs: seq<Segments>)
    requires WellFormed(t) && (forall q | q in t :: t[q] == Folder) && forall p | p in dirs :: AllNames(p)
    ensures WellFormed(WithLayout(t, dirs)) && forall q | q in WithLayout(t, dirs) :: WithLayout(t, dirs)[q] == Folder
    decreases |dirs|
  {
    if dirs != [] {
      assert dirs[0] in dirs && forall p | p in dirs[1..] :: p in dirs;
      FoldersMade(t, dirs[0]);
      WithLayoutFolders(WithDirs(t, dirs[0]), dirs[1..]);
    }
  }

  lemma FoldersMade(t: Tree, p: Segments)
    requires WellFormed(t) && (forall q | q in t :: t[q] == Folder) && AllNames(p)
    ensures WellFormed(WithDirs(t, p)) && forall q | q in WithDirs(t, p) :: WithDirs(t, p)[q] == Folder
  {
    var r := WithDirs(t, p);
    assert Above([], p);
    forall q | q in r
      ensures AllNames(q) && Parent(q) in r
    {
      if q !in t {
        AboveParent(q, p);
        forall seg | seg in q ensures IsName(seg) { assert seg in p; }
      }
    }
  }

  /** A new workspace with its layout directories, whether or not the exported one has them. */
  lemma LayoutFits(home: Tree)
    ensures Fits(WithLayout(EMPTY_DIR, LAYOUT), home)
  {
    forall p | p in LAYOUT
      ensures AllNames(p)
    {
      LayoutNames(p);
    }
    WithLayoutFolders(EMPTY_DIR, LAYOUT);
    FoldersFit(WithLayout(EMPTY_DIR, LAYOUT), home);
  }

  lemma LayoutNames(p: Segments)
    requires p in LAYOUT
    ensures AllNames(p)
  {
    hide WithLayout;
    assert IsName(".openclaw") && IsName("workspace") && IsName(".tmp") && IsName(".xdg");
    assert IsName("config") && IsName("cache") && IsName("state");
  }
}
