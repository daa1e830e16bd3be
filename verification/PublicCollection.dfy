/** Selecting the files an agent exports: the profile's `public` entries over HOME. */
module PublicCollection {
  import opened Wrappers
  import opened GoStrings
  import opened GoPaths
  import opened Unicode
  import opened FileTrees
  import opened PublicGlob
  import opened PublicPatterns
  import opened Permutations
  import opened PublicEntries

  datatype Collection = Collection(entries: seq<PublicEntry>, totalBytes: nat, warnings: seq<Warning>)

  /** SHA-256 in hexadecimal: a function of the contents. */
  type Digest = Bytes -> string

  predicate IsFile(home: Tree, q: Segments) { q in home && home[q].File? }

  /** What `collectOne` appends for the file `q`. */
  function EntryFor(home: Tree, q: Segments, digest: Digest): PublicEntry
    requires IsFile(home, q)
  {
    PublicEntry(Text(q, false), |home[q].data|, digest(home[q].data))
  }

  // ----- what is selected -----

  /** The key under which a pattern remembers a file: an exact entry its own text, a glob
      the file's path. */
  ghost predicate Selects(p: Pattern, key: string, home: Tree) {
    if !p.isGlob then key == p.rel && IsFile(home, CleanSegments(key))
    else key == Text(CleanSegments(key), false) && IsFile(home, CleanSegments(key)) && Accepts(p.rel, key)
  }

  ghost predicate Selected(pats: seq<Pattern>, key: string, home: Tree) {
    exists p :: p in pats && Selects(p, key, home)
  }

  ghost predicate KeysOf(keys: seq<string>, pats: seq<Pattern>, home: Tree) {
    && Distinct(keys)
    && forall key :: key in keys <==> Selected(pats, key, home)
  }

  ghost predicate FileKeys(keys: seq<string>, home: Tree) {
    forall key | key in keys :: IsFile(home, CleanSegments(key))
  }

  function EntriesFor(home: Tree, keys: seq<string>, digest: Digest): (entries: seq<PublicEntry>)
    requires FileKeys(keys, home)
    ensures |entries| == |keys|
    ensures forall i | 0 <= i < |keys| :: entries[i] == EntryFor(home, CleanSegments(keys[i]), digest)
  {
    seq(|keys|, i requires 0 <= i < |keys| => EntryFor(home, CleanSegments(keys[i]), digest))
  }

  /** A possible result of collecting: one entry for each remembered key, sorted. */
  ghost predicate Collects(entries: seq<PublicEntry>, pats: seq<Pattern>, home: Tree, digest: Digest) {
    exists keys ::
      && KeysOf(keys, pats, home) && FileKeys(keys, home)
      && SortedByPath(entries) && Permutation(entries, EntriesFor(home, keys, digest))
  }

  /** A directory a glob starts from runs through a regular file, which ends the walk with
      an error. */
  ghost predicate BaseBlocked(p: Pattern, home: Tree) {
    var root := CleanSegments(LiteralBaseDir(p.rel));
    p.isGlob && root !in home && Blocked(home, root)
  }

  ghost predicate SomeBaseBlocked(pats: seq<Pattern>, home: Tree) {
    exists p :: p in pats && BaseBlocked(p, home)
  }

  ghost function WarningsOf(p: Pattern, home: Tree): seq<Warning> {
    var q := CleanSegments(p.rel);
    (if !p.isGlob && q in home && home[q].Folder? then [IsDirectory(p.raw, p.rel)] else [])
    + if exists key :: Selects(p, key, home) then [] else [NoMatch(p.raw)]
  }

  /** The exact entries whose `Stat` the system fails, by position. */
  ghost predicate Failing(pats: seq<Pattern>, failed: seq<bool>) {
    |failed| == |pats| && forall i | 0 <= i < |pats| && failed[i] :: !pats[i].isGlob
  }

  /** The patterns that take part.  A failing `Stat` is taken for a file that is not there. */
  ghost function Kept(pats: seq<Pattern>, failed: seq<bool>): seq<Pattern>
    requires |failed| == |pats|
  {
    if pats == [] then []
    else
      var n := |pats| - 1;
      Kept(pats[..n], failed[..n]) + if failed[n] then [] else [pats[n]]
  }

  /** What the patterns have to say, in their order. */
  ghost function WarningsFor(pats: seq<Pattern>, failed: seq<bool>, home: Tree): seq<Warning>
    requires |failed| == |pats|
  {
    if pats == [] then []
    else
      var n := |pats| - 1;
      WarningsFor(pats[..n], failed[..n], home)
      + if failed[n] then [NoMatch(pats[n].raw)] else WarningsOf(pats[n], home)
  }

  lemma EntriesDescribe(entries: seq<PublicEntry>, keys: seq<string>, home: Tree, digest: Digest)
    requires FileKeys(keys, home) && Permutation(entries, EntriesFor(home, keys, digest))
    ensures forall e | e in entries :: exists q ::
              && IsFile(home, q) && e.path == Text(q, false)
              && e.size == |home[q].data| && e.digest == digest(home[q].data)
  {
    hide CleanSegments, Permutation, Text;
    var all := EntriesFor(home, keys, digest);
    SameElements(entries, all);
    forall e | e in entries
      ensures exists q ::
                && IsFile(home, q) && e.path == Text(q, false)
                && e.size == |home[q].data| && e.digest == digest(home[q].data)
    {
      var i :| 0 <= i < |all| && all[i] == e;
      assert keys[i] in keys && IsFile(home, CleanSegments(keys[i]));
    }
  }

  // ----- the collector -----

  class Collector {
    const home: Tree
    const digest: Digest
    var entries: seq<PublicEntry>
    var totalBytes: nat
    var warnings: seq<Warning>
    var seen: set<string>
    ghost var keys: seq<string>
    ghost var faulted: bool

    constructor (home: Tree, digest: Digest, warnings: seq<Warning>)
      ensures this.home == home && this.digest == digest
      ensures Valid() && keys == [] && !faulted && this.warnings == warnings
    {
      this.home, this.digest := home, digest;
      this.entries, this.totalBytes, this.warnings, this.seen := [], 0, warnings, {};
      this.keys, this.faulted := [], false;
    }

    /** One entry for each key in the seen set, in the order they were seen. */
    ghost predicate Valid()
      reads this
    {
      && (forall key :: key in seen <==> key in keys)
      && Distinct(keys)
      && FileKeys(keys, home)
      && entries == EntriesFor(home, keys, digest)
      && totalBytes == SumSizes(entries)
    }

    method CollectOne(key: string) returns (ok: bool)
      requires Valid() && IsFile(home, CleanSegments(key)) && key !in seen
      modifies this
      ensures warnings == old(warnings)
      ensures old(faulted) ==> faulted
      ensures ok ==> Valid() && keys == old(keys) + [key] && faulted == old(faulted)
      ensures ok ==>
                var data := home[CleanSegments(key)].data;
                entries == old(entries) + [PublicEntry(Text(CleanSegments(key), false), |data|, digest(data))]
      ensures !ok ==> faulted
    {
      var readFails: bool := *;
      if readFails {
        faulted := true;
        return false;
      }
      var q := CleanSegments(key);
      var entry := EntryFor(home, q, digest);
      ghost var before := entries;
      seen := seen + {key};
      keys := keys + [key];
      entries := entries + [entry];
      totalBytes := totalBytes + entry.size;
      assert entries[..|entries| - 1] == before;
      ok := true;
    }

    /** Valid, with the keys of `pats` collected. */
    ghost predicate Done(pats: seq<Pattern>)
      reads this
    {
      Valid() && forall key :: key in keys <==> Selected(pats, key, home)
    }

    /** A `Stat` that fails, for whatever reason, is no error: the entry then matches
        nothing. */
    method CollectExact(p: Pattern, ghost before: seq<Pattern>) returns (ok: bool, matched: bool, ghost failed: bool)
      requires WellFormed(home) && Proper(p) && !p.isGlob && Done(before)
      modifies this
      ensures old(faulted) ==> faulted
      ensures ok ==> Done(if failed then before else before + [p]) && faulted == old(faulted)
      ensures ok ==>
                var said := if failed then [NoMatch(p.raw)] else WarningsOf(p, home);
                warnings + (if matched then [] else [NoMatch(p.raw)]) == old(warnings) + said
      ensures !ok ==> faulted
      ensures !BaseBlocked(p, home)
    {
      hide Selected, FileKeys, EntriesFor, SumSizes, WellFormed, Proper, CleanSegments, Accepts, Text;
      ok, matched, failed := true, false, false;
      var statFails: bool := *;
      if statFails {
        failed := true;
        return;
      }
      SelectedNext(before, p, home);
      assert IsFile(home, CleanSegments(p.rel)) <==> Selects(p, p.rel, home);
      var q := CleanSegments(p.rel);
      if q !in home {
        return;
      }
      if home[q].Folder? {
        warnings := warnings + [IsDirectory(p.raw, p.rel)];
        return;
      }
      matched := true;
      if p.rel !in seen {
        ok := CollectOne(p.rel);
      }
    }

    method CollectGlob(p: Pattern, ghost before: seq<Pattern>) returns (ok: bool, matched: bool)
      requires WellFormed(home) && Proper(p) && p.isGlob && Done(before)
      modifies this
      ensures old(faulted) ==> faulted
      ensures ok ==> Done(before + [p]) && faulted == old(faulted)
      ensures ok ==> warnings + (if matched then [] else [NoMatch(p.raw)]) == old(warnings) + WarningsOf(p, home)
      ensures ok ==> !BaseBlocked(p, home)
      ensures !ok ==> faulted || BaseBlocked(p, home)
    {
      hide Accepts, CleanSegments, Text, LiteralBaseDir, Proper, Selects, Visited, SomeVisited, Selected, Blocked;
      hide FileKeys, SumSizes, EntriesFor;
      ok, matched := true, false;
      var base := ComputeLiteralBaseDir(p.rel);
      var root := CleanSegments(base);
      if root !in home && IsBlocked(home, root) {
        return false, false;
      }
      var paths := Walk(home, root);
      VisitedNone(p, home);
      assert paths[..0] == [];
      for i := 0 to |paths|
        invariant Valid() && faulted == old(faulted) && warnings == old(warnings)
        invariant forall q | q in paths :: q in home
        invariant forall key :: key in keys <==> Selected(before, key, home) || Visited(p, key, paths[..i], home)
        invariant matched <==> SomeVisited(p, paths[..i], home)
      {
        var walkFails: bool := *;
        if walkFails {
          faulted := true;
          return false, matched;
        }
        VisitedNext(p, paths, i, home);
        var q := paths[i];
        assert q in paths;
        if home[q].File? {
          var rel := Text(q, false);
          NamesNormal(q, false);
          TextSegments(q, false);
          if Accepts(p.rel, rel) {
            matched := true;
            if rel !in seen {
              ok := CollectOne(rel);
              if !ok {
                return;
              }
            }
          }
        }
      }
      assert paths[..|paths|] == paths;
      WalkFindsAll(p, paths, home);
      SelectedNext(before, p, home);
    }
  }

  /** Selected, and among the walked paths. */
  ghost predicate Visited(p: Pattern, key: string, paths: seq<Segments>, home: Tree) {
    CleanSegments(key) in paths && Selects(p, key, home)
  }

  ghost predicate SomeVisited(p: Pattern, paths: seq<Segments>, home: Tree) {
    exists key :: Visited(p, key, paths, home)
  }

  lemma SelectedNext(before: seq<Pattern>, p: Pattern, home: Tree)
    ensures forall key :: Selected(before + [p], key, home) <==> Selected(before, key, home) || Selects(p, key, home)
  {
    forall key
      ensures Selected(before + [p], key, home) <==> Selected(before, key, home) || Selects(p, key, home)
    {
      if Selected(before, key, home) {
        var x :| x in before && Selects(x, key, home);
        assert x in before + [p];
      }
      assert p in before + [p];
    }
  }

  lemma VisitedNone(p: Pattern, home: Tree)
    ensures forall key :: !Visited(p, key, [], home)
    ensures !SomeVisited(p, [], home)
  {
  }

  lemma VisitedNext(p: Pattern, paths: seq<Segments>, i: nat, home: Tree)
    requires WellFormed(home) && i < |paths| && paths[i] in home && p.isGlob
    ensures forall key :: Visited(p, key, paths[..i + 1], home) <==>
              Visited(p, key, paths[..i], home)
              || (key == Text(paths[i], false) && IsFile(home, paths[i]) && Accepts(p.rel, key))
    ensures SomeVisited(p, paths[..i + 1], home) <==>
              SomeVisited(p, paths[..i], home)
              || (IsFile(home, paths[i]) && Accepts(p.rel, Text(paths[i], false)))
  {
    hide Accepts, CleanSegments, Text;
    assert paths[..i + 1] == paths[..i] + [paths[i]];
    NamesNormal(paths[i], false);
    TextSegments(paths[i], false);
  }

  lemma NoPatterns(home: Tree)
    ensures forall key :: !Selected([], key, home)
    ensures Kept([], []) == [] && WarningsFor([], [], home) == [] && !SomeBaseBlocked([], home)
  {
  }

  lemma NextPattern(pats: seq<Pattern>, i: nat, failed: seq<bool>, home: Tree)
    requires i < |pats| && |failed| == i + 1
    ensures Kept(pats[..i + 1], failed) == Kept(pats[..i], failed[..i]) + if failed[i] then [] else [pats[i]]
    ensures WarningsFor(pats[..i + 1], failed, home)
         == WarningsFor(pats[..i], failed[..i], home)
            + if failed[i] then [NoMatch(pats[i].raw)] else WarningsOf(pats[i], home)
    ensures SomeBaseBlocked(pats[..i + 1], home) <==> SomeBaseBlocked(pats[..i], home) || BaseBlocked(pats[i], home)
    ensures SomeBaseBlocked(pats[..i + 1], home) ==> SomeBaseBlocked(pats, home)
  {
    hide BaseBlocked, WarningsOf;
    var upto := pats[..i + 1];
    assert upto[..i] == pats[..i] && upto == pats[..i] + [pats[i]];
    assert forall p | p in upto :: p in pats;
    assert pats[i] in upto;
    assert forall p | p in pats[..i] :: p in upto;
  }

  /** The pruned walk misses nothing: what a glob accepts is below its literal base. */
  lemma WalkFindsAll(p: Pattern, paths: seq<Segments>, home: Tree)
    requires WellFormed(home) && Proper(p) && p.isGlob
    requires var root := CleanSegments(LiteralBaseDir(p.rel));
             forall q :: q in home && Above(root, q) ==> q in paths
    ensures forall key :: Selects(p, key, home) <==> Visited(p, key, paths, home)
    ensures WarningsOf(p, home) == if SomeVisited(p, paths, home) then [] else [NoMatch(p.raw)]
  {
    hide Accepts, CleanSegments, Text, LiteralBaseDir, Proper;
    var root := CleanSegments(LiteralBaseDir(p.rel));
    forall key | Selects(p, key, home)
      ensures Visited(p, key, paths, home)
    {
      var q := CleanSegments(key);
      GlobStaysBelow(p, q);
      AboveIsFolder(home, root, q);
    }
    assert (exists key :: Selects(p, key, home)) <==> SomeVisited(p, paths, home);
    assert [] + [NoMatch(p.raw)] == [NoMatch(p.raw)];
  }

  /** `failed` says for which accepted entries the `Stat` failed, and `faulted` whether a
      failing call ended the collection. */
  method CollectPublic(home: Tree, public: seq<string>, digest: Digest)
    returns (r: Option<Collection>, ghost faulted: bool, ghost failed: seq<bool>)
    requires WellFormed(home)
    ensures r.Some? ==>
      && Failing(Accepted(public), failed)
      && Collects(r.value.entries, Kept(Accepted(public), failed), home, digest)
      && (forall e | e in r.value.entries :: exists q ::
            && IsFile(home, q) && e.path == Text(q, false)
            && e.size == |home[q].data| && e.digest == digest(home[q].data))
      && r.value.totalBytes == SumSizes(r.value.entries)
      && r.value.warnings == Rejected(public) + WarningsFor(Accepted(public), failed, home)
    ensures r.Some? ==> !SomeBaseBlocked(Accepted(public), home)
    ensures r.None? ==> faulted || SomeBaseBlocked(Accepted(public), home)
  {
    hide Accepted, Rejected, Proper, WellFormed, Selects, Selected, WarningsOf, WarningsFor, BaseBlocked,
      SomeBaseBlocked;
    hide SortByPath, SumSizes;
    hide FileKeys, EntriesFor, Kept, CleanSegments, Permutation;
    var pats, warnings := CompilePatterns(public);
    AcceptedProper(public);
    var col := new Collector(home, digest, warnings);
    NoPatterns(home);
    failed := [];
    assert pats[..0] == [] && warnings + [] == warnings;
    for i := 0 to |pats|
      invariant Failing(pats[..i], failed) && col.Done(Kept(pats[..i], failed)) && !col.faulted
      invariant col.warnings == Rejected(public) + WarningsFor(pats[..i], failed, home)
      invariant !SomeBaseBlocked(pats[..i], home)
    {
      var p := pats[i];
      assert p in pats;
      ghost var before, failing := col.warnings, false;
      var ok, matched;
      if p.isGlob {
        ok, matched := col.CollectGlob(p, Kept(pats[..i], failed));
      } else {
        ok, matched, failing := col.CollectExact(p, Kept(pats[..i], failed));
      }
      NextPattern(pats, i, failed + [failing], home);
      if !ok {
        return None, col.faulted, failed;
      }
      if !matched {
        col.warnings := col.warnings + [NoMatch(p.raw)];
      }
      ghost var said := if failing then [NoMatch(p.raw)] else WarningsOf(p, home);
      AppendTwice(Rejected(public), WarningsFor(pats[..i], failed, home), said);
      assert (failed + [failing])[..i] == failed;
      assert Kept(pats[..i], failed) + [] == Kept(pats[..i], failed);
      failed := failed + [failing];
    }
    assert pats[..|pats|] == pats;
    SortFacts(col.entries);
    Symmetric(SortByPath(col.entries), col.entries);
    EntriesDescribe(SortByPath(col.entries), col.keys, home, digest);
    faulted := false;
    assert KeysOf(col.keys, Kept(pats, failed), home);
    r := Some(Collection(SortByPath(col.entries), col.totalBytes, col.warnings));
  }

  lemma AppendTwice<T>(a: seq<T>, b: seq<T>, c: seq<T>)
    ensures a + b + c == a + (b + c)
  {
  }

  // ----- entries whose `Stat` fails -----

  /** Every file whose `Stat` failed is selected by an entry that took part as well. */
  ghost predicate Complete(pats: seq<Pattern>, failed: seq<bool>, home: Tree)
    requires |failed| == |pats|
  {
    forall i | 0 <= i < |pats| && failed[i] && Selects(pats[i], pats[i].rel, home) ::
      Selected(Kept(pats, failed), pats[i].rel, home)
  }

  /** Selected by an entry that took part. */
  ghost predicate TookPart(pats: seq<Pattern>, failed: seq<bool>, key: string, home: Tree)
    requires |failed| == |pats|
  {
    exists i :: 0 <= i < |pats| && !failed[i] && Selects(pats[i], key, home)
  }

  lemma TookPartNext(pats: seq<Pattern>, failed: seq<bool>, key: string, home: Tree)
    requires |failed| == |pats| > 0
    ensures var n := |pats| - 1;
            TookPart(pats, failed, key, home) <==>
              TookPart(pats[..n], failed[..n], key, home) || (!failed[n] && Selects(pats[n], key, home))
  {
    hide Selects;
    var n := |pats| - 1;
    if TookPart(pats[..n], failed[..n], key, home) {
      var i :| 0 <= i < n && !failed[..n][i] && Selects(pats[..n][i], key, home);
      assert !failed[i] && Selects(pats[i], key, home);
    }
    if TookPart(pats, failed, key, home) {
      var i :| 0 <= i < |pats| && !failed[i] && Selects(pats[i], key, home);
      assert i < n ==> !failed[..n][i] && Selects(pats[..n][i], key, home);
    }
  }

  lemma {:induction false} KeptSelects(pats: seq<Pattern>, failed: seq<bool>, key: string, home: Tree)
    requires |failed| == |pats|
    ensures Selected(Kept(pats, failed), key, home) <==> TookPart(pats, failed, key, home)
  {
    if pats != [] {
      hide Selects, Selected, TookPart;
      var n := |pats| - 1;
      var kept := Kept(pats[..n], failed[..n]);
      KeptSelects(pats[..n], failed[..n], key, home);
      SelectedNext(kept, pats[n], home);
      TookPartNext(pats, failed, key, home);
      assert kept + [] == kept;
    }
  }

  /** What is missing was selected by entries with a failing `Stat` alone. */
  lemma MissingFailed(pats: seq<Pattern>, failed: seq<bool>, key: string, home: Tree) returns (i: nat)
    requires Failing(pats, failed) && Selected(pats, key, home) && !Selected(Kept(pats, failed), key, home)
    ensures i < |pats| && failed[i] && key == pats[i].rel && Selects(pats[i], key, home)
  {
    KeptSelects(pats, failed, key, home);
    var p :| p in pats && Selects(p, key, home);
    i :| 0 <= i < |pats| && pats[i] == p;
  }

  lemma KeptPart(pats: seq<Pattern>, failed: seq<bool>, home: Tree)
    requires |failed| == |pats|
    ensures forall key | Selected(Kept(pats, failed), key, home) :: Selected(pats, key, home)
  {
    forall key | Selected(Kept(pats, failed), key, home)
      ensures Selected(pats, key, home)
    {
      KeptSelects(pats, failed, key, home);
      var i :| 0 <= i < |pats| && !failed[i] && Selects(pats[i], key, home);
      assert pats[i] in pats;
    }
  }

  /** Completeness is that of the selection. */
  lemma CompleteSelection(pats: seq<Pattern>, failed: seq<bool>, home: Tree)
    requires Failing(pats, failed)
    ensures Complete(pats, failed, home) <==>
              forall key :: Selected(pats, key, home) ==> Selected(Kept(pats, failed), key, home)
  {
    hide Selects, Kept;
    forall key | Complete(pats, failed, home) && Selected(pats, key, home)
      ensures Selected(Kept(pats, failed), key, home)
    {
      if !Selected(Kept(pats, failed), key, home) {
        var i := MissingFailed(pats, failed, key, home);
      }
    }
    forall i | 0 <= i < |pats| && failed[i] && Selects(pats[i], pats[i].rel, home)
      ensures Selected(pats, pats[i].rel, home)
    {
      assert pats[i] in pats;
    }
  }

  /** The number of entries tells whether any is missing. */
  lemma CompleteBySize(entries: seq<PublicEntry>, all: seq<PublicEntry>, pats: seq<Pattern>, failed: seq<bool>,
                       home: Tree, digest: Digest)
    requires Failing(pats, failed) && Collects(entries, Kept(pats, failed), home, digest)
    requires Collects(all, pats, home, digest)
    ensures |entries| == |all| <==> Complete(pats, failed, home)
  {
    hide CleanSegments, Selected, SortedByPath, Permutation, Distinct, Kept, Complete;
    var kept := Kept(pats, failed);
    var some :|
      && KeysOf(some, kept, home) && FileKeys(some, home)
      && SortedByPath(entries) && Permutation(entries, EntriesFor(home, some, digest));
    var keys :|
      && KeysOf(keys, pats, home) && FileKeys(keys, home)
      && SortedByPath(all) && Permutation(all, EntriesFor(home, keys, digest));
    SameElements(entries, EntriesFor(home, some, digest));
    SameElements(all, EntriesFor(home, keys, digest));
    CompleteSelection(pats, failed, home);
    KeptPart(pats, failed, home);
    SameSizeSameSet(some, keys);
  }

  lemma SameKeysCollect(entries: seq<PublicEntry>, pats: seq<Pattern>, more: seq<Pattern>, home: Tree, digest: Digest)
    requires Collects(entries, pats, home, digest)
    requires forall key :: Selected(pats, key, home) <==> Selected(more, key, home)
    ensures Collects(entries, more, home, digest)
  {
    hide CleanSegments, Selected, SortedByPath, Permutation, Distinct, FileKeys;
    var keys :|
      && KeysOf(keys, pats, home) && FileKeys(keys, home)
      && SortedByPath(entries) && Permutation(entries, EntriesFor(home, keys, digest));
    assert KeysOf(keys, more, home);
  }

  /** A collection that lost entries to failing calls is the collection of all entries
      exactly when it lost no file. */
  lemma CompleteExact(entries: seq<PublicEntry>, pats: seq<Pattern>, failed: seq<bool>, home: Tree, digest: Digest)
    requires Failing(pats, failed) && Collects(entries, Kept(pats, failed), home, digest)
    ensures Collects(entries, pats, home, digest) <==> Complete(pats, failed, home)
  {
    hide Collects, Complete, Kept, Selected;
    if Collects(entries, pats, home, digest) {
      CompleteBySize(entries, entries, pats, failed, home, digest);
    }
    if Complete(pats, failed, home) {
      CompleteSelection(pats, failed, home);
      KeptPart(pats, failed, home);
      SameKeysCollect(entries, Kept(pats, failed), pats, home, digest);
    }
  }

  lemma {:induction false} FailedIsWarned(pats: seq<Pattern>, failed: seq<bool>, i: nat, home: Tree)
    requires |failed| == |pats| && i < |pats| && failed[i]
    ensures NoMatch(pats[i].raw) in WarningsFor(pats, failed, home)
  {
    hide WarningsOf;
    var n := |pats| - 1;
    if i < n {
      FailedIsWarned(pats[..n], failed[..n], i, home);
    }
  }

  /** Each file that is missing was asked for by an exact entry that is said to match
      nothing.  So without a warning of that kind none is missing. */
  lemma MissingIsWarned(pats: seq<Pattern>, failed: seq<bool>, home: Tree)
    requires Failing(pats, failed)
    ensures forall key | Selected(pats, key, home) && !Selected(Kept(pats, failed), key, home) ::
              exists p :: p in pats && !p.isGlob && p.rel == key && NoMatch(p.raw) in WarningsFor(pats, failed, home)
    ensures (forall w | w in WarningsFor(pats, failed, home) :: !w.NoMatch?) ==> Complete(pats, failed, home)
  {
    hide Selects, Kept, WarningsFor;
    forall key | Selected(pats, key, home) && !Selected(Kept(pats, failed), key, home)
      ensures exists p :: p in pats && !p.isGlob && p.rel == key && NoMatch(p.raw) in WarningsFor(pats, failed, home)
    {
      var i := MissingFailed(pats, failed, key, home);
      FailedIsWarned(pats, failed, i, home);
      assert pats[i] in pats;
    }
    CompleteSelection(pats, failed, home);
  }

  lemma {:induction false} NothingFailed(pats: seq<Pattern>, failed: seq<bool>, home: Tree)
    requires |failed| == |pats| && true !in failed
    ensures Kept(pats, failed) == pats && Complete(pats, failed, home)
  {
    if pats != [] {
      var n := |pats| - 1;
      NothingFailed(pats[..n], failed[..n], home);
      assert pats[..n] + [pats[n]] == pats;
      assert failed[n] in failed;
    }
  }

  /** The file `a` is asked for and there, but its `Stat` fails: nothing is collected, and
      the only sign is a warning. */
  lemma StatExample(home: Tree, digest: Digest)
    requires IsFile(home, ["a"])
    ensures var pats, failed := [Pattern("~/a", "a", false)], [true];
            && Failing(pats, failed) && Selected(pats, "a", home)
            && Collects([], Kept(pats, failed), home, digest) && !Collects([], pats, home, digest)
            && WarningsFor(pats, failed, home) == [NoMatch("~/a")]
  {
    hide Text;
    var p, pats, failed := Pattern("~/a", "a", false), [Pattern("~/a", "a", false)], [true];
    SplitOne("a", '/');
    ReduceNames([], ["a"], false);
    assert [] + ["a"] == ["a"];
    assert p in pats && Selects(p, "a", home);
    assert pats[..0] == [] && failed[..0] == [];
    assert Kept(pats, failed) == [] && WarningsFor(pats, failed, home) == [NoMatch("~/a")];
    assert KeysOf([], [], home) && FileKeys([], home);
    assert EntriesFor(home, [], digest) == [] && SortedByPath([]) && Permutation([], EntriesFor(home, [], digest));
    assert failed[0] && !Selected([], "a", home);
    CompleteExact([], pats, failed, home, digest);
  }

  // ----- the pruned, deduplicated collection against the unpruned filter -----

  /** Each accepted file once, in strictly increasing order of paths, and nothing else. */
  ghost predicate Exactly(entries: seq<PublicEntry>, pats: seq<Pattern>, home: Tree, digest: Digest) {
    && StrictlySorted(entries)
    && forall e :: e in entries <==> AcceptedEntry(e, pats, home, digest)
  }

  ghost predicate AcceptedEntry(e: PublicEntry, pats: seq<Pattern>, home: Tree, digest: Digest) {
    exists q ::
      && IsFile(home, q) && MatchesAny(Text(q, false), pats)
      && e.path == Text(q, false) && e.size == |home[q].data| && e.digest == digest(home[q].data)
  }

  /** An exact entry that is not written as a clean path. */
  predicate Unclean(p: Pattern) { !p.isGlob && p.rel != Text(CleanSegments(p.rel), false) }

  ghost predicate UncleanSelectsFile(pats: seq<Pattern>, home: Tree) {
    exists p :: p in pats && Unclean(p) && IsFile(home, CleanSegments(p.rel))
  }

  ghost predicate AllProper(pats: seq<Pattern>) { forall p | p in pats :: Proper(p) }

  lemma LiteralAccepts(p: Pattern, s: string)
    requires !HasWild(p.rel)
    ensures Accepts(p.rel, s) <==> p.rel == s
  {
    CompilerExact(p.rel, s);
    LiteralWhole(p.rel, s);
  }

  /** A file the unpruned filter accepts is remembered under its own path. */
  lemma AcceptedIsSelected(pats: seq<Pattern>, home: Tree, q: Segments)
    requires WellFormed(home) && AllProper(pats) && IsFile(home, q)
    ensures CleanSegments(Text(q, false)) == q
    ensures MatchesAny(Text(q, false), pats) <==> Selected(pats, Text(q, false), home)
  {
    hide Accepts, CleanSegments, Text;
    NamesNormal(q, false);
    TextSegments(q, false);
    var text := Text(q, false);
    forall p | p in pats
      ensures Accepts(p.rel, text) <==> Selects(p, text, home)
    {
      if !p.isGlob { LiteralAccepts(p, text); }
    }
  }

  /** Without unclean entries, the keys are the accepted paths themselves. */
  lemma SelectedIsAccepted(pats: seq<Pattern>, home: Tree, key: string)
    requires WellFormed(home) && AllProper(pats) && Selected(pats, key, home)
    requires !UncleanSelectsFile(pats, home)
    ensures IsFile(home, CleanSegments(key)) && key == Text(CleanSegments(key), false)
    ensures MatchesAny(key, pats)
  {
    hide Accepts, CleanSegments, Text;
    var p :| p in pats && Selects(p, key, home);
    assert !Unclean(p);
    AcceptedIsSelected(pats, home, CleanSegments(key));
  }

  lemma SamePathSameFile(home: Tree, q: Segments, r: Segments, digest: Digest)
    requires WellFormed(home) && IsFile(home, q) && IsFile(home, r)
    requires EntryFor(home, q, digest).path == EntryFor(home, r, digest).path
    ensures q == r
  {
    NamesNormal(q, false);
    NamesNormal(r, false);
    TextInjective(q, r, false);
  }

  lemma SortedEntries(entries: seq<PublicEntry>, keys: seq<string>, home: Tree, digest: Digest)
    requires WellFormed(home) && FileKeys(keys, home)
    requires Permutation(entries, EntriesFor(home, keys, digest))
    ensures forall e :: e in entries <==> e in EntriesFor(home, keys, digest)
    ensures PathsDistinguish(entries)
  {
    hide Permutation, WellFormed;
    var all := EntriesFor(home, keys, digest);
    SameElements(entries, all);
    forall e, f | e in entries && f in entries && e.path == f.path
      ensures e == f
    {
      assert e in all && f in all;
      var i :| 0 <= i < |all| && all[i] == e;
      var j :| 0 <= j < |all| && all[j] == f;
      SamePathSameFile(home, CleanSegments(keys[i]), CleanSegments(keys[j]), digest);
    }
  }

  /** What `CollectPublic` returns is exactly what the unpruned filter accepts, each file
      once, if and only if no entry with an empty or `.` element selects a file. */
  lemma CollectionExact(entries: seq<PublicEntry>, pats: seq<Pattern>, home: Tree, digest: Digest)
    requires WellFormed(home) && AllProper(pats) && Collects(entries, pats, home, digest)
    ensures Exactly(entries, pats, home, digest) <==> !UncleanSelectsFile(pats, home)
  {
    hide Accepts, CleanSegments, Text, Proper, WellFormed, Permutation, SortedByPath, PathsDistinguish, Distinct;
    hide KeysOf, FileKeys, UncleanSelectsFile, AcceptedEntry, StrictlySorted, AllProper;
    var keys :|
      && KeysOf(keys, pats, home) && FileKeys(keys, home)
      && SortedByPath(entries) && Permutation(entries, EntriesFor(home, keys, digest));
    SortedEntries(entries, keys, home, digest);
    StrictlySortedOnce(entries);
    var all := EntriesFor(home, keys, digest);
    Symmetric(entries, all);
    if Distinct(all) { DistinctPermutation(all, entries); }
    if Distinct(entries) { DistinctPermutation(entries, all); }
    if UncleanSelectsFile(pats, home) {
      UncleanSpoils(keys, pats, home, digest);
    } else {
      CleanKeepsOnce(keys, pats, home, digest);
      forall e
        ensures e in entries <==> AcceptedEntry(e, pats, home, digest)
      {
        EntryAccepted(e, keys, pats, home, digest);
      }
    }
  }

  lemma EntryAccepted(e: PublicEntry, keys: seq<string>, pats: seq<Pattern>, home: Tree, digest: Digest)
    requires WellFormed(home) && AllProper(pats) && KeysOf(keys, pats, home) && FileKeys(keys, home)
    requires !UncleanSelectsFile(pats, home)
    ensures e in EntriesFor(home, keys, digest) <==> AcceptedEntry(e, pats, home, digest)
  {
    hide Less, Accepts, CleanSegments, Text, Proper, WellFormed, Selected, MatchesAny;
    var all := EntriesFor(home, keys, digest);
    if e in all {
      var i :| 0 <= i < |all| && all[i] == e;
      assert keys[i] in keys;
      SelectedIsAccepted(pats, home, keys[i]);
    }
    if AcceptedEntry(e, pats, home, digest) {
      var q :|
        && IsFile(home, q) && MatchesAny(Text(q, false), pats)
        && e.path == Text(q, false) && e.size == |home[q].data| && e.digest == digest(home[q].data);
      AcceptedIsSelected(pats, home, q);
      var i :| 0 <= i < |keys| && keys[i] == Text(q, false);
      assert all[i] == e;
    }
  }

  lemma CleanKeepsOnce(keys: seq<string>, pats: seq<Pattern>, home: Tree, digest: Digest)
    requires WellFormed(home) && AllProper(pats) && KeysOf(keys, pats, home) && FileKeys(keys, home)
    requires !UncleanSelectsFile(pats, home)
    ensures Distinct(EntriesFor(home, keys, digest))
  {
    hide Accepts, CleanSegments, Text, Proper, WellFormed, Selected, MatchesAny, UncleanSelectsFile, AllProper;
    var all := EntriesFor(home, keys, digest);
    forall i, j | 0 <= i < j < |all|
      ensures all[i] != all[j]
    {
      assert keys[i] in keys && keys[j] in keys;
      SelectedIsAccepted(pats, home, keys[i]);
      SelectedIsAccepted(pats, home, keys[j]);
    }
  }

  /** A file that an unclean entry selects is either not accepted by the filter, or collected
      a second time under its own path. */
  lemma UncleanSpoils(keys: seq<string>, pats: seq<Pattern>, home: Tree, digest: Digest)
    requires WellFormed(home) && AllProper(pats) && KeysOf(keys, pats, home) && FileKeys(keys, home)
    requires UncleanSelectsFile(pats, home)
    ensures var all := EntriesFor(home, keys, digest);
            !Distinct(all) || exists e :: e in all && !AcceptedEntry(e, pats, home, digest)
  {
    hide Accepts, CleanSegments, Text, Proper, WellFormed, MatchesAny, AllProper;
    var p :| p in pats && Unclean(p) && IsFile(home, CleanSegments(p.rel));
    var q, all := CleanSegments(p.rel), EntriesFor(home, keys, digest);
    assert Selects(p, p.rel, home);
    assert p.rel in keys;
    var i :| 0 <= i < |keys| && keys[i] == p.rel;
    var e := EntryFor(home, q, digest);
    assert e == all[i];
    if AcceptedEntry(e, pats, home, digest) {
      var r :|
        && IsFile(home, r) && MatchesAny(Text(r, false), pats)
        && e.path == Text(r, false) && e.size == |home[r].data| && e.digest == digest(home[r].data);
      AcceptedIsSelected(pats, home, r);
      SamePathSameFile(home, q, r, digest);
      var j :| 0 <= j < |keys| && keys[j] == Text(q, false);
      assert all[j] == e;
    }
  }

  lemma DoubledSlash()
    ensures Split("a//b", '/') == ["a", "", "b"] && CleanSegments("a//b") == ["a", "b"]
    ensures Text(["a", "b"], false) == "a/b"
  {
    hide Split, Reduce, Step;
    SplitOne("a", '/');
    SplitOne("", '/');
    SplitOne("b", '/');
    SplitConcat("", "b", '/');
    SplitConcat("a", "/b", '/');
    assert "" + ['/'] + "b" == "/b" && "a" + ['/'] + "/b" == "a//b";
    assert ["a"] + ([""] + ["b"]) == ["a", "", "b"];
    ReduceSkips("a", "b");
    assert ["a", "b"][1..] == ["b"];
  }

  lemma ReduceSkips(a: string, b: string)
    requires IsName(a) && IsName(b)
    ensures Reduce([], [a, "", b], false) == [a, b]
  {
    var segs := [a, "", b];
    assert segs[1..] == ["", b] && ["", b][1..] == [b] && [b][1..] == [] && [a] + [b] == [a, b];
    assert Step([a], b, false) == [a, b] && Reduce([a, b], [], false) == [a, b];
    assert Reduce([a], [b], false) == [a, b];
    assert Reduce([a], ["", b], false) == [a, b];
    assert [] + [a] == [a] && Step([], a, false) == [a];
  }

  /** `~/a//b` selects the file `a/b`, which the filter built from it does not accept. */
  lemma UncleanExample(home: Tree)
    requires WellFormed(home) && IsFile(home, ["a", "b"])
    ensures var p := Pattern("~/a//b", "a//b", false);
            Proper(p) && UncleanSelectsFile([p], home) && !MatchesAny("a/b", [p])
  {
    hide Split, CleanSegments, Text, Accepts, WellFormed, LiteralBaseDir;
    var p := Pattern("~/a//b", "a//b", false);
    assert !HasWild("a//b");
    DoubledSlash();
    LiteralAccepts(p, "a/b");
    assert Unclean(p) && p in [p];
  }

  /** The only file is `a`, and the profile asks for everything in the directory `a/b`: the
      walk would start below a file. */
  lemma BlockedExample(home: Tree)
    requires home == map[[] := Folder, ["a"] := File([])]
    ensures WellFormed(home) && Accepted(["~/a/b/*"]) == [Pattern("~/a/b/*", "a/b/*", true)]
    ensures SomeBaseBlocked(Accepted(["~/a/b/*"]), home)
  {
    hide Split, CleanSegments, Text, Classify, LiteralBaseDir;
    var p := Pattern("~/a/b/*", "a/b/*", true);
    var segs := ["a", "b"];
    BlockedParts();
    assert Accepted([]) == [] && ["~/a/b/*"][..0] == [];
    assert Above(["a"], segs) && segs !in home;
    assert BaseBlocked(p, home);
    assert p in Accepted(["~/a/b/*"]);
  }

  lemma BlockedParts()
    ensures Classify("~/a/b/*") == Ok(Pattern("~/a/b/*", "a/b/*", true))
    ensures CleanSegments(LiteralBaseDir("a/b/*")) == ["a", "b"]
  {
    hide Split, Join, HasWild, TrimSpace, Reduce, LiteralPrefix;
    EntryTrimmed();
    BlockedSplit();
    Wilds();
    BlockedPrefix();
    assert LiteralBaseDir("a/b/*") == Join(["a", "b"], '/') == Text(["a", "b"], false) == "a/b";
    ReduceNames([], ["a", "b"], false);
    assert [] + ["a", "b"] == ["a", "b"];
  }

  lemma BlockedPrefix()
    ensures LiteralPrefix(["a", "b", "*"]) == ["a", "b"]
  {
    hide HasWild;
    Wilds();
    var segs := ["a", "b", "*"];
    assert segs[1..] == ["b", "*"] && segs[1..][1..] == ["*"];
    assert LiteralPrefix(["*"]) == [] && LiteralPrefix(["b", "*"]) == ["b"];
  }

  lemma EntryTrimmed()
    ensures TrimSpace("~/a/b/*") == "~/a/b/*" && "~/a/b/*"[2..] == "a/b/*"
  {
  }

  lemma Wilds()
    ensures HasWild("*") && HasWild("a/b/*") && !HasWild("a") && !HasWild("b")
  {
    assert IsWild("*"[0]) && "a/b/*"[4] == '*';
  }

  lemma BlockedSplit()
    ensures Split("a/b/*", '/') == ["a", "b", "*"] && Split("a/b", '/') == ["a", "b"]
    ensures Text(["a", "b"], false) == "a/b"
  {
    hide Split;
    SplitOne("a", '/');
    SplitOne("b", '/');
    SplitOne("*", '/');
    SplitConcat("a", "b", '/');
    SplitConcat("a/b", "*", '/');
    assert "a" + ['/'] + "b" == "a/b" && "a/b" + ['/'] + "*" == "a/b/*";
    assert ["a"] + ["b"] == ["a", "b"] && ["a", "b"] + ["*"] == ["a", "b", "*"] && ["a", "b"][1..] == ["b"];
  }

  // ----- the result does not depend on the order of the walk -----

  lemma EntriesPermute(home: Tree, a: seq<string>, b: seq<string>, digest: Digest)
    requires FileKeys(a, home) && FileKeys(b, home) && Permutation(a, b)
    ensures Permutation(EntriesFor(home, a, digest), EntriesFor(home, b, digest))
  {
    hide CleanSegments, Permutation;
    MapPermutation(a, b, EntriesFor(home, a, digest), EntriesFor(home, b, digest));
  }

  /** Two homes that agree on the selected files give the same collection. */
  lemma CollectionsAgree(e1: seq<PublicEntry>, e2: seq<PublicEntry>, pats: seq<Pattern>,
                         home1: Tree, home2: Tree, digest: Digest)
    requires WellFormed(home1) && WellFormed(home2)
    requires Collects(e1, pats, home1, digest) && Collects(e2, pats, home2, digest)
    requires SameSelection(pats, home1, home2)
    ensures e1 == e2
  {
    hide CleanSegments, Text, WellFormed, Selected, SortedByPath, PathsDistinguish, Permutation, Distinct;
    var k1 :|
      && KeysOf(k1, pats, home1) && FileKeys(k1, home1)
      && SortedByPath(e1) && Permutation(e1, EntriesFor(home1, k1, digest));
    var k2 :|
      && KeysOf(k2, pats, home2) && FileKeys(k2, home2)
      && SortedByPath(e2) && Permutation(e2, EntriesFor(home2, k2, digest));
    SameSet(k1, k2);
    assert FileKeys(k2, home1);
    EntriesPermute(home1, k1, k2, digest);
    assert EntriesFor(home1, k2, digest) == EntriesFor(home2, k2, digest);
    SortedEntries(e1, k1, home1, digest);
    Chain(e1, EntriesFor(home1, k1, digest), EntriesFor(home1, k2, digest));
    Symmetric(e2, EntriesFor(home2, k2, digest));
    Chain(e1, EntriesFor(home1, k2, digest), e2);
    OneOrder(e1, e2);
  }

  /** The same keys, standing for the same contents. */
  ghost predicate SameSelection(pats: seq<Pattern>, home1: Tree, home2: Tree) {
    && (forall key :: Selected(pats, key, home1) <==> Selected(pats, key, home2))
    && forall key |
         Selected(pats, key, home1) && IsFile(home1, CleanSegments(key)) && IsFile(home2, CleanSegments(key)) ::
         home1[CleanSegments(key)] == home2[CleanSegments(key)]
  }
}
