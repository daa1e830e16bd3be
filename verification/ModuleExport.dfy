/** Packing a module from a live workspace, and seeding a new workspace from it. */
module ModuleExport {
  import opened Wrappers
  import opened GoPaths
  import opened Unicode
  import opened FileTrees
  import opened PublicPatterns
  import opened PublicEntries
  import opened PublicCollection
  import opened PublicZip

  const IMAGE_MEMBER: string := "image.tar.gz"
  const PROFILE_MEMBER: string := "profile.toml"
  const PUBLIC_MEMBER: string := "public.zip"
  const PROFILE: Segments := [PROFILE_MEMBER]

  const MAX_MEMBER_BYTES: nat := 0x4000_0000
  const MAX_PROFILE_BYTES: nat := 0x10_0000

  /** One file of the container tar. */
  datatype Member = Member(name: string, data: Bytes)

  /** The library functions the packing code calls.  `parseProfile` gives a profile's
      `public` list, or None when the profile does not parse. */
  datatype Library = Library(format: ZipFormat, digest: Digest, parseProfile: Bytes -> Option<seq<string>>)

  datatype ExportError = ReadFailed | BadProfile | NoImage | InvalidEntries | CollectFailed | EmptyProfile

  datatype ExportResult = ExportResult(members: seq<Member>, collection: Collection)

  // ----- packing -----

  function ModuleMembers(image: Bytes, profile: Bytes, zip: Bytes): seq<Member> {
    [Member(IMAGE_MEMBER, image), Member(PROFILE_MEMBER, profile)]
    + if zip != [] then [Member(PUBLIC_MEMBER, zip)] else []
  }

  method PackModule(image: Bytes, profile: Bytes, publicZip: Bytes) returns (r: Result<seq<Member>, ExportError>)
    ensures r == if image == [] then Err(NoImage) else if profile == [] then Err(EmptyProfile)
                 else Ok(ModuleMembers(image, profile, publicZip))
  {
    if image == [] {
      return Err(NoImage);
    }
    if profile == [] {
      return Err(EmptyProfile);
    }
    var archive: seq<Member> := [];
    archive := archive + [Member(IMAGE_MEMBER, image)];
    archive := archive + [Member(PROFILE_MEMBER, profile)];
    if |publicZip| > 0 {
      archive := archive + [Member(PUBLIC_MEMBER, publicZip)];
    }
    assert archive == ModuleMembers(image, profile, publicZip);
    r := Ok(archive);
  }

  /** Why `Export` refuses a workspace, in the order of its checks. */
  ghost function Refusal(home: Tree, image: Bytes, lib: Library): Option<ExportError> {
    if !IsFile(home, ["profile.toml"]) then Some(ReadFailed)
    else
      match lib.parseProfile(home[PROFILE].data)
      case None => Some(BadProfile)
      case Some(public) =>
        if image == [] then Some(NoImage)
        else if Rejected(public) != [] then Some(InvalidEntries)
        else if SomeBaseBlocked(Accepted(public), home) then Some(CollectFailed)
        else if home[PROFILE].data == [] then Some(EmptyProfile)
        else None
  }

  ghost function PublicOf(home: Tree, lib: Library): seq<string>
    requires IsFile(home, PROFILE) && lib.parseProfile(home[PROFILE].data).Some?
  {
    lib.parseProfile(home[PROFILE].data).value
  }

  /** `members` is a complete module exported from `home` and `entries` what it collects. */
  ghost predicate IsExport(home: Tree, image: Bytes, lib: Library, members: seq<Member>, entries: seq<PublicEntry>) {
    && Refusal(home, image, lib) == None
    && Collects(entries, Accepted(PublicOf(home, lib)), home, lib.digest) && Named(entries, home)
    && members == ModuleMembers(image, home[PROFILE].data, lib.format.encode(ZipFor(home, entries)))
  }

  /** `members` is a module that `Export` packs, `zipped` what is in its zip, and `preview`
      what is reported beside it.  The files are collected twice; `failed` and `zipFailed`
      say for which entries the `Stat` failed. */
  ghost predicate Packs(home: Tree, image: Bytes, lib: Library, members: seq<Member>, preview: seq<PublicEntry>,
                        zipped: seq<PublicEntry>, failed: seq<bool>, zipFailed: seq<bool>) {
    && Refusal(home, image, lib) == None
    && var pats := Accepted(PublicOf(home, lib));
    && Failing(pats, failed) && Collects(preview, Kept(pats, failed), home, lib.digest)
    && Failing(pats, zipFailed) && Collects(zipped, Kept(pats, zipFailed), home, lib.digest) && Named(zipped, home)
    && members == ModuleMembers(image, home[PROFILE].data, lib.format.encode(ZipFor(home, zipped)))
  }

  lemma SelectionReflexive(pats: seq<Pattern>, home: Tree)
    ensures SameSelection(pats, home, home)
  {
  }

  /** A failing `Stat` of a declared file is no error here: the file is then missing from
      the preview, or from the module, or from both (`ExportComplete`). */
  method Export(home: Tree, image: Bytes, lib: Library)
    returns (r: Result<ExportResult, ExportError>, ghost faulted: bool, ghost zipped: seq<PublicEntry>,
             ghost failed: seq<bool>, ghost zipFailed: seq<bool>)
    requires WellFormed(home)
    ensures r.Ok? ==>
      && Packs(home, image, lib, r.value.members, r.value.collection.entries, zipped, failed, zipFailed)
      && r.value.collection.totalBytes == SumSizes(r.value.collection.entries)
      && r.value.collection.warnings == WarningsFor(Accepted(PublicOf(home, lib)), failed, home)
    ensures r.Err? && !faulted ==> Refusal(home, image, lib) == Some(r.error)
  {
    hide Collects, SomeBaseBlocked, WellFormed, Accepted, Rejected, WarningsFor, SumSizes, CleanSegments, Kept;
    faulted, zipped, failed, zipFailed := false, [], [], [];
    if PROFILE !in home || home[PROFILE].Folder? {
      return Err(ReadFailed), faulted, zipped, failed, zipFailed;
    }
    var readFails: bool := *;
    if readFails {
      return Err(ReadFailed), true, zipped, failed, zipFailed;
    }
    var profile := home[PROFILE].data;
    var parsed := lib.parseProfile(profile);
    if parsed.None? {
      return Err(BadProfile), faulted, zipped, failed, zipFailed;
    }
    if image == [] {
      return Err(NoImage), faulted, zipped, failed, zipFailed;
    }
    var public := parsed.value;
    var pats, rejected := CompilePatterns(public);
    if rejected != [] {
      return Err(InvalidEntries), faulted, zipped, failed, zipFailed;
    }
    var collected, zip;
    collected, faulted, failed := CollectPublic(home, public, lib.digest);
    if collected.None? {
      return Err(CollectFailed), faulted, zipped, failed, zipFailed;
    }
    zip, zipped, faulted, zipFailed := BuildPublicZip(home, public, lib.digest, lib.format);
    if zip.None? {
      return Err(CollectFailed), faulted, zipped, failed, zipFailed;
    }
    var packed := PackModule(image, profile, zip.value);
    if packed.Err? {
      return Err(packed.error), faulted, zipped, failed, zipFailed;
    }
    assert [] + WarningsFor(pats, failed, home) == WarningsFor(pats, failed, home);
    r := Ok(ExportResult(packed.value, collected.value));
  }

  /** The module holds every declared file exactly when the second collection lost none, and
      it is the module that the preview describes, complete, exactly when neither did. */
  lemma ExportComplete(home: Tree, image: Bytes, lib: Library, members: seq<Member>, preview: seq<PublicEntry>,
                       zipped: seq<PublicEntry>, failed: seq<bool>, zipFailed: seq<bool>)
    requires WellFormed(home) && Lossless(lib.format)
    requires Packs(home, image, lib, members, preview, zipped, failed, zipFailed)
    ensures var pats := Accepted(PublicOf(home, lib));
            && (IsExport(home, image, lib, members, zipped) <==> Complete(pats, zipFailed, home))
            && (IsExport(home, image, lib, members, preview) <==>
                  Complete(pats, failed, home) && Complete(pats, zipFailed, home))
  {
    hide Collects, SomeBaseBlocked, WellFormed, Accepted, Rejected, CleanSegments, SameSelection, Kept, Complete,
      ZipFor;
    var pats := Accepted(PublicOf(home, lib));
    CompleteExact(preview, pats, failed, home, lib.digest);
    CompleteExact(zipped, pats, zipFailed, home, lib.digest);
    if Complete(pats, failed, home) && Complete(pats, zipFailed, home) {
      SelectionReflexive(pats, home);
      CollectionsAgree(zipped, preview, pats, home, home, lib.digest);
    }
    if IsExport(home, image, lib, members, preview) {
      SameMembers(image, home[PROFILE].data, lib.format, ZipFor(home, zipped), ZipFor(home, preview));
      CompleteBySize(zipped, preview, pats, zipFailed, home, lib.digest);
    }
  }

  lemma SameMembers(image: Bytes, profile: Bytes, format: ZipFormat, a: seq<ZipMember>, b: seq<ZipMember>)
    requires Lossless(format)
    requires ModuleMembers(image, profile, format.encode(a)) == ModuleMembers(image, profile, format.encode(b))
    ensures a == b
  {
    var x, y := format.encode(a), format.encode(b);
    assert format.parse(x) == Some(a) && format.parse(y) == Some(b);
    assert ModuleMembers(image, profile, x)[2] == Member(PUBLIC_MEMBER, x);
    assert ModuleMembers(image, profile, y)[2] == Member(PUBLIC_MEMBER, y);
  }

  lemma PackedWithoutFailures(home: Tree, image: Bytes, lib: Library, members: seq<Member>, preview: seq<PublicEntry>,
                              zipped: seq<PublicEntry>, failed: seq<bool>, zipFailed: seq<bool>)
    requires WellFormed(home) && Lossless(lib.format)
    requires Packs(home, image, lib, members, preview, zipped, failed, zipFailed) && true !in failed
    requires true !in zipFailed
    ensures IsExport(home, image, lib, members, preview) && zipped == preview
  {
    hide Collects, WellFormed, Accepted, Rejected, SomeBaseBlocked, Kept, Complete, SameSelection;
    var pats := Accepted(PublicOf(home, lib));
    NothingFailed(pats, failed, home);
    NothingFailed(pats, zipFailed, home);
    ExportComplete(home, image, lib, members, preview, zipped, failed, zipFailed);
    SelectionReflexive(pats, home);
    CollectionsAgree(zipped, preview, pats, home, home, lib.digest);
  }

  // ----- reading one member back -----

  function ReadMember(members: seq<Member>, name: string, max: nat): Option<Bytes> {
    if members == [] then None
    else if members[0].name == name then if |members[0].data| > max then None else Some(members[0].data)
    else ReadMember(members[1..], name, max)
  }

  /** Copies the member through a temporary file; a system call that fails gives an error. */
  method ExtractMember(members: seq<Member>, name: string, max: nat) returns (r: Option<Bytes>, ghost faulted: bool)
    ensures r.Some? ==> r == ReadMember(members, name, max)
    ensures !faulted ==> r == ReadMember(members, name, max)
    ensures faulted ==> r == None && exists m :: m in members && m.name == name
  {
    assert members[0..] == members;
    for i := 0 to |members|
      invariant ReadMember(members, name, max) == ReadMember(members[i..], name, max)
    {
      assert members[i..][1..] == members[i + 1..];
      if members[i].name == name {
        if |members[i].data| > max {
          return None, false;
        }
        var copyFails: bool := *;
        if copyFails {
          assert members[i] in members;
          return None, true;
        }
        return Some(members[i].data), false;
      }
    }
    return None, false;
  }

  lemma MemberNames()
    ensures IMAGE_MEMBER != PROFILE_MEMBER && IMAGE_MEMBER != PUBLIC_MEMBER && PROFILE_MEMBER != PUBLIC_MEMBER
  {
    assert IMAGE_MEMBER[0] == 'i' && PROFILE_MEMBER[0] == 'p';
    assert |PUBLIC_MEMBER| == 10 && |PROFILE_MEMBER| == 12 && |IMAGE_MEMBER| == 12;
  }

  /** The image and the profile of an exported module read back byte for byte. */
  lemma MembersReadBack(image: Bytes, profile: Bytes, zip: Bytes)
    ensures var ms := ModuleMembers(image, profile, zip);
            && ReadMember(ms, "image.tar.gz", MAX_MEMBER_BYTES)
            == (if |image| <= 0x4000_0000 then Some(image) else None)
            && ReadMember(ms, "profile.toml", MAX_PROFILE_BYTES)
            == (if |profile| <= 0x10_0000 then Some(profile) else None)
            && (zip != [] ==> |ms| == 3 && ms[2] == Member("public.zip", zip)) && (zip == [] ==> |ms| == 2)
  {
    MemberNames();
    var ms := ModuleMembers(image, profile, zip);
    assert ms[0] == Member(IMAGE_MEMBER, image) && ms[1..][0] == Member(PROFILE_MEMBER, profile);
  }

  // ----- seeding -----

  datatype SeedError = ProfileTooLarge | ZipTooLarge | SeedWriteFailed | BadZip(error: ZipError) | ProfileMissing

  function SeedOne(t: Tree, m: Member, format: ZipFormat): Result<Tree, SeedError> {
    if m.name == PROFILE_MEMBER then
      if |m.data| > MAX_PROFILE_BYTES then Err(ProfileTooLarge)
      else if Writable(t, PROFILE) then Ok(t[PROFILE := File(m.data)])
      else Err(SeedWriteFailed)
    else if m.name == PUBLIC_MEMBER then
      if |m.data| > DEFAULT_MAX_BYTES then Err(ZipTooLarge)
      else
        match Unpack(t, m.data, format, DEFAULT_MAX_BYTES)
        case Ok(after) => Ok(after)
        case Err(error) => Err(BadZip(error))
    else Ok(t)
  }

  function SeedMembers(t: Tree, members: seq<Member>, format: ZipFormat): Result<Tree, SeedError> {
    if members == [] then Ok(t)
    else
      var before := SeedMembers(t, members[..|members| - 1], format);
      if before.Err? then before else SeedOne(before.value, members[|members| - 1], format)
  }

  predicate HasProfile(members: seq<Member>) { exists i :: 0 <= i < |members| && members[i].name == PROFILE_MEMBER }

  function Seed(t: Tree, members: seq<Member>, format: ZipFormat): Result<Tree, SeedError> {
    var seeded := SeedMembers(t, members, format);
    if seeded.Ok? && !HasProfile(members) then Err(ProfileMissing) else seeded
  }

  lemma {:induction false} SeedFails(t: Tree, members: seq<Member>, format: ZipFormat, i: nat)
    requires i <= |members| && SeedMembers(t, members[..i], format).Err?
    ensures SeedMembers(t, members, format) == SeedMembers(t, members[..i], format)
    decreases |members| - i
  {
    if i == |members| {
      assert members[..i] == members;
    } else {
      assert members[..i + 1][..i] == members[..i];
      SeedFails(t, members, format, i + 1);
    }
  }

  method SeedMember(disk: Disk, dst: Segments, m: Member, format: ZipFormat) returns (error: Option<SeedError>)
    requires AllNames(dst) && dst != []
    modifies disk
    ensures old(disk.faulted) ==> disk.faulted
    ensures error == None ==> SeedOne(old(disk.tree), m, format) == Ok(disk.tree) && disk.faulted == old(disk.faulted)
    ensures error.Some? && !disk.faulted ==> SeedOne(old(disk.tree), m, format) == Err(error.value)
  {
    MemberNames();
    if m.name == PROFILE_MEMBER {
      if |m.data| > MAX_PROFILE_BYTES {
        return Some(ProfileTooLarge);
      }
      var ok := disk.WriteFile(PROFILE, m.data);
      return if ok then None else Some(SeedWriteFailed);
    }
    if m.name == PUBLIC_MEMBER {
      if |m.data| > DEFAULT_MAX_BYTES {
        return Some(ZipTooLarge);
      }
      var failure := UnpackPublicZip(disk, dst, m.data, format, DEFAULT_MAX_BYTES);
      return if failure.None? then None else Some(BadZip(failure.value));
    }
    error := None;
  }

  /** Seeds the workspace directory `dst`, which exists.  Other archive formats are left alone. */
  method SeedWorkspaceFromModule(disk: Disk, dst: Segments, containerTar: bool, members: seq<Member>, format: ZipFormat)
    returns (error: Option<SeedError>)
    requires AllNames(dst) && dst != [] && WellFormed(disk.tree)
    modifies disk
    ensures old(disk.faulted) ==> disk.faulted
    ensures !containerTar ==> error == None && disk.tree == old(disk.tree)
    ensures containerTar && error == None ==> Seed(old(disk.tree), members, format) == Ok(disk.tree)
    ensures containerTar && error.Some? && !disk.faulted ==> Seed(old(disk.tree), members, format) == Err(error.value)
  {
    hide SeedOne, WellFormed;
    if !containerTar {
      return None;
    }
    var seededProfile := false;
    for i := 0 to |members|
      invariant SeedMembers(old(disk.tree), members[..i], format) == Ok(disk.tree) && disk.faulted == old(disk.faulted)
      invariant seededProfile <==> HasProfile(members[..i])
    {
      assert members[..i + 1] == members[..i] + [members[i]];
      assert members[..i + 1][..i] == members[..i];
      error := SeedMember(disk, dst, members[i], format);
      if error.Some? {
        if !disk.faulted {
          SeedFails(old(disk.tree), members, format, i + 1);
        }
        return;
      }
      HasProfileNext(members[..i], members[i]);
      if members[i].name == PROFILE_MEMBER {
        seededProfile := true;
      }
    }
    assert members[..|members|] == members;
    error := if seededProfile then None else Some(ProfileMissing);
  }

  lemma HasProfileNext(members: seq<Member>, m: Member)
    ensures HasProfile(members + [m]) <==> HasProfile(members) || m.name == PROFILE_MEMBER
  {
    var all := members + [m];
    assert all[|members|] == m;
    assert forall i | 0 <= i < |members| :: all[i] == members[i];
  }
}
