/** Making a module's image available in the local image store. */
module ModuleImage {
  import opened Wrappers
  import opened RuntimeSchema

  const MODULE_DATA := "module-data"
  const DOCKER_SAVE_GZ := "docker-save+gzip"
  const CONTAINER_TAR_GZ := "container-tar+image.tar.gz"

  datatype ImageError = UnsupportedSource | UnsupportedFormat | NoDockerCli | LoadFailed | NotTagged

  /** The local image store: what names point to, and the IDs it holds. */
  datatype Images = Images(tags: map<string, string>, ids: set<string>)

  /** `docker image inspect` takes an ID or a name. */
  function Resolve(images: Images, ref: string): Option<string> {
    if ref in images.ids then Some(ref)
    else if ref in images.tags then Some(images.tags[ref])
    else None
  }

  function Tagged(images: Images, id: string, name: string): Images {
    match Resolve(images, id)
    case None => images
    case Some(found) => images.(tags := images.tags[name := found])
  }

  /** What an image archive adds when it is loaded. */
  function Loaded(images: Images, archive: Images): Images {
    Images(images.tags + archive.tags, images.ids + archive.ids)
  }

  /** The store after tagging by ID, and whether the name then resolves to the ID. */
  function TagByID(images: Images, id: string, name: string): (Images, bool) {
    if Resolve(images, id).None? then (images, false)
    else if Resolve(images, name) == Some(id) then (images, true)
    else
      var after := Tagged(images, id, name);
      (after, Resolve(after, name) == Some(id))
  }

  /** Tagging by ID works whenever the store has the ID and the name is no ID itself. */
  lemma TagByIDExact(images: Images, id: string, name: string)
    ensures TagByID(images, id, name).1 <==>
              || (Resolve(images, name) == Some(id) && Resolve(images, id).Some?)
              || (Resolve(images, id) == Some(id) && name !in images.ids)
  {
  }

  class ImageStore {
    var images: Images
    /** Load commands started. */
    ghost var loads: nat
    /** Some command failed for a reason of its own. */
    ghost var faulted: bool

    constructor (images: Images)
      ensures this.images == images && loads == 0 && !faulted
    {
      this.images := images;
      loads, faulted := 0, false;
    }

    method Inspect(ref: string) returns (id: Option<string>)
      modifies this`faulted
      ensures old(faulted) ==> faulted
      ensures id == Resolve(images, ref) || (id == None && faulted)
    {
      var fault: bool := *;
      if fault {
        faulted := true;
        return None;
      }
      id := Resolve(images, ref);
    }

    method Tag(id: string, name: string) returns (ok: bool)
      modifies this`images, this`faulted
      ensures old(faulted) ==> faulted
      ensures ok ==>
                Resolve(old(images), id).Some? && images == Tagged(old(images), id, name) && faulted == old(faulted)
      ensures !ok ==> images == old(images) && (faulted || Resolve(old(images), id).None?)
    {
      var fault: bool := *;
      if fault {
        faulted := true;
        return false;
      }
      ok := Resolve(images, id).Some?;
      images := Tagged(images, id, name);
    }

    /** Streams the module's image into `docker image load`.  `archive` is None when the
        module or its image member cannot be read. */
    method Load(archive: Option<Images>) returns (ok: bool)
      modifies this
      ensures old(faulted) ==> faulted
      ensures archive.None? ==> loads == old(loads)
      ensures archive.Some? ==> loads == old(loads) + 1
      ensures ok ==> archive.Some? && images == Loaded(old(images), archive.value) && faulted == old(faulted)
      ensures !ok ==> faulted || archive.None?
      ensures images == old(images) || (archive.Some? && images == Loaded(old(images), archive.value))
    {
      if archive.None? {
        return false;
      }
      loads := loads + 1;
      var fault: bool := *;
      if fault {
        faulted := true;
        var applied: bool := *;
        if applied {
          images := Loaded(images, archive.value);
        }
        return false;
      }
      images := Loaded(images, archive.value);
      ok := true;
    }

    method EnsureTaggedByID(id: string, name: string) returns (ok: bool)
      modifies this`images, this`faulted
      ensures old(faulted) ==> faulted
      ensures ok ==> Resolve(images, name) == Some(id) && TagByID(old(images), id, name).1
      ensures ok && !faulted ==> images == TagByID(old(images), id, name).0
      ensures !ok && !faulted ==> !TagByID(old(images), id, name).1 && images == TagByID(old(images), id, name).0
      ensures images == old(images) || images == Tagged(old(images), id, name)
    {
      var present := Inspect(id);
      if present.None? {
        return false;
      }
      var found := Inspect(name);
      if found == Some(id) {
        return true;
      }
      ok := Tag(id, name);
      if !ok {
        return;
      }
      found := Inspect(name);
      ok := found == Some(id);
    }

    /** `matched` and `tagged` say how the two cheaper ways ended. */
    method EnsureAvailable(image: ImageInfo, hasDocker: bool, archive: Option<Images>)
      returns (error: Option<ImageError>, ghost matched: bool, ghost tagged: bool)
      modifies this
      ensures old(faulted) ==> faulted
      ensures error == None && image.source == MODULE_DATA ==> Resolve(images, image.name) == Some(image.sha)
      ensures loads == old(loads) + if Wanted(image, hasDocker) && !matched && !tagged && archive.Some? then 1 else 0
      ensures matched ==> Resolve(old(images), image.name) == Some(image.sha) && images == old(images)
      ensures tagged ==> TagByID(old(images), image.sha, image.name).1
      ensures Wanted(image, hasDocker) && !faulted ==>
        && (matched <==> Resolve(old(images), image.name) == Some(image.sha))
        && (!matched ==> (tagged <==> TagByID(old(images), image.sha, image.name).1))
      ensures !faulted ==> error == Outcome(old(images), image, hasDocker, archive)
      ensures matched || tagged ==> error == None && Wanted(image, hasDocker) && !(matched && tagged)
      ensures loads == old(loads) ==> OnlyName(old(images), images, image.name)
      // Other names can change to those of the archive, and images are only added.
      ensures old(images).ids <= images.ids <= old(images).ids + (if archive.Some? then archive.value.ids else {})
      ensures forall ref | ref != image.name && (archive.None? || ref !in archive.value.tags) ::
                SameTag(old(images), images, ref)
      // What is answered without looking at the store.
      ensures var plain, ours := image.source == "" && image.archiveFormat == "", image.source == "module-data";
              var known := image.archiveFormat in {"docker-save+gzip", "container-tar+image.tar.gz"};
              && (plain ==> error == None)
              && (error == Some(UnsupportedSource) <==> !plain && !ours)
              && (error == Some(UnsupportedFormat) <==> ours && !known)
              && (error == Some(NoDockerCli) <==> ours && known && !hasDocker)
              && (!(ours && known && hasDocker) ==> images == old(images) && loads == old(loads))
    {
      hide TagByID, Tagged, Loaded, Resolve;
      matched, tagged := false, false;
      SameNames(images, image.name);
      if image.source == "" && image.archiveFormat == "" {
        return None, matched, tagged;
      }
      if image.source != MODULE_DATA {
        return Some(UnsupportedSource), matched, tagged;
      }
      if image.archiveFormat != DOCKER_SAVE_GZ && image.archiveFormat != CONTAINER_TAR_GZ {
        return Some(UnsupportedFormat), matched, tagged;
      }
      if !hasDocker {
        return Some(NoDockerCli), matched, tagged;
      }
      var found := Inspect(image.name);
      if found == Some(image.sha) {
        matched := true;
        return None, matched, tagged;
      }
      var ok := EnsureTaggedByID(image.sha, image.name);
      TaggedOnlyName(old(images), image.sha, image.name);
      if ok {
        tagged := true;
        return None, matched, tagged;
      }
      ghost var tried := images;
      ok := Load(archive);
      if archive.Some? {
        LoadedNames(tried, archive.value);
      }
      if !ok {
        assert forall ref | SameTag(old(images), tried, ref) && SameTag(tried, images, ref) ::
            SameTag(old(images), images, ref);
        return Some(LoadFailed), matched, tagged;
      }
      TaggedOnlyName(images, image.sha, image.name);
      ghost var loaded := images;
      ok := EnsureTaggedByID(image.sha, image.name);
      forall ref | ref != image.name && ref !in archive.value.tags
        ensures SameTag(old(images), images, ref)
      {
        assert SameTag(old(images), tried, ref) && SameTag(tried, loaded, ref) && SameTag(loaded, images, ref);
      }
      error := if ok then None else Some(NotTagged);
    }
  }

  /** A module image in a supported form, and a Docker CLI to handle it. */
  predicate Wanted(image: ImageInfo, hasDocker: bool) {
    && image.source == MODULE_DATA && hasDocker
    && (image.archiveFormat == DOCKER_SAVE_GZ || image.archiveFormat == CONTAINER_TAR_GZ)
  }

  /** What the caller is told when no command fails for a reason of its own. */
  function Outcome(images: Images, image: ImageInfo, hasDocker: bool, archive: Option<Images>): Option<ImageError> {
    if image.source == "" && image.archiveFormat == "" then None
    else if image.source != MODULE_DATA then Some(UnsupportedSource)
    else if image.archiveFormat != DOCKER_SAVE_GZ && image.archiveFormat != CONTAINER_TAR_GZ then
      Some(UnsupportedFormat)
    else if !hasDocker then Some(NoDockerCli)
    else if Resolve(images, image.name) == Some(image.sha) then None
    else
      var (after, ok) := TagByID(images, image.sha, image.name);
      if ok then None
      else if archive.None? then Some(LoadFailed)
      else if TagByID(Loaded(after, archive.value), image.sha, image.name).1 then None
      else Some(NotTagged)
  }

  predicate SameTag(before: Images, after: Images, ref: string) {
    (ref in before.tags <==> ref in after.tags) && (ref in before.tags ==> before.tags[ref] == after.tags[ref])
  }

  /** No other name, and no image, is touched. */
  ghost predicate OnlyName(before: Images, after: Images, name: string) {
    after.ids == before.ids && forall ref | ref != name :: SameTag(before, after, ref)
  }

  /** An archive brings its own names and images. */
  lemma LoadedNames(images: Images, archive: Images)
    ensures Loaded(images, archive).ids == images.ids + archive.ids
    ensures forall ref | ref in archive.tags :: SameTag(archive, Loaded(images, archive), ref)
    ensures forall ref | ref !in archive.tags :: SameTag(images, Loaded(images, archive), ref)
  {
  }

  lemma SameNames(images: Images, name: string)
    ensures OnlyName(images, images, name)
  {
  }

  lemma TaggedOnlyName(images: Images, id: string, name: string)
    ensures OnlyName(images, Tagged(images, id, name), name)
  {
  }

  /** A module whose archive holds the expected image becomes available in every store in
      which the image's name is not itself an ID, unless some command fails. */
  lemma GoodArchiveSuffices(images: Images, image: ImageInfo, archive: Images)
    requires Wanted(image, true) && image.sha in archive.ids && image.name !in images.ids + archive.ids
    ensures Outcome(images, image, true, Some(archive)) == None
  {
    var after := TagByID(images, image.sha, image.name).0;
    TagByIDExact(Loaded(after, archive), image.sha, image.name);
  }
}
