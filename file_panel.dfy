/** The import button of the file panel: one clip per selected path, in
    selection order, with the display name taken from the path and the
    duration and preview images taken from probes that may fail. */
module FilePanel {
  import opened Clips
  import opened Edits
  import opened ProjectStore

  /** The duration used when the metadata probe gives none. */
  const DefaultDuration: real := 10.0

  /** The position of the last '/' among the first n characters, or -1. */
  function LastSlash(path: string, n: nat): (r: int)
    requires n <= |path|
    ensures -1 <= r < n
    ensures r >= 0 ==> path[r] == '/'
    ensures forall i :: r < i < n ==> path[i] != '/'
  {
    if n == 0 then -1
    else if path[n - 1] == '/' then n - 1
    else LastSlash(path, n - 1)
  }

  /** `path.split('/').pop()`: the text after the last '/' (the whole path
      when it has none). */
  function LastSegment(path: string): (seg: string)
    ensures |seg| <= |path| && seg == path[|path| - |seg|..]
    ensures '/' !in seg
    ensures |seg| < |path| ==> path[|path| - |seg| - 1] == '/'
  {
    path[LastSlash(path, |path|) + 1..]
  }

  /** The three properties of `LastSegment` pin it down: any slash-free
      suffix that starts the path or follows a '/' is the last segment. */
  lemma LastSegmentUnique(path: string, t: string)
    requires |t| <= |path| && t == path[|path| - |t|..]
    requires '/' !in t
    requires |t| < |path| ==> path[|path| - |t| - 1] == '/'
    ensures t == LastSegment(path)
  {
  }

  /** The display name: the last segment, or "Unknown" when that is empty. */
  function ClipName(path: string): (name: string)
    ensures name != "" && '/' !in name
    ensures |path| == 0 || path[|path| - 1] == '/' ==> name == "Unknown"
    ensures |path| > 0 && path[|path| - 1] != '/' ==> name == LastSegment(path)
  {
    var seg := LastSegment(path);
    if seg == "" then "Unknown" else seg
  }

  /** What `getMetadata` gave: an exception, no usable object, or a duration. */
  datatype MetadataProbe = MetadataFailed | NoMetadata | Metadata(duration: real)

  /** What `getThumbnail` or `getWaveform` gave: an exception, null, or a string. */
  datatype ArtifactProbe = ArtifactFailed | NoArtifact | Artifact(data: string)

  datatype FileProbes = FileProbes(metadata: MetadataProbe, thumbnail: ArtifactProbe, waveform: ArtifactProbe)

  /** A probed artifact is kept only when it is a non-empty string. */
  predicate Truthy(a: ArtifactProbe) {
    a.Artifact? && a.data != ""
  }

  function Kept(a: ArtifactProbe): (r: Option<string>)
    ensures r.Some? <==> Truthy(a)
    ensures r.Some? ==> r.value == a.data && r.value != ""
  {
    if Truthy(a) then Some(a.data) else None
  }

  function ProbedDuration(m: MetadataProbe): (r: real)
    ensures r != 0.0
    ensures r == DefaultDuration || (m.Metadata? && r == m.duration)
    ensures m.Metadata? && m.duration != 0.0 ==> r == m.duration
    ensures !m.Metadata? ==> r == DefaultDuration
  {
    if m.Metadata? && m.duration != 0.0 then m.duration else DefaultDuration
  }

  /** The descriptor handed to `addClip` for one path. */
  function Describe(path: string, p: FileProbes): (d: ClipDescriptor)
    ensures d.path == path && d.sourceDuration == d.duration && d.duration != 0.0
  {
    var duration := ProbedDuration(p.metadata);
    ClipDescriptor(path, ClipName(path), duration, duration, Kept(p.thumbnail), Kept(p.waveform))
  }

  /** The duration falls back to the default unless the probe returned a
      non-zero duration; an artifact is present exactly when its probe returned
      a non-empty string, and then it is that string. */
  lemma DescribeMeaning(path: string, p: FileProbes)
    ensures var d := Describe(path, p);
      && d.path == path && d.name == ClipName(path) && d.sourceDuration == d.duration
      && (p.metadata.Metadata? && p.metadata.duration != 0.0 ==> d.duration == p.metadata.duration)
      && (p.metadata.MetadataFailed? || p.metadata.NoMetadata? ==> d.duration == DefaultDuration)
      && (p.metadata == Metadata(0.0) ==> d.duration == DefaultDuration)
      && (d.thumbnail.Some? <==> Truthy(p.thumbnail))
      && (d.thumbnail.Some? ==> d.thumbnail.value == p.thumbnail.data != "")
      && (d.waveform.Some? <==> Truthy(p.waveform))
      && (d.waveform.Some? ==> d.waveform.value == p.waveform.data != "")
  {
    var duration := ProbedDuration(p.metadata);
    assert Describe(path, p)
      == ClipDescriptor(path, ClipName(path), duration, duration, Kept(p.thumbnail), Kept(p.waveform));
  }

  /** The clip one path becomes. */
  function ImportedClip(path: string, p: FileProbes, id: Id): Clip {
    NewClip(Describe(path, p), id)
  }

  /** The clips an import of `paths` appends, in selection order. */
  function Imported(paths: seq<string>, probes: seq<FileProbes>, ids: seq<Id>): (r: seq<Clip>)
    requires |probes| == |paths| && |ids| == |paths|
    ensures |r| == |paths|
    ensures forall j :: 0 <= j < |r| ==> r[j] == ImportedClip(paths[j], probes[j], ids[j])
  {
    seq(|paths|, j requires 0 <= j < |paths| => ImportedClip(paths[j], probes[j], ids[j]))
  }

  /** The ids standing for the generated uuids: pairwise distinct and unused. */
  predicate FreshIds(s: seq<Clip>, ids: seq<Id>) {
    && (forall i, j :: 0 <= i < j < |ids| ==> ids[i] != ids[j])
    && (forall i :: 0 <= i < |ids| ==> ids[i] !in Ids(s))
  }

  /** Taking one more element of `s` onto `base`. */
  lemma AppendNext<T>(base: seq<T>, s: seq<T>, k: nat)
    requires k < |s|
    ensures base + s[..k + 1] == (base + s[..k]) + [s[k]]
  {
    assert s[..k + 1] == s[..k] + [s[k]];
  }

  /** Adding the clip for `ids[k]` keeps the later ids unused. */
  lemma FreshAfterAdd(s: seq<Clip>, c: Clip, ids: seq<Id>, k: nat)
    requires k < |ids| && c.id == ids[k]
    requires forall i, j :: 0 <= i < j < |ids| ==> ids[i] != ids[j]
    requires forall j :: k <= j < |ids| ==> ids[j] !in Ids(s)
    ensures forall j :: k + 1 <= j < |ids| ==> ids[j] !in Ids(s + [c])
  {
    assert Ids(s + [c]) == Ids(s) + [c.id];
  }

  /** The body of the import loop for one path: start from the defaults and
      overwrite each with what its probe gave, when that is usable. */
  method DescribeFile(path: string, p: FileProbes) returns (d: ClipDescriptor)
    ensures d == Describe(path, p)
  {
    var name := ClipName(path);
    var duration := DefaultDuration;
    var thumbnail: Option<string> := None;
    match p.metadata {
      case Metadata(probed) =>
        if probed != 0.0 {
          duration := probed;
        }
      case _ =>
    }
    assert duration == ProbedDuration(p.metadata);
    match p.thumbnail {
      case Artifact(thumb) =>
        if thumb != "" {
          thumbnail := Some(thumb);
        }
      case _ =>
    }
    assert thumbnail == Kept(p.thumbnail);
    var waveform: Option<string> := None;
    match p.waveform {
      case Artifact(wave) =>
        if wave != "" {
          waveform := Some(wave);
        }
      case _ =>
    }
    assert waveform == Kept(p.waveform);
    d := ClipDescriptor(path, name, duration, duration, thumbnail, waveform);
  }

  /** The loop over the selected paths: each iteration probes one file,
      falling back per probe, and adds exactly one clip. */
  method ImportFiles(store: Store, paths: seq<string>, probes: seq<FileProbes>, ids: seq<Id>)
    requires store.Valid()
    requires |probes| == |paths| && |ids| == |paths|
    requires FreshIds(store.clips, ids)
    modifies store
    ensures store.Valid()
    ensures store.clips == old(store.clips) + Imported(paths, probes, ids)
    ensures store.activeClipId == old(store.activeClipId)
    ensures store.currentTime == old(store.currentTime)
    ensures store.isPlaying == old(store.isPlaying)
    ensures store.notification == old(store.notification)
  {
    ghost var all := Imported(paths, probes, ids);
    var k := 0;
    while k < |paths|
      invariant 0 <= k <= |paths|
      invariant store.Valid()
      invariant store.clips == old(store.clips) + all[..k]
      invariant forall j :: k <= j < |ids| ==> ids[j] !in Ids(store.clips)
      invariant store.activeClipId == old(store.activeClipId)
      invariant store.currentTime == old(store.currentTime)
      invariant store.isPlaying == old(store.isPlaying)
      invariant store.notification == old(store.notification)
    {
      var d := DescribeFile(paths[k], probes[k]);
      assert NewClip(d, ids[k]) == all[k];
      AppendNext(old(store.clips), all, k);
      FreshAfterAdd(store.clips, all[k], ids, k);
      store.AddClip(d, ids[k]);
      k := k + 1;
    }
    assert all[..k] == all;
  }

  /** What `openFile` gave: an exception, null, or the chosen paths. */
  datatype OpenFileResult = OpenFailed | NoSelection | Selected(paths: seq<string>)

  /** The blocking alerts of the import button. */
  datatype ImportAlert = ApiMissing | ImportError

  /** The import button: no clip without the desktop API, on a failed or
      empty selection, and otherwise one clip per selected path. */
  method HandleImport(store: Store, apiAvailable: bool, picked: OpenFileResult,
                      probes: seq<FileProbes>, ids: seq<Id>)
    returns (alert: Option<ImportAlert>)
    requires store.Valid()
    requires picked.Selected? ==>
      |probes| == |picked.paths| && |ids| == |picked.paths| && FreshIds(store.clips, ids)
    modifies store
    ensures store.Valid()
    ensures alert == if !apiAvailable then Some(ApiMissing)
                     else if picked.OpenFailed? then Some(ImportError)
                     else None
    ensures store.clips ==
      if apiAvailable && picked.Selected?
      then old(store.clips) + Imported(picked.paths, probes, ids)
      else old(store.clips)
    ensures store.activeClipId == old(store.activeClipId)
    ensures store.currentTime == old(store.currentTime)
    ensures store.isPlaying == old(store.isPlaying)
    ensures store.notification == old(store.notification)
  {
    if !apiAvailable {
      return Some(ApiMissing);
    }
    match picked {
      case OpenFailed =>
        alert := Some(ImportError);
      case NoSelection =>
        alert := None;
      case Selected(paths) =>
        if |paths| > 0 {
          ImportFiles(store, paths, probes, ids);
        }
        alert := None;
    }
  }
}
