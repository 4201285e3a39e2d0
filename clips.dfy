/** The clip entity: one trimmed [start, end) range over a source media file,
    and the facts about a list of clips that every edit relies on. */
module Clips {

  datatype Option<T> = None | Some(value: T)

  /** Clip identifiers are opaque strings; only equality matters. */
  type Id = string

  /** Minimum clip length and minimum split distance from either edge, in seconds. */
  const GuardBand: real := 0.1

  /** A clip on the timeline. `duration` is stored, and the edits keep it equal
      to `end - start`; `sourceDuration` is the length of the whole source file. */
  datatype Clip = Clip(
    id: Id,
    path: string,
    name: string,
    duration: real,
    sourceDuration: real,
    start: real,
    end: real,
    thumbnail: Option<string>,
    waveform: Option<string>)

  /** The argument of `addClip`: every clip field except id, start and end. */
  datatype ClipDescriptor = ClipDescriptor(
    path: string,
    name: string,
    duration: real,
    sourceDuration: real,
    thumbnail: Option<string>,
    waveform: Option<string>)

  /** The bounds a trim gesture keeps: inside the source, at least one guard
      band long, and with a consistent stored duration. */
  predicate WithinBounds(c: Clip) {
    && 0.0 <= c.start
    && c.end - c.start >= GuardBand
    && c.end <= c.sourceDuration
    && c.duration == c.end - c.start
  }

  predicate AllWithinBounds(s: seq<Clip>) {
    forall k :: 0 <= k < |s| ==> WithinBounds(s[k])
  }

  /** The ids of a clip list, in timeline order. */
  function Ids(s: seq<Clip>): (r: seq<Id>)
    ensures |r| == |s|
    ensures forall k :: 0 <= k < |s| ==> r[k] == s[k].id
  {
    seq(|s|, k requires 0 <= k < |s| => s[k].id)
  }

  predicate UniqueIds(s: seq<Clip>) {
    forall i, j :: 0 <= i < j < |s| ==> s[i].id != s[j].id
  }

  /** `clips.findIndex(c => c.id === id)`: the first position holding `id`, or -1. */
  function IndexOf(s: seq<Clip>, id: Id): (r: int)
    ensures -1 <= r < |s|
    ensures r == -1 <==> id !in Ids(s)
    ensures r >= 0 ==> s[r].id == id && forall k :: 0 <= k < r ==> s[k].id != id
  {
    if |s| == 0 then -1
    else if s[0].id == id then 0
    else
      var r := IndexOf(s[1..], id);
      assert Ids(s) == [s[0].id] + Ids(s[1..]);
      if r == -1 then -1 else r + 1
  }

  /** With unique ids, the position of an id is the only one holding it. */
  lemma {:induction false} IndexOfUnique(s: seq<Clip>, k: nat)
    requires UniqueIds(s)
    requires k < |s|
    ensures IndexOf(s, s[k].id) == k
  {
    var r := IndexOf(s, s[k].id);
    assert s[k].id in Ids(s);
    assert 0 <= r && s[r].id == s[k].id;
  }
}
