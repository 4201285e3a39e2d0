/** The project store: the clip list plus selection and playback cursor state,
    changed only through its mutators. Each mutator states its whole new state
    in terms of the edit functions, whose properties are proved in `Edits`. */
module ProjectStore {
  import opened Clips
  import opened Edits

  datatype NotificationKind = Success | Error
  datatype Notification = Notification(kind: NotificationKind, message: string)

  class Store {
    var clips: seq<Clip>
    var activeClipId: Option<Id>
    var currentTime: real
    var isPlaying: bool
    var notification: Option<Notification>

    /** The store's invariant: no id occurs twice on the timeline. */
    predicate Valid()
      reads this
    {
      UniqueIds(clips)
    }

    constructor ()
      ensures Valid()
      ensures clips == [] && activeClipId == None && currentTime == 0.0
      ensures !isPlaying && notification == None
    {
      clips := [];
      activeClipId := None;
      currentTime := 0.0;
      isPlaying := false;
      notification := None;
    }

    /** Appends one clip built from `d`; `id` stands for the generated uuid. */
    method AddClip(d: ClipDescriptor, id: Id)
      requires Valid()
      requires id !in Ids(clips)
      modifies this
      ensures Valid()
      ensures clips == old(clips) + [NewClip(d, id)]
      ensures activeClipId == old(activeClipId) && currentTime == old(currentTime)
      ensures isPlaying == old(isPlaying) && notification == old(notification)
    {
      AddKeepsUniqueIds(clips, d, id);
      clips := clips + [NewClip(d, id)];
    }

    /** Drops every clip with this id and clears the selection if it was the
        selected clip; the playback cursor is left as it was. */
    method RemoveClip(id: Id)
      requires Valid()
      modifies this
      ensures Valid()
      ensures clips == Without(old(clips), id)
      ensures activeClipId == if old(activeClipId) == Some(id) then None else old(activeClipId)
      ensures currentTime == old(currentTime) && isPlaying == old(isPlaying)
      ensures notification == old(notification)
    {
      WithoutKeepsUniqueIds(clips, id);
      clips := Without(clips, id);
      activeClipId := if activeClipId == Some(id) then None else activeClipId;
    }

    /** Selects a clip (or nothing) and always rewinds and stops playback. */
    method SetActiveClip(id: Option<Id>)
      requires Valid()
      modifies this
      ensures Valid()
      ensures activeClipId == id && currentTime == 0.0 && !isPlaying
      ensures clips == old(clips) && notification == old(notification)
    {
      activeClipId, currentTime, isPlaying := id, 0.0, false;
    }

    method SetCurrentTime(time: real)
      requires Valid()
      modifies this
      ensures Valid()
      ensures currentTime == time
      ensures clips == old(clips) && activeClipId == old(activeClipId)
      ensures isPlaying == old(isPlaying) && notification == old(notification)
    {
      currentTime := time;
    }

    method SetIsPlaying(playing: bool)
      requires Valid()
      modifies this
      ensures Valid()
      ensures isPlaying == playing
      ensures clips == old(clips) && activeClipId == old(activeClipId)
      ensures currentTime == old(currentTime) && notification == old(notification)
    {
      isPlaying := playing;
    }

    method SetNotification(n: Option<Notification>)
      requires Valid()
      modifies this
      ensures Valid()
      ensures notification == n
      ensures clips == old(clips) && activeClipId == old(activeClipId)
      ensures currentTime == old(currentTime) && isPlaying == old(isPlaying)
    {
      notification := n;
    }

    /** Moves the clip at `startIndex` to `endIndex` by removing it from a copy
        of the list and inserting it again. */
    method ReorderClips(startIndex: nat, endIndex: nat)
      requires Valid()
      requires startIndex < |clips| && endIndex < |clips|
      modifies this
      ensures Valid()
      ensures clips == Moved(old(clips), startIndex, endIndex)
      ensures activeClipId == old(activeClipId) && currentTime == old(currentTime)
      ensures isPlaying == old(isPlaying) && notification == old(notification)
    {
      var newClips := clips;
      var removed := newClips[startIndex];
      newClips := RemoveAt(newClips, startIndex);
      newClips := InsertAt(newClips, endIndex, removed);
      SpliceIsMove(clips, startIndex, endIndex);
      MovedKeepsUniqueIds(clips, startIndex, endIndex);
      clips := newClips;
    }

    /** Sets the given bounds on every clip with this id and recomputes its
        duration; no clamping happens here. */
    method UpdateClip(id: Id, updates: BoundsUpdate)
      requires Valid()
      modifies this
      ensures Valid()
      ensures clips == Updated(old(clips), id, updates)
      ensures activeClipId == old(activeClipId) && currentTime == old(currentTime)
      ensures isPlaying == old(isPlaying) && notification == old(notification)
    {
      UpdateKeepsUniqueIds(clips, id, updates);
      clips := Updated(clips, id, updates);
    }

    /** Splits the clip with this id at `time` seconds after its start;
        `freshId` stands for the uuid of the second part. */
    method SplitClip(id: Id, time: real, freshId: Id)
      requires Valid()
      requires freshId !in Ids(clips)
      modifies this
      ensures Valid()
      ensures clips == SplitClips(old(clips), id, time, freshId)
      ensures activeClipId == old(activeClipId) && currentTime == old(currentTime)
      ensures isPlaying == old(isPlaying) && notification == old(notification)
    {
      SplitKeepsUniqueIds(clips, id, time, freshId);
      var clipIndex := IndexOf(clips, id);
      if clipIndex == -1 {
        return;
      }
      var originalClip := clips[clipIndex];
      var splitTimeInSource := originalClip.start + time;
      if splitTimeInSource <= originalClip.start + GuardBand
        || splitTimeInSource >= originalClip.end - GuardBand
      {
        return;
      }
      var firstPart := FirstPart(originalClip, splitTimeInSource);
      var secondPart := SecondPart(originalClip, splitTimeInSource, freshId);
      var newClips := clips;
      newClips := newClips[..clipIndex] + [firstPart, secondPart] + newClips[clipIndex + 1..];
      clips := newClips;
    }
  }
}
