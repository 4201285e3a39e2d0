/** The timeline view's editing logic: the clamps applied while a trim handle
    is dragged, the trim gesture that feeds them to `updateClip`, and the
    drag-and-drop guard in front of `reorderClips`. */
module Timeline {
  import opened Clips
  import opened Edits
  import opened ProjectStore

  function Max(a: real, b: real): real { if a >= b then a else b }

  function Min(a: real, b: real): real { if a <= b then a else b }

  /** The start-handle clamp: `max(0, min(end - 0.1, requested))`. */
  function ClampStart(end: real, requested: real): (r: real)
    ensures r >= 0.0
    ensures end >= GuardBand ==> r <= end - GuardBand
    ensures 0.0 <= requested <= end - GuardBand ==> r == requested
    ensures r == requested || r == 0.0 || r == end - GuardBand
  {
    Max(0.0, Min(end - GuardBand, requested))
  }

  /** The end-handle clamp: `max(start + 0.1, min(sourceDuration, requested))`. */
  function ClampEnd(start: real, sourceDuration: real, requested: real): (r: real)
    ensures r >= start + GuardBand
    ensures start + GuardBand <= sourceDuration ==> r <= sourceDuration
    ensures start + GuardBand <= requested <= sourceDuration ==> r == requested
    ensures r == requested || r == start + GuardBand || r == sourceDuration
  {
    Max(start + GuardBand, Min(sourceDuration, requested))
  }

  /** Clamping an already clamped value changes nothing. */
  lemma ClampIdempotent(start: real, end: real, sourceDuration: real, requested: real)
    ensures ClampStart(end, ClampStart(end, requested)) == ClampStart(end, requested)
    ensures ClampEnd(start, sourceDuration, ClampEnd(start, sourceDuration, requested))
         == ClampEnd(start, sourceDuration, requested)
  {
  }

  /** Dragging a handle further never moves the bound back. */
  lemma ClampMonotonic(start: real, end: real, sourceDuration: real, x: real, y: real)
    requires x <= y
    ensures ClampStart(end, x) <= ClampStart(end, y)
    ensures ClampEnd(start, sourceDuration, x) <= ClampEnd(start, sourceDuration, y)
  {
  }

  datatype Handle = StartHandle | EndHandle

  /** The `updateClip` argument a drag of `handle` to `requested` seconds sends. */
  function TrimUpdate(c: Clip, handle: Handle, requested: real): (u: BoundsUpdate)
    ensures u.start.Some? <==> handle == StartHandle
    ensures u.end.Some? <==> handle == EndHandle
    ensures u.start.Some? ==> u.start.value >= 0.0
    ensures u.end.Some? ==> u.end.value >= c.start + GuardBand
  {
    match handle
    case StartHandle => BoundsUpdate(Some(ClampStart(c.end, requested)), None)
    case EndHandle => BoundsUpdate(None, Some(ClampEnd(c.start, c.sourceDuration, requested)))
  }

  /** The clip list after one mouse move of a trim gesture on clip `id`: the
      clip is looked up first, and nothing happens if it is gone. */
  function Trimmed(s: seq<Clip>, id: Id, handle: Handle, requested: real): (r: seq<Clip>)
    ensures |r| == |s| && Ids(r) == Ids(s)
  {
    var k := IndexOf(s, id);
    if k == -1 then s else Updated(s, id, TrimUpdate(s[k], handle, requested))
  }

  /** A trim of a clip that is no longer on the timeline does nothing; for one
      that is, only clips with that id change, each by the clamped bound. */
  lemma TrimmedTouchesOnlyId(s: seq<Clip>, id: Id, handle: Handle, requested: real)
    ensures id !in Ids(s) ==> Trimmed(s, id, handle, requested) == s
    ensures var r := Trimmed(s, id, handle, requested);
      && |r| == |s|
      && forall k :: 0 <= k < |s| && s[k].id != id ==> r[k] == s[k]
  {
  }

  /** A start trim moves only the start, an end trim only the end, and either
      recomputes the duration. */
  lemma TrimChangesOneBound(c: Clip, handle: Handle, requested: real)
    ensures var r := ApplyBounds(c, TrimUpdate(c, handle, requested));
      && (handle == StartHandle ==>
            r == c.(start := ClampStart(c.end, requested), duration := c.end - r.start))
      && (handle == EndHandle ==>
            r == c.(end := ClampEnd(c.start, c.sourceDuration, requested), duration := r.end - c.start))
  {
  }

  /** A trim keeps a clip inside its source, at least one guard band long and
      with a consistent duration, when it was so before. */
  lemma TrimKeepsBounds(c: Clip, handle: Handle, requested: real)
    requires WithinBounds(c)
    ensures WithinBounds(ApplyBounds(c, TrimUpdate(c, handle, requested)))
  {
  }

  /** On a timeline with unique ids, a trim changes only the trimmed clip and
      keeps every clip within bounds. */
  lemma TrimmedKeepsBounds(s: seq<Clip>, id: Id, handle: Handle, requested: real)
    requires UniqueIds(s)
    requires AllWithinBounds(s)
    ensures AllWithinBounds(Trimmed(s, id, handle, requested))
  {
    var k := IndexOf(s, id);
    if k != -1 {
      var r := Trimmed(s, id, handle, requested);
      forall j | 0 <= j < |r| ensures WithinBounds(r[j]) {
        if s[j].id == id {
          IndexOfUnique(s, j);
          TrimKeepsBounds(s[j], handle, requested);
        }
      }
    }
  }

  /** A clip shorter than one guard band (from a source that short) is pushed
      past the end of its source by any end trim. */
  lemma EndTrimOvershootsShortSource(c: Clip, requested: real)
    requires c.start + GuardBand > c.sourceDuration
    ensures ApplyBounds(c, TrimUpdate(c, EndHandle, requested)).end > c.sourceDuration
  {
  }

  /** The trim gesture as the view records it. */
  datatype TrimState = TrimState(id: Id, handle: Handle, initialX: real, initialValue: real)

  /** The registered mouse-move listener: the gesture and the zoom its
      closure captured. */
  datatype MoveListener = MoveListener(gesture: TrimState, pixelsPerSecond: int)

  /** The source time a mouse at `clientX` asks for. */
  function RequestedTime(l: MoveListener, clientX: real): (t: real)
    requires l.pixelsPerSecond >= 1
    ensures clientX == l.gesture.initialX ==> t == l.gesture.initialValue
    ensures clientX > l.gesture.initialX ==> t > l.gesture.initialValue
    ensures clientX < l.gesture.initialX ==> t < l.gesture.initialValue
  {
    l.gesture.initialValue + (clientX - l.gesture.initialX) / (l.pixelsPerSecond as real)
  }

  class TimelineView {
    var pixelsPerSecond: int
    var draggedIndex: Option<nat>
    var trimming: Option<TrimState>
    var moveListener: Option<MoveListener>

    /** The zoom comes from a range input between 1 and 100. */
    predicate Valid()
      reads this
    {
      && 1 <= pixelsPerSecond <= 100
      && (moveListener.Some? ==> moveListener.value.pixelsPerSecond >= 1)
    }

    constructor ()
      ensures Valid()
      ensures pixelsPerSecond == 10 && draggedIndex == None
      ensures trimming == None && moveListener == None
    {
      pixelsPerSecond := 10;
      draggedIndex := None;
      trimming := None;
      moveListener := None;
    }

    method SetPixelsPerSecond(value: int)
      requires Valid()
      requires 1 <= value <= 100
      modifies this
      ensures Valid()
      ensures pixelsPerSecond == value
      ensures draggedIndex == old(draggedIndex) && trimming == old(trimming)
      ensures moveListener == old(moveListener)
    {
      pixelsPerSecond := value;
    }

    /** A drag does not start while a trim is in progress. */
    method HandleDragStart(index: nat)
      requires Valid()
      modifies this
      ensures Valid()
      ensures draggedIndex == if old(trimming).Some? then old(draggedIndex) else Some(index)
      ensures pixelsPerSecond == old(pixelsPerSecond) && trimming == old(trimming)
      ensures moveListener == old(moveListener)
    {
      if trimming.Some? {
        return;
      }
      draggedIndex := Some(index);
    }

    /** Dropping on another clip moves the dragged clip there; the drag ends
        in every case. */
    method HandleDrop(store: Store, index: nat)
      requires Valid() && store.Valid()
      requires draggedIndex.Some? && draggedIndex.value != index ==>
        draggedIndex.value < |store.clips| && index < |store.clips|
      modifies this, store
      ensures Valid() && store.Valid()
      ensures draggedIndex == None
      ensures store.clips ==
        if old(draggedIndex).Some? && old(draggedIndex).value != index
        then Moved(old(store.clips), old(draggedIndex).value, index)
        else old(store.clips)
      ensures store.activeClipId == old(store.activeClipId)
      ensures store.currentTime == old(store.currentTime)
      ensures store.isPlaying == old(store.isPlaying)
      ensures store.notification == old(store.notification)
      ensures pixelsPerSecond == old(pixelsPerSecond) && trimming == old(trimming)
      ensures moveListener == old(moveListener)
    {
      if draggedIndex.Some? && draggedIndex.value != index {
        store.ReorderClips(draggedIndex.value, index);
      }
      draggedIndex := None;
    }

    /** Pressing a trim handle records the gesture and registers the
        mouse-move listener with the current zoom. */
    method StartTrim(id: Id, handle: Handle, clientX: real, initialValue: real)
      requires Valid()
      modifies this
      ensures Valid()
      ensures trimming == Some(TrimState(id, handle, clientX, initialValue))
      ensures moveListener == Some(MoveListener(trimming.value, pixelsPerSecond))
      ensures pixelsPerSecond == old(pixelsPerSecond) && draggedIndex == old(draggedIndex)
    {
      trimming := Some(TrimState(id, handle, clientX, initialValue));
      moveListener := Some(MoveListener(trimming.value, pixelsPerSecond));
    }

    /** One mouse move while a trim handle is held: the mouse offset becomes
        a requested time, which is clamped and sent to `updateClip`. */
    method MouseMove(store: Store, clientX: real)
      requires Valid() && store.Valid()
      modifies store
      ensures store.Valid()
      ensures moveListener.None? ==> store.clips == old(store.clips)
      ensures moveListener.Some? ==>
        store.clips == Trimmed(old(store.clips), moveListener.value.gesture.id,
                               moveListener.value.gesture.handle,
                               RequestedTime(moveListener.value, clientX))
      ensures AllWithinBounds(old(store.clips)) ==> AllWithinBounds(store.clips)
      ensures store.activeClipId == old(store.activeClipId)
      ensures store.currentTime == old(store.currentTime)
      ensures store.isPlaying == old(store.isPlaying)
      ensures store.notification == old(store.notification)
    {
      if moveListener.None? {
        return;
      }
      var listener := moveListener.value;
      var gesture := listener.gesture;
      var deltaX := clientX - gesture.initialX;
      var deltaTime := deltaX / (listener.pixelsPerSecond as real);
      var requested := gesture.initialValue + deltaTime;
      var k := IndexOf(store.clips, gesture.id);
      if k == -1 {
        return;
      }
      var clip := store.clips[k];
      var update: BoundsUpdate;
      match gesture.handle {
        case StartHandle =>
          var newStart := ClampStart(clip.end, requested);
          update := BoundsUpdate(Some(newStart), None);
        case EndHandle =>
          var newEnd := ClampEnd(clip.start, clip.sourceDuration, requested);
          update := BoundsUpdate(None, Some(newEnd));
      }
      ghost var before := store.clips;
      assert requested == RequestedTime(listener, clientX);
      assert Trimmed(before, gesture.id, gesture.handle, requested) == Updated(before, gesture.id, update);
      if AllWithinBounds(before) {
        TrimmedKeepsBounds(before, gesture.id, gesture.handle, requested);
      }
      store.UpdateClip(gesture.id, update);
    }

    /** Releasing the mouse ends the trim and removes the listener. */
    method MouseUp()
      requires Valid()
      modifies this
      ensures Valid()
      ensures trimming == None && moveListener == None
      ensures pixelsPerSecond == old(pixelsPerSecond) && draggedIndex == old(draggedIndex)
    {
      trimming := None;
      moveListener := None;
    }
  }
}
