/** The edit algebra of the timeline: each store mutator computes its new clip
    list with one of these functions, and the lemmas below state what the
    edits promise (order, permutation, "nothing else changes", contiguity). */
module Edits {
  import opened Clips

  // ---------------------------------------------------------------- addClip

  /** The clip `addClip` builds: the descriptor's fields, the given id, the
      whole source selected, and `sourceDuration` taken from `duration`. */
  function NewClip(d: ClipDescriptor, id: Id): Clip {
    Clip(id, d.path, d.name, d.duration, d.duration, 0.0, d.duration, d.thumbnail, d.waveform)
  }

  /** A new clip selects its whole source, so it keeps the trim bounds exactly
      when the source is at least one guard band long. */
  lemma NewClipWithinBounds(d: ClipDescriptor, id: Id)
    ensures WithinBounds(NewClip(d, id)) <==> d.duration >= GuardBand
  {
  }

  lemma AddKeepsUniqueIds(s: seq<Clip>, d: ClipDescriptor, id: Id)
    requires UniqueIds(s)
    requires id !in Ids(s)
    ensures UniqueIds(s + [NewClip(d, id)])
  {
    var r := s + [NewClip(d, id)];
    forall i, j | 0 <= i < j < |r| ensures r[i].id != r[j].id {
      if j == |s| {
        assert Ids(s)[i] == r[i].id;
      }
    }
  }

  /** A sequence is its prefix, the element at k, and its suffix. */
  lemma Recompose<T>(s: seq<T>, k: nat)
    requires k < |s|
    ensures s[..k] + [s[k]] + s[k + 1..] == s
  {
  }

  // ------------------------------------------------------------- removeClip

  /** `clips.filter(c => c.id !== id)`. */
  function Without(s: seq<Clip>, id: Id): (r: seq<Clip>)
    ensures |r| <= |s|
    ensures forall k :: 0 <= k < |r| ==> r[k].id != id
  {
    if |s| == 0 then []
    else (if s[0].id == id then [] else [s[0]]) + Without(s[1..], id)
  }

  /** One step of the filter: the head is kept unless it carries `id`. */
  lemma WithoutCons(s: seq<Clip>, id: Id)
    requires |s| > 0
    ensures Without(s, id) == (if s[0].id == id then [] else [s[0]]) + Without(s[1..], id)
  {
  }

  /** Filtering distributes over concatenation: the kept clips stay in order. */
  lemma {:induction false} WithoutConcat(a: seq<Clip>, b: seq<Clip>, id: Id)
    ensures Without(a + b, id) == Without(a, id) + Without(b, id)
  {
    if |a| == 0 {
      assert a + b == b;
    } else {
      var ab := a + b;
      assert ab[0] == a[0];
      assert ab[1..] == a[1..] + b;
      WithoutCons(ab, id);
      WithoutCons(a, id);
      WithoutConcat(a[1..], b, id);
    }
  }

  /** Removing an id that is not on the timeline changes nothing. */
  lemma {:induction false} WithoutAbsent(s: seq<Clip>, id: Id)
    requires id !in Ids(s)
    ensures Without(s, id) == s
  {
    if |s| > 0 {
      assert Ids(s)[0] == s[0].id;
      assert id !in Ids(s[1..]) by {
        forall k | 0 <= k < |s| - 1 ensures Ids(s[1..])[k] != id {
          assert Ids(s[1..])[k] == Ids(s)[k + 1];
        }
      }
      WithoutAbsent(s[1..], id);
      assert [s[0]] + s[1..] == s;
    }
  }

  /** The filter keeps exactly the clips whose id differs. */
  lemma {:induction false} WithoutMembers(s: seq<Clip>, id: Id, c: Clip)
    ensures c in Without(s, id) <==> c in s && c.id != id
  {
    if |s| > 0 {
      WithoutMembers(s[1..], id, c);
      assert s == [s[0]] + s[1..];
    }
  }

  /** Under unique ids, the id at position k occurs nowhere before or after it. */
  lemma IdApart(s: seq<Clip>, k: nat)
    requires UniqueIds(s)
    requires k < |s|
    ensures s[k].id !in Ids(s[..k]) && s[k].id !in Ids(s[k + 1..])
  {
    var a, b := s[..k], s[k + 1..];
    forall j | 0 <= j < |a| ensures a[j].id != s[k].id {
      assert a[j] == s[j];
    }
    forall j | 0 <= j < |b| ensures b[j].id != s[k].id {
      assert b[j] == s[k + 1 + j];
    }
  }

  /** Filtering out the id of a clip that occurs nowhere else drops just that clip. */
  lemma WithoutSplice(a: seq<Clip>, x: Clip, b: seq<Clip>)
    requires x.id !in Ids(a) && x.id !in Ids(b)
    ensures Without(a + [x] + b, x.id) == a + b
  {
    WithoutConcat(a + [x], b, x.id);
    assert Without(a + [x] + b, x.id) == Without(a + [x], x.id) + Without(b, x.id);
    WithoutConcat(a, [x], x.id);
    assert [x][1..] == [];
    assert Without([x], x.id) == [];
    WithoutAbsent(a, x.id);
    WithoutAbsent(b, x.id);
    assert Without(a + [x], x.id) == a;
  }

  /** With unique ids, removing the id held at position k removes exactly that
      one clip and keeps every other clip in its original order. */
  lemma RemoveExactlyOne(s: seq<Clip>, k: nat)
    requires UniqueIds(s)
    requires k < |s|
    ensures Without(s, s[k].id) == RemoveAt(s, k)
  {
    IdApart(s, k);
    Recompose(s, k);
    WithoutSplice(s[..k], s[k], s[k + 1..]);
  }

  lemma RemoveAtKeepsUniqueIds(s: seq<Clip>, k: nat)
    requires UniqueIds(s)
    requires k < |s|
    ensures UniqueIds(RemoveAt(s, k))
  {
    var r := RemoveAt(s, k);
    forall i, j | 0 <= i < j < |r| ensures r[i].id != r[j].id {
      assert r[i] == s[if i < k then i else i + 1];
      assert r[j] == s[if j < k then j else j + 1];
    }
  }

  lemma WithoutKeepsUniqueIds(s: seq<Clip>, id: Id)
    requires UniqueIds(s)
    ensures UniqueIds(Without(s, id))
  {
    var k := IndexOf(s, id);
    if k == -1 {
      WithoutAbsent(s, id);
    } else {
      RemoveExactlyOne(s, k);
      RemoveAtKeepsUniqueIds(s, k);
    }
  }

  /** Removing a clip that was just added gives back the earlier timeline. */
  lemma RemoveUndoesAdd(s: seq<Clip>, d: ClipDescriptor, id: Id)
    requires id !in Ids(s)
    ensures Without(s + [NewClip(d, id)], id) == s
  {
    WithoutConcat(s, [NewClip(d, id)], id);
    WithoutAbsent(s, id);
    assert [NewClip(d, id)][1..] == [];
  }

  // ----------------------------------------------------------- reorderClips

  /** `splice(i, 1)` on a copy: the sequence without its element at i. */
  function RemoveAt<T>(s: seq<T>, i: nat): (r: seq<T>)
    requires i < |s|
    ensures |r| == |s| - 1
    ensures forall k :: 0 <= k < |r| ==> r[k] == s[if k < i then k else k + 1]
  {
    s[..i] + s[i + 1..]
  }

  /** `splice(j, 0, x)`: the sequence with x inserted before position j. */
  function InsertAt<T>(s: seq<T>, j: nat, x: T): (r: seq<T>)
    requires j <= |s|
    ensures |r| == |s| + 1 && r[j] == x
    ensures forall k :: 0 <= k < |r| && k != j ==> r[k] == s[if k < j then k else k - 1]
  {
    s[..j] + [x] + s[j..]
  }

  /** The position in the original sequence that position k of a move from
      `from` to `to` shows. */
  function MoveSource(from: nat, to: nat, k: nat): nat {
    if k == to then from
    else if from <= k < to then k + 1
    else if to < k <= from then k - 1
    else k
  }

  /** A reference description of a move, position by position: the element at
      `from` lands at `to` and the elements in between shift by one. */
  function Moved<T>(s: seq<T>, from: nat, to: nat): (r: seq<T>)
    requires from < |s| && to < |s|
    ensures |r| == |s|
    ensures forall k :: 0 <= k < |s| ==> MoveSource(from, to, k) < |s| && r[k] == s[MoveSource(from, to, k)]
  {
    seq(|s|, k requires 0 <= k < |s| => s[MoveSource(from, to, k)])
  }

  /** Dropping a clip where it was picked up leaves the order as it was. */
  lemma MovedToSelf<T>(s: seq<T>, i: nat)
    requires i < |s|
    ensures Moved(s, i, i) == s
  {
  }

  /** No two positions show the same original element. */
  lemma MoveSourceInjective(from: nat, to: nat, a: nat, b: nat)
    requires a != b
    ensures MoveSource(from, to, a) != MoveSource(from, to, b)
  {
  }

  /** Removing then re-inserting, as `reorderClips` does, is the move. */
  lemma SpliceIsMove<T>(s: seq<T>, from: nat, to: nat)
    requires from < |s| && to < |s|
    ensures InsertAt(RemoveAt(s, from), to, s[from]) == Moved(s, from, to)
  {
    var t := RemoveAt(s, from);
    var r := InsertAt(t, to, s[from]);
    forall k | 0 <= k < |s| ensures r[k] == Moved(s, from, to)[k] {
      if k < to {
        assert r[k] == t[k];
      } else if k > to {
        assert r[k] == t[k - 1];
      }
    }
  }

  lemma RemoveAtInsertAt<T>(t: seq<T>, j: nat, x: T)
    requires j <= |t|
    ensures RemoveAt(InsertAt(t, j, x), j) == t
  {
    assert InsertAt(t, j, x)[..j] == t[..j];
    assert InsertAt(t, j, x)[j + 1..] == t[j..];
  }

  lemma InsertAtRemoveAt<T>(s: seq<T>, i: nat)
    requires i < |s|
    ensures InsertAt(RemoveAt(s, i), i, s[i]) == s
  {
    assert RemoveAt(s, i)[..i] == s[..i];
    assert RemoveAt(s, i)[i..] == s[i + 1..];
    assert s[..i] + [s[i]] + s[i + 1..] == s;
  }

  /** A move is a permutation: the same elements, each as often as before. */
  lemma MovedIsPermutation<T>(s: seq<T>, from: nat, to: nat)
    requires from < |s| && to < |s|
    ensures multiset(Moved(s, from, to)) == multiset(s)
  {
    SpliceIsMove(s, from, to);
    var t := RemoveAt(s, from);
    assert s == s[..from] + [s[from]] + s[from + 1..];
    assert multiset(s) == multiset(t) + multiset{s[from]};
    assert t == t[..to] + t[to..];
    assert multiset(InsertAt(t, to, s[from])) == multiset(t) + multiset{s[from]};
  }

  /** Taking the moved element out again leaves every other element in its
      original relative order. */
  lemma MovedKeepsOthersInOrder<T>(s: seq<T>, from: nat, to: nat)
    requires from < |s| && to < |s|
    ensures RemoveAt(Moved(s, from, to), to) == RemoveAt(s, from)
  {
    SpliceIsMove(s, from, to);
    RemoveAtInsertAt(RemoveAt(s, from), to, s[from]);
  }

  /** Moving back undoes a move. */
  lemma MoveBack<T>(s: seq<T>, from: nat, to: nat)
    requires from < |s| && to < |s|
    ensures Moved(Moved(s, from, to), to, from) == s
  {
    var m := Moved(s, from, to);
    SpliceIsMove(s, from, to);
    SpliceIsMove(m, to, from);
    RemoveAtInsertAt(RemoveAt(s, from), to, s[from]);
    InsertAtRemoveAt(s, from);
  }

  /** The ids move with their clips. */
  lemma MovedIds(s: seq<Clip>, from: nat, to: nat)
    requires from < |s| && to < |s|
    ensures Ids(Moved(s, from, to)) == Moved(Ids(s), from, to)
    ensures multiset(Ids(Moved(s, from, to))) == multiset(Ids(s))
  {
    MovedIsPermutation(Ids(s), from, to);
  }

  lemma MovedKeepsUniqueIds(s: seq<Clip>, from: nat, to: nat)
    requires from < |s| && to < |s|
    requires UniqueIds(s)
    ensures UniqueIds(Moved(s, from, to))
  {
    var r := Moved(s, from, to);
    forall i, j | 0 <= i < j < |r| ensures r[i].id != r[j].id {
      MoveSourceInjective(from, to, i, j);
    }
  }

  // ------------------------------------------------------------- updateClip

  /** The part of `Partial<Clip>` the timeline sends: a new start, a new end, or both. */
  datatype BoundsUpdate = BoundsUpdate(start: Option<real>, end: Option<real>)

  /** `{ ...clip, ...updates }`, then `duration` recomputed when a bound was supplied. */
  function ApplyBounds(c: Clip, u: BoundsUpdate): (r: Clip)
    ensures r.start == (if u.start.Some? then u.start.value else c.start)
    ensures r.end == (if u.end.Some? then u.end.value else c.end)
    ensures u.start.Some? || u.end.Some? ==> r.duration == r.end - r.start
    ensures u.start.None? && u.end.None? ==> r == c
    ensures r == c.(start := r.start, end := r.end, duration := r.duration)
  {
    var merged := c.(start := if u.start.Some? then u.start.value else c.start,
                     end := if u.end.Some? then u.end.value else c.end);
    if u.start.Some? || u.end.Some? then merged.(duration := merged.end - merged.start) else merged
  }

  /** `clips.map(clip => clip.id === id ? apply(clip) : clip)`. */
  function Updated(s: seq<Clip>, id: Id, u: BoundsUpdate): (r: seq<Clip>)
    ensures |r| == |s| && Ids(r) == Ids(s)
    ensures forall k :: 0 <= k < |s| && s[k].id != id ==> r[k] == s[k]
    ensures forall k :: 0 <= k < |s| && s[k].id == id ==> r[k] == ApplyBounds(s[k], u)
    ensures id !in Ids(s) ==> r == s
  {
    seq(|s|, k requires 0 <= k < |s| => if s[k].id == id then ApplyBounds(s[k], u) else s[k])
  }

  /** Sending the same update twice has the effect of sending it once. */
  lemma UpdateIdempotent(s: seq<Clip>, id: Id, u: BoundsUpdate)
    ensures Updated(Updated(s, id, u), id, u) == Updated(s, id, u)
  {
    var once := Updated(s, id, u);
    forall k | 0 <= k < |s| ensures Updated(once, id, u)[k] == once[k] {
      assert Ids(once)[k] == Ids(s)[k];
    }
  }

  lemma UpdateKeepsUniqueIds(s: seq<Clip>, id: Id, u: BoundsUpdate)
    requires UniqueIds(s)
    ensures UniqueIds(Updated(s, id, u))
  {
    var r := Updated(s, id, u);
    forall i, j | 0 <= i < j < |r| ensures r[i].id != r[j].id {
      assert Ids(r)[i] == Ids(s)[i] && Ids(r)[j] == Ids(s)[j];
    }
  }

  // -------------------------------------------------------------- splitClip

  /** The guard of `splitClip`: a split point within one guard band of either
      edge is refused. */
  predicate SplitRejected(c: Clip, time: real) {
    var at := c.start + time;
    at <= c.start + GuardBand || at >= c.end - GuardBand
  }

  /** The first part keeps the original id and start and ends at the split point. */
  function FirstPart(c: Clip, at: real): (r: Clip)
    ensures r.id == c.id && r.start == c.start && r.end == at && r.duration == r.end - r.start
  {
    c.(end := at, duration := at - c.start)
  }

  /** The second part gets a fresh id, starts at the split point, keeps the
      original end and is named as a derived part. */
  function SecondPart(c: Clip, at: real, freshId: Id): (r: Clip)
    ensures r.id == freshId && r.start == at && r.end == c.end && r.duration == r.end - r.start
  {
    c.(id := freshId, start := at, end := c.end, duration := c.end - at,
       name := c.name + " (Part 2)")
  }

  /** The new clip list of `splitClip(id, time)`. */
  function SplitClips(s: seq<Clip>, id: Id, time: real, freshId: Id): seq<Clip> {
    var k := IndexOf(s, id);
    if k == -1 || SplitRejected(s[k], time) then s
    else
      var at := s[k].start + time;
      s[..k] + [FirstPart(s[k], at), SecondPart(s[k], at, freshId)] + s[k + 1..]
  }

  /** A split either leaves the timeline unchanged (id absent, or the point too
      close to an edge) or replaces the clip at its position with its two parts,
      keeping the clips before it in place and shifting the later ones by one. */
  lemma SplitOutcome(s: seq<Clip>, id: Id, time: real, freshId: Id)
    ensures var k := IndexOf(s, id);
      k == -1 || SplitRejected(s[k], time) ==> SplitClips(s, id, time, freshId) == s
    ensures var k := IndexOf(s, id); var r := SplitClips(s, id, time, freshId);
      k >= 0 && !SplitRejected(s[k], time) ==>
        && |r| == |s| + 1
        && r[..k] == s[..k]
        && r[k] == FirstPart(s[k], s[k].start + time)
        && r[k + 1] == SecondPart(s[k], s[k].start + time, freshId)
        && r[k + 2..] == s[k + 1..]
  {
    var k := IndexOf(s, id);
    if k >= 0 && !SplitRejected(s[k], time) {
      var at := s[k].start + time;
      var p1, p2 := FirstPart(s[k], at), SecondPart(s[k], at, freshId);
      var r := SplitClips(s, id, time, freshId);
      assert r == s[..k] + [p1, p2] + s[k + 1..];
      SpliceTwo(s, k, p1, p2);
      assert r[k] == p1 && r[k + 1] == p2;
    }
  }

  /** A sequence laid out like `splice(k, 1, x, y)` of `s` is that splice. */
  lemma SpliceFromParts<T>(s: seq<T>, r: seq<T>, k: nat, x: T, y: T)
    requires k < |s| && |r| == |s| + 1
    requires r[..k] == s[..k] && r[k] == x && r[k + 1] == y && r[k + 2..] == s[k + 1..]
    ensures r == s[..k] + [x, y] + s[k + 1..]
  {
    assert r == r[..k] + [r[k], r[k + 1]] + r[k + 2..];
  }

  /** `splice(k, 1, x, y)`: the element at k replaced by x then y. */
  lemma SpliceTwo<T>(s: seq<T>, k: nat, x: T, y: T)
    requires k < |s|
    ensures var r := s[..k] + [x, y] + s[k + 1..];
      && |r| == |s| + 1 && r[..k] == s[..k] && r[k] == x && r[k + 1] == y
      && r[k + 2..] == s[k + 1..]
  {
    var r := s[..k] + [x, y] + s[k + 1..];
    assert r[k + 2..] == s[k + 1..];
  }

  /** The two parts are contiguous, cover the original range, are each longer
      than the guard band, and carry consistent durations; everything else is
      copied from the original. */
  lemma SplitPartsCover(c: Clip, time: real, freshId: Id)
    requires !SplitRejected(c, time)
    ensures var at := c.start + time; var p1 := FirstPart(c, at); var p2 := SecondPart(c, at, freshId);
      && p1.start == c.start && p1.end == p2.start && p2.end == c.end
      && p1.end - p1.start > GuardBand && p2.end - p2.start > GuardBand
      && p1.duration == p1.end - p1.start && p2.duration == p2.end - p2.start
      && (c.duration == c.end - c.start ==> p1.duration + p2.duration == c.duration)
      && p1.id == c.id && p2.id == freshId && p2.name == c.name + " (Part 2)"
      && p1.name == c.name && p1.path == c.path == p2.path
      && p1.sourceDuration == c.sourceDuration == p2.sourceDuration
      && p1.thumbnail == c.thumbnail == p2.thumbnail
      && p1.waveform == c.waveform == p2.waveform
  {
  }

  /** Where each position of a successful split comes from. */
  lemma SplitPosition(s: seq<Clip>, k: nat, r: seq<Clip>, i: nat)
    requires k < |s| && |r| == |s| + 1
    requires r[..k] == s[..k] && r[k + 2..] == s[k + 1..]
    requires i < |r|
    ensures i < k ==> r[i] == s[i]
    ensures i > k + 1 ==> r[i] == s[i - 1]
  {
    if i < k {
      assert r[i] == r[..k][i];
    } else if i > k + 1 {
      assert r[i] == r[k + 2..][i - k - 2];
    }
  }

  /** Two positions of a split result carry different ids, when the original
      ids were distinct and the new id was unused. */
  lemma SplitPairDistinct(s: seq<Clip>, k: nat, r: seq<Clip>, freshId: Id, i: nat, j: nat)
    requires UniqueIds(s) && freshId !in Ids(s)
    requires k < |s| && |r| == |s| + 1
    requires r[..k] == s[..k] && r[k].id == s[k].id && r[k + 1].id == freshId
    requires r[k + 2..] == s[k + 1..]
    requires i < j < |r|
    ensures r[i].id != r[j].id
  {
    SplitPosition(s, k, r, i);
    SplitPosition(s, k, r, j);
    var si := if i <= k then i else i - 1;
    var sj := if j <= k then j else j - 1;
    if i == k + 1 {
      assert r[j] == s[sj] && Ids(s)[sj] == s[sj].id;
    } else if j == k + 1 {
      assert r[i].id == s[si].id && Ids(s)[si] == s[si].id;
    } else {
      assert r[i].id == s[si].id && r[j].id == s[sj].id && si < sj;
    }
  }

  lemma SplitKeepsUniqueIds(s: seq<Clip>, id: Id, time: real, freshId: Id)
    requires UniqueIds(s)
    requires freshId !in Ids(s)
    ensures UniqueIds(SplitClips(s, id, time, freshId))
  {
    var k := IndexOf(s, id);
    if k >= 0 && !SplitRejected(s[k], time) {
      SplitOutcome(s, id, time, freshId);
      var r := SplitClips(s, id, time, freshId);
      forall i, j | 0 <= i < j < |r| ensures r[i].id != r[j].id {
        SplitPairDistinct(s, k, r, freshId, i, j);
      }
    }
  }

  lemma SplitKeepsBounds(s: seq<Clip>, id: Id, time: real, freshId: Id)
    requires AllWithinBounds(s)
    ensures AllWithinBounds(SplitClips(s, id, time, freshId))
  {
    var k := IndexOf(s, id);
    if k >= 0 && !SplitRejected(s[k], time) {
      SplitOutcome(s, id, time, freshId);
      SplitPartsCover(s[k], time, freshId);
      var r := SplitClips(s, id, time, freshId);
      forall i | 0 <= i < |r| ensures WithinBounds(r[i]) {
        SplitPosition(s, k, r, i);
      }
    }
  }

  /** The summed clip durations: the length of the exported render. */
  function TotalDuration(s: seq<Clip>): real {
    if |s| == 0 then 0.0 else s[0].duration + TotalDuration(s[1..])
  }

  lemma {:induction false} TotalDurationConcat(a: seq<Clip>, b: seq<Clip>)
    ensures TotalDuration(a + b) == TotalDuration(a) + TotalDuration(b)
  {
    if |a| == 0 {
      assert a + b == b;
    } else {
      assert (a + b)[0] == a[0];
      assert (a + b)[1..] == a[1..] + b;
      TotalDurationConcat(a[1..], b);
    }
  }

  /** Replacing one clip by two whose durations add up to its own keeps the total. */
  lemma TotalDurationReplace(a: seq<Clip>, c: Clip, b: seq<Clip>, p1: Clip, p2: Clip)
    requires p1.duration + p2.duration == c.duration
    ensures TotalDuration(a + [p1, p2] + b) == TotalDuration(a + [c] + b)
  {
    TotalDurationConcat(a + [c], b);
    TotalDurationConcat(a, [c]);
    TotalDurationConcat(a + [p1, p2], b);
    TotalDurationConcat(a, [p1, p2]);
    assert [p1, p2][1..] == [p2] && [p2][1..] == [] && [c][1..] == [];
    assert TotalDuration([p1, p2]) == p1.duration + TotalDuration([p2]);
    assert TotalDuration([p2]) == p2.duration + TotalDuration([]);
    assert TotalDuration([c]) == c.duration + TotalDuration([]);
  }

  /** Splitting a clip whose duration is consistent does not change the
      length of the timeline. */
  lemma SplitKeepsTotalDuration(s: seq<Clip>, id: Id, time: real, freshId: Id)
    requires forall k :: 0 <= k < |s| ==> s[k].duration == s[k].end - s[k].start
    ensures TotalDuration(SplitClips(s, id, time, freshId)) == TotalDuration(s)
  {
    var k := IndexOf(s, id);
    if k >= 0 && !SplitRejected(s[k], time) {
      SplitAtKeepsTotalDuration(s, id, time, freshId, k);
    }
  }

  lemma SplitAtKeepsTotalDuration(s: seq<Clip>, id: Id, time: real, freshId: Id, k: nat)
    requires k < |s| && k == IndexOf(s, id) && !SplitRejected(s[k], time)
    requires s[k].duration == s[k].end - s[k].start
    ensures TotalDuration(SplitClips(s, id, time, freshId)) == TotalDuration(s)
  {
    var c := s[k];
    var at := c.start + time;
    var p1, p2 := FirstPart(c, at), SecondPart(c, at, freshId);
    SplitOutcome(s, id, time, freshId);
    SpliceFromParts(s, SplitClips(s, id, time, freshId), k, p1, p2);
    assert p1.duration + p2.duration == c.duration;
    TotalDurationReplace(s[..k], c, s[k + 1..], p1, p2);
    Recompose(s, k);
  }
}
