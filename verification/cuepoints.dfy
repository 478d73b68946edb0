/** A cuepoint tracker: it keeps named, timed events sorted by position and,
    each time the playback position is updated, passes at most one of them --
    the first one just crossed -- to a single installed handler.

    Positions and the tolerance are exact reals, so the subtraction in the
    tolerance test does not round as a double subtraction does. The handler
    is an opaque value of type H, the payload an opaque value of type D; a
    handler call is recorded, not run. */
module Cuepoints {

  import opened Ordering

  datatype Option<+T> = None | Some(value: T)

  /** A named, timed event with a payload passed through unmodified. */
  datatype Cuepoint<D> = Cuepoint(position: real, name: string, data: D)

  const DEFAULT_TOLERANCE: real := 0.2
  const INITIAL_POSITION: real := 0.0
  /** The last position before any update has been observed. */
  const NO_POSITION: real := -1.0

  predicate SortedByPosition<D>(s: seq<Cuepoint<D>>) {
    forall i, j :: 0 <= i < j < |s| ==> s[i].position <= s[j].position
  }

  // ---------------------------------------------------------------------------
  // Insertion: what `add` does to the list

  /** The index at which a stable sort places an entry at position `p` pushed
      behind `s`: after every leading entry at or before `p`. */
  function InsertionPoint<D>(s: seq<Cuepoint<D>>, p: real): (k: nat)
    ensures k <= |s|
    ensures forall j :: 0 <= j < k ==> s[j].position <= p
    ensures k < |s| ==> p < s[k].position
  {
    if s == [] then 0
    else if p < s[0].position then 0
    else 1 + InsertionPoint(s[1..], p)
  }

  /** `s` with `c` placed at its insertion point; every old entry keeps its
      relative order. */
  function Insert<D>(s: seq<Cuepoint<D>>, c: Cuepoint<D>): (r: seq<Cuepoint<D>>)
    ensures |r| == |s| + 1
  {
    var k := InsertionPoint(s, c.position);
    s[..k] + [c] + s[k..]
  }

  /** On a sorted list the insertion point is the one index where every entry
      before it is at or before `p` and every entry from it on is after `p`. */
  lemma InsertionPointUnique<D>(s: seq<Cuepoint<D>>, p: real, i: nat)
    requires SortedByPosition(s)
    requires i <= |s|
    requires i == 0 || s[i - 1].position <= p
    requires forall j :: i <= j < |s| ==> p < s[j].position
    ensures InsertionPoint(s, p) == i
  {
  }

  /** One backward step of the insertion pass: swapping the new entry with
      its predecessor moves it one place towards the front. */
  lemma SwapBack<D>(s: seq<Cuepoint<D>>, c: Cuepoint<D>, i: nat)
    requires 0 < i <= |s|
    ensures (s[..i] + [c] + s[i..])[i - 1 := c][i := s[i - 1]] == s[..i - 1] + [c] + s[i - 1..]
  {
    var a := (s[..i] + [c] + s[i..])[i - 1 := c][i := s[i - 1]];
    var b := s[..i - 1] + [c] + s[i - 1..];
    assert |a| == |b|;
    forall k | 0 <= k < |a|
      ensures a[k] == b[k]
    {
      if k < i - 1 {
        assert a[k] == s[k];
      } else if k > i {
        assert a[k] == s[k - 1];
      }
    }
  }

  /** Adding keeps the list sorted by position. */
  lemma InsertKeepsSorted<D>(s: seq<Cuepoint<D>>, c: Cuepoint<D>)
    requires SortedByPosition(s)
    ensures SortedByPosition(Insert(s, c))
  {
    var k := InsertionPoint(s, c.position);
    var r := Insert(s, c);
    forall i, j | 0 <= i < j < |r|
      ensures r[i].position <= r[j].position
    {
      if j < k || i > k {
        assert r[i] == s[if i < k then i else i - 1];
        assert r[j] == s[if j < k then j else j - 1];
      } else if i == k {
        assert r[j] == s[j - 1];
        assert s[k].position <= s[j - 1].position;
      } else if j == k {
        assert r[i] == s[i];
      } else {
        assert r[i] == s[i] && r[j] == s[j - 1];
      }
    }
  }

  /** Adding loses nothing and invents nothing: the new list is the old one
      plus the new entry, as a multiset. */
  lemma InsertPermutes<D>(s: seq<Cuepoint<D>>, c: Cuepoint<D>)
    ensures multiset(Insert(s, c)) == multiset(s) + multiset{c}
  {
    var k := InsertionPoint(s, c.position);
    assert s == s[..k] + s[k..];
  }

  // ---------------------------------------------------------------------------
  // Crossing: what `check` and `inRange` decide

  /** A cuepoint qualifies when it lies in the crossed window
      (lastPos, currentPos] and is at most `tolerance` behind currentPos. */
  function InRange(cuepointPos: real, currentPos: real, lastPos: real, tolerance: real): (r: bool)
    ensures r <==> lastPos < cuepointPos <= currentPos && currentPos - cuepointPos <= tolerance
  {
    if cuepointPos > currentPos then false
    else if cuepointPos <= lastPos then false
    else
      var diff := cuepointPos - currentPos;
      var dist := if diff < 0.0 then -diff else diff;
      dist <= tolerance
  }

  /** The index of the first qualifying entry in list order, if any. */
  function FirstInRange<D>(list: seq<Cuepoint<D>>, currentPos: real, lastPos: real, tolerance: real): (r: Option<nat>)
    ensures r.Some? ==> r.value < |list| && InRange(list[r.value].position, currentPos, lastPos, tolerance)
    ensures r.Some? ==> forall j :: 0 <= j < r.value ==> !InRange(list[j].position, currentPos, lastPos, tolerance)
    ensures r.None? ==> forall j :: 0 <= j < |list| ==> !InRange(list[j].position, currentPos, lastPos, tolerance)
  {
    if list == [] then None
    else if InRange(list[0].position, currentPos, lastPos, tolerance) then Some(0)
    else match FirstInRange(list[1..], currentPos, lastPos, tolerance)
      case None => None
      case Some(k) => Some(k + 1)
  }

  /** The cuepoint one update dispatches, moving from `lastPos` to
      `currentPos` with or without a handler installed. */
  function Dispatched<D>(list: seq<Cuepoint<D>>, currentPos: real, lastPos: real, tolerance: real,
                         handlerInstalled: bool): (r: Option<Cuepoint<D>>)
    // backward or repeated positions never fire
    ensures currentPos <= lastPos ==> r.None?
    // with no handler nothing fires
    ensures !handlerInstalled ==> r.None?
    // what fires was crossed by this move and is within tolerance
    ensures r.Some? ==> lastPos < r.value.position <= currentPos && currentPos - r.value.position <= tolerance
    // what fires is a list entry and no earlier entry qualifies
    ensures r.Some? ==> exists k :: 0 <= k < |list| && list[k] == r.value &&
                          forall j :: 0 <= j < k ==> !InRange(list[j].position, currentPos, lastPos, tolerance)
    // nothing fires on a forward move with a handler only if no entry qualifies
    ensures r.None? && handlerInstalled && lastPos < currentPos ==>
              forall k :: 0 <= k < |list| ==> !InRange(list[k].position, currentPos, lastPos, tolerance)
  {
    if currentPos <= lastPos || !handlerInstalled then None
    else match FirstInRange(list, currentPos, lastPos, tolerance)
      case None => None
      case Some(k) => Some(list[k])
  }

  /** On a sorted list the first qualifying entry is also the earliest
      qualifying position: no qualifying entry lies before the one that fires. */
  lemma DispatchIsEarliest<D>(list: seq<Cuepoint<D>>, currentPos: real, lastPos: real, tolerance: real, k: nat)
    requires SortedByPosition(list)
    requires k < |list| && InRange(list[k].position, currentPos, lastPos, tolerance)
    ensures Dispatched(list, currentPos, lastPos, tolerance, true).Some?
    ensures Dispatched(list, currentPos, lastPos, tolerance, true).value.position <= list[k].position
  {
    var f := FirstInRange(list, currentPos, lastPos, tolerance);
    assert f.Some? && f.value <= k;
  }

  // ---------------------------------------------------------------------------
  // Successive updates

  /** What a sequence of updates dispatches, one entry per update, starting
      from a tracker whose last position is `last`. */
  function Run<D>(list: seq<Cuepoint<D>>, tolerance: real, handlerInstalled: bool,
                  last: real, positions: seq<real>): (r: seq<Option<Cuepoint<D>>>)
    ensures |r| == |positions|
    decreases positions
  {
    if positions == [] then []
    else [Dispatched(list, positions[0], last, tolerance, handlerInstalled)]
         + Run(list, tolerance, handlerInstalled, positions[0], positions[1..])
  }

  /** The cuepoint fired by the i-th update lies between the position before
      that update and the position it reports. */
  lemma {:induction false} RunFiresWithinStep<D>(list: seq<Cuepoint<D>>, tolerance: real, handlerInstalled: bool,
                                                 last: real, positions: seq<real>, i: nat)
    requires i < |positions|
    requires Run(list, tolerance, handlerInstalled, last, positions)[i].Some?
    decreases i
    ensures (if i == 0 then last else positions[i - 1])
            < Run(list, tolerance, handlerInstalled, last, positions)[i].value.position
            <= positions[i]
  {
    if i > 0 {
      RunFiresWithinStep(list, tolerance, handlerInstalled, positions[0], positions[1..], i - 1);
    }
  }

  /** Driven forward, the tracker never fires the same cuepoint twice: the
      positions of the cuepoints it fires strictly increase. */
  lemma RunNeverRefires<D>(list: seq<Cuepoint<D>>, tolerance: real, handlerInstalled: bool,
                           last: real, positions: seq<real>, i: nat, j: nat)
    requires NonDecreasing(positions)
    requires i < j < |positions|
    requires Run(list, tolerance, handlerInstalled, last, positions)[i].Some?
    requires Run(list, tolerance, handlerInstalled, last, positions)[j].Some?
    ensures Run(list, tolerance, handlerInstalled, last, positions)[i].value.position
            < Run(list, tolerance, handlerInstalled, last, positions)[j].value.position
  {
    RunFiresWithinStep(list, tolerance, handlerInstalled, last, positions, i);
    RunFiresWithinStep(list, tolerance, handlerInstalled, last, positions, j);
    assert positions[i] <= positions[j - 1];
  }

  /** The handler calls a run of updates makes: one (handler, cuepoint) pair
      per update that dispatched, in order. */
  ghost function CallsOf<H, D>(handler: Option<H>, fired: seq<Option<Cuepoint<D>>>): (r: seq<(H, Cuepoint<D>)>)
    ensures handler.None? ==> r == []
    ensures |r| <= |fired|
  {
    if fired == [] then []
    else
      var f := fired[|fired| - 1];
      CallsOf(handler, fired[..|fired| - 1])
      + (if handler.Some? && f.Some? then [(handler.value, f.value)] else [])
  }

  /** One more update adds its call, if any, at the end of the log. */
  lemma CallsOfSnoc<H, D>(handler: Option<H>, fired: seq<Option<Cuepoint<D>>>, f: Option<Cuepoint<D>>)
    ensures CallsOf(handler, fired + [f])
            == CallsOf(handler, fired) + (if handler.Some? && f.Some? then [(handler.value, f.value)] else [])
  {
    assert (fired + [f])[..|fired + [f]| - 1] == fired;
  }

  /** Moving one update from the rest of a run to what has been dispatched
      keeps the whole run the same. */
  lemma RunStep<D>(list: seq<Cuepoint<D>>, tolerance: real, handlerInstalled: bool,
                   last: real, positions: seq<real>, i: nat,
                   fired: seq<Option<Cuepoint<D>>>, f: Option<Cuepoint<D>>)
    requires i < |positions|
    requires f == Dispatched(list, positions[i], last, tolerance, handlerInstalled)
    ensures (fired + [f]) + Run(list, tolerance, handlerInstalled, positions[i], positions[i + 1..])
            == fired + Run(list, tolerance, handlerInstalled, last, positions[i..])
  {
    assert positions[i..][1..] == positions[i + 1..];
  }

  // ---------------------------------------------------------------------------
  // The tracker

  class CuepointsReader<H, D> {
    /** The cuepoints, sorted by position. */
    var list: seq<Cuepoint<D>>
    var currentPosition: real
    var lastPosition: real
    var tolerance: real
    /** The installed handler; None when cleared or never set. */
    var handler: Option<H>
    /** Every handler call made so far, oldest first. */
    ghost var calls: seq<(H, Cuepoint<D>)>

    ghost predicate Valid()
      reads this`list
    {
      SortedByPosition(list)
    }

    constructor ()
      ensures Valid()
      ensures list == [] && currentPosition == INITIAL_POSITION && lastPosition == NO_POSITION
      ensures tolerance == DEFAULT_TOLERANCE && handler == None && calls == []
    {
      list := [];
      currentPosition := INITIAL_POSITION;
      lastPosition := NO_POSITION;
      tolerance := DEFAULT_TOLERANCE;
      handler := None;
      calls := [];
    }

    /** Pushes a new cuepoint and re-sorts: on the already sorted list this
        moves the new entry back past every entry after its position. */
    method Add(position: real, name: string, data: D)
      requires Valid()
      modifies this`list
      ensures Valid()
      ensures list == Insert(old(list), Cuepoint(position, name, data))
      ensures multiset(list) == multiset(old(list)) + multiset{Cuepoint(position, name, data)}
    {
      ghost var before := list;
      var cue := Cuepoint(position, name, data);
      list := list + [cue];
      var i := |list| - 1;
      while i > 0 && list[i - 1].position > position
        invariant 0 <= i <= |before|
        invariant list == before[..i] + [cue] + before[i..]
        invariant forall j :: i <= j < |before| ==> position < before[j].position
      {
        SwapBack(before, cue, i);
        list := list[i - 1 := cue][i := list[i - 1]];
        i := i - 1;
      }
      InsertionPointUnique(before, position, i);
      InsertKeepsSorted(before, cue);
      InsertPermutes(before, cue);
    }

    /** Installs `fn` as the only handler, or clears it when `fn` is None. */
    method OnCuepoint(fn: Option<H>)
      modifies this`handler
      ensures handler == fn
    {
      if fn.Some? {
        handler := fn;
      } else {
        handler := None;
      }
    }

    /** Empties the list and resets position tracking. */
    method RemoveAll()
      modifies this`list, this`currentPosition, this`lastPosition
      ensures Valid()
      ensures list == []
      ensures currentPosition == INITIAL_POSITION && lastPosition == NO_POSITION
    {
      list := [];
      Reset();
    }

    /** Forgets every earlier update; the list and the handler stay. */
    method Reset()
      modifies this`currentPosition, this`lastPosition
      ensures currentPosition == INITIAL_POSITION && lastPosition == NO_POSITION
    {
      currentPosition := INITIAL_POSITION;
      lastPosition := NO_POSITION;
    }

    /** Overwrites the tolerance; any value is accepted. */
    method SetTolerance(value: real)
      modifies this`tolerance
      ensures tolerance == value
    {
      tolerance := value;
    }

    /** Records the new position, dispatches what the move crossed and makes
        the new position the last one. Returns the cuepoint dispatched. */
    method Update(position: real) returns (fired: Option<Cuepoint<D>>)
      modifies this`currentPosition, this`lastPosition, this`calls
      ensures fired == Dispatched(list, position, old(lastPosition), tolerance, handler.Some?)
      ensures calls == old(calls) + (if fired.Some? then [(handler.value, fired.value)] else [])
      ensures currentPosition == position && lastPosition == position
      ensures list == old(list) && tolerance == old(tolerance) && handler == old(handler)
    {
      currentPosition := position;
      fired := Check(currentPosition, lastPosition);
      lastPosition := currentPosition;
    }

    /** Calls `Update` once per position, in order, and collects what each
        call dispatched: the tracker's own run of updates. */
    method UpdateEach(positions: seq<real>) returns (fired: seq<Option<Cuepoint<D>>>)
      modifies this`currentPosition, this`lastPosition, this`calls
      ensures fired == Run(list, tolerance, handler.Some?, old(lastPosition), positions)
      ensures calls == old(calls) + CallsOf(handler, fired)
      ensures positions != [] ==> currentPosition == lastPosition == positions[|positions| - 1]
      ensures positions == [] ==> currentPosition == old(currentPosition) && lastPosition == old(lastPosition)
    {
      ghost var cues, tol, installed := list, tolerance, handler.Some?;
      fired := [];
      var i := 0;
      while i < |positions|
        invariant 0 <= i <= |positions|
        invariant list == cues && tolerance == tol && handler.Some? == installed
        invariant fired + Run(cues, tol, installed, lastPosition, positions[i..])
                  == Run(cues, tol, installed, old(lastPosition), positions)
        invariant i > 0 ==> currentPosition == lastPosition == positions[i - 1]
        invariant i == 0 ==> currentPosition == old(currentPosition) && lastPosition == old(lastPosition)
        invariant |fired| == i
        invariant calls == old(calls) + CallsOf(handler, fired)
      {
        ghost var last := lastPosition;
        var f := Update(positions[i]);
        RunStep(cues, tol, installed, last, positions, i, fired, f);
        CallsOfSnoc(handler, fired, f);
        fired := fired + [f];
        i := i + 1;
      }
      assert positions[i..] == [];
    }

    /** Scans the list in order and hands the first qualifying cuepoint to
        the handler, stopping there. */
    method Check(currentPos: real, lastPos: real) returns (fired: Option<Cuepoint<D>>)
      modifies this`calls
      ensures fired == Dispatched(list, currentPos, lastPos, tolerance, handler.Some?)
      ensures calls == old(calls) + (if fired.Some? then [(handler.value, fired.value)] else [])
    {
      fired := None;
      if currentPos <= lastPos {
        return;
      }
      if handler.None? {
        return;
      }
      var i := 0;
      while i < |list|
        invariant 0 <= i <= |list|
        invariant forall j :: 0 <= j < i ==> !InRange(list[j].position, currentPos, lastPos, tolerance)
        invariant calls == old(calls)
      {
        if InRange(list[i].position, currentPos, lastPos, tolerance) {
          fired := Some(list[i]);
          calls := calls + [(handler.value, list[i])];
          return;
        }
        i := i + 1;
      }
    }
  }

  /** Of two crossed cuepoints the earliest fires; a repeated position fires
      nothing. */
  method EarliestMatchScenario()
  {
    var reader := new CuepointsReader<string, int>();
    reader.OnCuepoint(Some("listener"));
    reader.Add(1.05, "late", 2);
    reader.Add(1.0, "early", 1);
    assert reader.list == [Cuepoint(1.0, "early", 1), Cuepoint(1.05, "late", 2)];
    var fired := reader.Update(1.1);
    assert fired == Some(Cuepoint(1.0, "early", 1));
    fired := reader.Update(1.1);
    assert fired == None;
  }

  /** In exact arithmetic a cuepoint fires at exactly the tolerance, not
      beyond it. (In doubles 5.2 - 5.0 rounds above 0.2, so the program
      itself does not fire on the second update.) */
  method ToleranceScenario()
  {
    var reader := new CuepointsReader<string, int>();
    reader.OnCuepoint(Some("listener"));
    reader.Add(5.0, "five", 5);
    var fired := reader.Update(5.3);
    assert fired == None;
    reader.Reset();
    fired := reader.Update(5.2);
    assert fired == Some(Cuepoint(5.0, "five", 5));
  }

  /** A fired cuepoint does not fire again on the next forward update. */
  method NoRefireScenario()
  {
    var reader := new CuepointsReader<string, int>();
    reader.OnCuepoint(Some("listener"));
    reader.Add(2.0, "two", 2);
    var fired := reader.Update(2.0);
    assert fired == Some(Cuepoint(2.0, "two", 2));
    fired := reader.Update(2.1);
    assert fired == None;
  }

  /** Reset re-enables early cuepoints; a cleared handler receives nothing;
      removeAll leaves a freshly reset, empty tracker. */
  method ResetScenario()
  {
    var reader := new CuepointsReader<string, int>();
    reader.OnCuepoint(Some("listener"));
    reader.Add(0.1, "start", 0);
    var fired := reader.Update(10.0);
    assert fired == None;
    reader.Reset();
    fired := reader.Update(0.1);
    assert fired == Some(Cuepoint(0.1, "start", 0));
    reader.OnCuepoint(None);
    reader.Reset();
    fired := reader.Update(0.1);
    assert fired == None;
    reader.RemoveAll();
    assert reader.list == [] && reader.currentPosition == 0.0 && reader.lastPosition == -1.0;
  }
}
