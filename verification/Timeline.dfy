/** `TimelineDataRange` and `TimelineEvent` of utils/grid.py: binary searches and the windows they cut
    out of sorted lists. */
module Timeline {
  datatype DataRange = DataRange(start: real, end: real, value: string)

  datatype Event = Event(at: real, value: string)

  /** Python's `s[a:b]` of indices that are not negative. */
  function Slice<T>(s: seq<T>, a: nat, b: nat): seq<T> {
    var hi := if b > |s| then |s| else b;
    if a > hi then [] else s[a..hi]
  }

  /** `2 ** n`. */
  ghost function Doublings(n: nat): (p: nat)
    ensures p > 0
  {
    if n == 0 then 1 else 2 * Doublings(n - 1)
  }

  /** A search that looks at `n` items of a list of length `size` halves what is left with each of them. */
  ghost predicate Halves(n: nat, left: int, size: nat) {
    0 <= left && left * Doublings(n) <= size
  }

  lemma {:induction false} TimesGrows(a: nat, b: nat, p: nat)
    requires a <= b
    ensures a * p <= b * p
  {
    if a < b {
      TimesGrows(a, b - 1, p);
      assert b * p == (b - 1) * p + p;
    }
  }

  lemma {:induction false} TwiceTimes(a: nat, p: nat)
    ensures a * (2 * p) == 2 * a * p
  {
  }

  lemma {:induction false} HalvedAgain(n: nat, left: int, left': int, size: nat)
    requires Halves(n, left, size) && 0 <= left' && 2 * left' <= left
    ensures Halves(n + 1, left', size)
  {
    var p := Doublings(n);
    TimesGrows(2 * left', left, p);
    TwiceTimes(left', p);
    assert Doublings(n + 1) == 2 * p;
  }

  /** So the number of items looked at is logarithmic. */
  ghost predicate Few(n: nat, size: nat) {
    n > 0 ==> Doublings(n - 1) <= size
  }

  lemma {:induction false} FewSoFar(n: nat, left: int, size: nat)
    requires Halves(n, left, size) && left > 0
    ensures Few(n + 1, size)
  {
    var p := Doublings(n);
    TimesGrows(1, left, p);
    assert 1 * p == p;
  }

  /** Looking at the item in the middle, with something between `l` and `u`. */
  lemma {:induction false} LooksOnce(l: int, u: int, n: nat, size: nat)
    requires 0 <= l <= u && Halves(n, u - l + 1, size)
    ensures var i := (l + u) / 2;
      l <= i <= u && Few(n + 1, size) && Halves(n + 1, i - l, size) && Halves(n + 1, u - i, size)
  {
    hide Halves, Few;
    var i := (l + u) / 2;
    FewSoFar(n, u - l + 1, size);
    HalvedAgain(n, u - l + 1, i - l, size);
    HalvedAgain(n, u - l + 1, u - i, size);
  }

  lemma {:induction false} NoneSoFar(size: nat)
    ensures Halves(0, size, size) && Few(0, size)
  {
  }

  /* ----- ranges ----- */

  /** In order, and strictly apart. */
  ghost predicate Apart(ranges: seq<DataRange>) {
    && (forall i :: 0 <= i < |ranges| ==> ranges[i].start <= ranges[i].end)
    && forall i, j :: 0 <= i < j < |ranges| ==> ranges[i].end < ranges[j].start
  }

  predicate Covers(r: DataRange, key: real) {
    r.start <= key <= r.end
  }

  ghost predicate Covered(ranges: seq<DataRange>, key: real) {
    exists i :: 0 <= i < |ranges| && Covers(ranges[i], key)
  }

  predicate Meets(r: DataRange, start: real, end: real) {
    r.start <= end && start <= r.end
  }

  /** The ranges that meet the window, in order. */
  ghost function Window(ranges: seq<DataRange>, start: real, end: real): seq<DataRange> {
    if ranges == [] then []
    else
      Window(ranges[..|ranges| - 1], start, end)
      + if Meets(ranges[|ranges| - 1], start, end) then [ranges[|ranges| - 1]] else []
  }

  class TimelineDataRange {
    var ranges: seq<DataRange>

    constructor ()
      ensures ranges == []
    {
      ranges := [];
    }

    method AddRange(range: DataRange)
      modifies this
      ensures ranges == old(ranges) + [range]
    {
      ranges := ranges + [range];
    }

    method Search(key: real) returns (index: int, ghost looks: nat)
      ensures index == FoundAt(ranges, key, 0, |ranges| - 1) && Few(looks, |ranges|)
    {
      hide Halves, Few;
      var l, u := 0, |ranges| - 1;
      looks := 0;
      NoneSoFar(|ranges|);
      while l <= u
        invariant 0 <= l <= u + 1 <= |ranges|
        invariant FoundAt(ranges, key, l, u) == FoundAt(ranges, key, 0, |ranges| - 1)
        invariant Halves(looks, u - l + 1, |ranges|) && Few(looks, |ranges|)
        decreases u - l + 1
      {
        var i := (l + u) / 2;
        LooksOnce(l, u, looks, |ranges|);
        looks := looks + 1;
        if key >= ranges[i].start && key <= ranges[i].end {
          index := i;
          return;
        } else if key < ranges[i].start {
          u := i - 1;
        } else {
          l := i + 1;
        }
      }
      index := -1;
    }

    method GetRanges(start: real, end: real) returns (found: seq<DataRange>)
      ensures found == Slice(ranges, SearchedBounds(ranges, start, end).0, SearchedBounds(ranges, start, end).1)
    {
      var s, _ := Search(start);
      var e, _ := Search(end);
      if s == -1 && e == -1 {
        return [];
      } else if s == -1 {
        return Slice(ranges, 0, e + 1);
      } else if e == -1 {
        return Slice(ranges, s, |ranges|);
      } else {
        return Slice(ranges, s, e + 1);
      }
    }

    method GetRangesBounds(start: real, end: real) returns (lo: nat, hi: nat)
      ensures (lo, hi) == SearchedBounds(ranges, start, end) && lo <= |ranges| && hi <= |ranges|
    {
      var s, _ := Search(start);
      var e, _ := Search(end);
      if s == -1 && e == -1 {
        return 0, 0;
      } else if s == -1 {
        return 0, e + 1;
      } else if e == -1 {
        return s, |ranges|;
      } else {
        return s, e + 1;
      }
    }
  }

  /** Where the binary search between `l` and `u` ends; in a list out of order it may miss a range. */
  function FoundAt(ranges: seq<DataRange>, key: real, l: int, u: int): (index: int)
    requires 0 <= l <= u + 1 <= |ranges|
    ensures index == -1 || (l <= index <= u && Covers(ranges[index], key))
    decreases u - l + 1
  {
    if l > u then -1
    else
      var i := (l + u) / 2;
      if Covers(ranges[i], key) then i
      else if key < ranges[i].start then FoundAt(ranges, key, l, i - 1)
      else FoundAt(ranges, key, i + 1, u)
  }

  /** In order and apart, no range that covers the key is missed. */
  lemma {:induction false} FoundIff(ranges: seq<DataRange>, key: real, l: int, u: int)
    requires Apart(ranges) && 0 <= l <= u + 1 <= |ranges|
    ensures FoundAt(ranges, key, l, u) == -1 <==> forall i :: l <= i <= u ==> !Covers(ranges[i], key)
    decreases u - l + 1
  {
    hide FoundAt, Apart, Covers;
    FoundNext(ranges, key, l, u);
    if l <= u {
      var i := (l + u) / 2;
      OnOneSide(ranges, key, i);
      if !Covers(ranges[i], key) {
        if key < ranges[i].start {
          FoundIff(ranges, key, l, i - 1);
        } else {
          FoundIff(ranges, key, i + 1, u);
        }
      }
    }
  }

  lemma {:induction false} FoundNext(ranges: seq<DataRange>, key: real, l: int, u: int)
    requires 0 <= l <= u + 1 <= |ranges|
    ensures var i := (l + u) / 2;
      FoundAt(ranges, key, l, u) ==
      if l > u then -1
      else if Covers(ranges[i], key) then i
      else if key < ranges[i].start then FoundAt(ranges, key, l, i - 1)
      else FoundAt(ranges, key, i + 1, u)
  {
  }

  lemma {:induction false} OnOneSide(ranges: seq<DataRange>, key: real, i: nat)
    requires Apart(ranges) && i < |ranges|
    ensures key < ranges[i].start ==> forall j :: i < j < |ranges| ==> !Covers(ranges[j], key)
    ensures ranges[i].end < key ==> forall j :: 0 <= j < i ==> !Covers(ranges[j], key)
    ensures Covers(ranges[i], key) || key < ranges[i].start || ranges[i].end < key
  {
  }

  /** What `get_ranges_bounds` makes of the two searches. */
  function SearchedBounds(ranges: seq<DataRange>, start: real, end: real): (nat, nat) {
    var s, e := FoundAt(ranges, start, 0, |ranges| - 1), FoundAt(ranges, end, 0, |ranges| - 1);
    if s == -1 && e == -1 then (0, 0)
    else (if s == -1 then 0 else s, if e == -1 then |ranges| else e + 1)
  }

  /** How many ranges end before a key, and how many start at it or before. */
  ghost function EndedBefore(ranges: seq<DataRange>, key: real): (n: nat)
    ensures n <= |ranges|
  {
    if ranges == [] then 0
    else EndedBefore(ranges[..|ranges| - 1], key) + if ranges[|ranges| - 1].end < key then 1 else 0
  }

  ghost function StartedBy(ranges: seq<DataRange>, key: real): (n: nat)
    ensures n <= |ranges|
  {
    if ranges == [] then 0
    else StartedBy(ranges[..|ranges| - 1], key) + if ranges[|ranges| - 1].start <= key then 1 else 0
  }

  /** The same bounds without a search: an end of the window that no range covers counts as the end of the
      list, unless neither is covered. */
  ghost function Bounds(ranges: seq<DataRange>, start: real, end: real): (nat, nat) {
    var s, e := Covered(ranges, start), Covered(ranges, end);
    if !s && !e then (0, 0)
    else (if s then EndedBefore(ranges, start) else 0, if e then StartedBy(ranges, end) else |ranges|)
  }

  lemma {:induction false} CountsSplit(ranges: seq<DataRange>, key: real)
    requires Apart(ranges)
    ensures forall i :: 0 <= i < |ranges| ==> (ranges[i].end < key <==> i < EndedBefore(ranges, key))
    ensures forall i :: 0 <= i < |ranges| ==> (ranges[i].start <= key <==> i < StartedBy(ranges, key))
  {
    if ranges != [] {
      var n := |ranges| - 1;
      CountsSplit(ranges[..n], key);
      assert forall i :: 0 <= i < n ==> ranges[i] == ranges[..n][i];
    }
  }

  lemma {:induction false} BoundsAt(ranges: seq<DataRange>, start: real, end: real, s: int, e: int)
    requires Apart(ranges) && start <= end
    requires s == -1 <==> !Covered(ranges, start)
    requires s != -1 ==> 0 <= s < |ranges| && Covers(ranges[s], start)
    requires e == -1 <==> !Covered(ranges, end)
    requires e != -1 ==> 0 <= e < |ranges| && Covers(ranges[e], end)
    ensures s != -1 ==> EndedBefore(ranges, start) == s
    ensures e != -1 ==> StartedBy(ranges, end) == e + 1
    ensures s != -1 && e != -1 ==> s <= e
  {
    hide EndedBefore, StartedBy, Covered;
    CountsSplit(ranges, start);
    CountsSplit(ranges, end);
    assert s > 0 ==> ranges[s - 1].end < ranges[s].start;
    assert 0 <= e < |ranges| - 1 ==> ranges[e].end < ranges[e + 1].start;
  }

  /** In order and apart, the searches find these bounds. */
  lemma {:induction false} BoundsSearched(ranges: seq<DataRange>, start: real, end: real)
    requires Apart(ranges) && start <= end
    ensures SearchedBounds(ranges, start, end) == Bounds(ranges, start, end)
  {
    hide EndedBefore, StartedBy, Apart;
    FoundIff(ranges, start, 0, |ranges| - 1);
    FoundIff(ranges, end, 0, |ranges| - 1);
    BoundsAt(ranges, start, end, FoundAt(ranges, start, 0, |ranges| - 1), FoundAt(ranges, end, 0, |ranges| - 1));
  }

  /** How the last range changes the two counts. */
  lemma {:induction false} LastRange(ranges: seq<DataRange>, start: real, end: real)
    requires Apart(ranges) && ranges != [] && start <= end
    ensures var n, front, last := |ranges| - 1, ranges[..|ranges| - 1], ranges[|ranges| - 1];
      && Apart(front)
      && (last.end < start ==> EndedBefore(front, start) == StartedBy(front, end) == n
                               && EndedBefore(ranges, start) == StartedBy(ranges, end) == n + 1)
      && (start <= last.end ==> EndedBefore(ranges, start) == EndedBefore(front, start))
      && (end < last.start ==> StartedBy(ranges, end) == StartedBy(front, end))
      && (last.start <= end ==> StartedBy(front, end) == n && StartedBy(ranges, end) == n + 1)
  {
    var n := |ranges| - 1;
    CountsSplit(ranges, start);
    CountsSplit(ranges, end);
  }

  lemma {:induction false} SliceLonger(s: seq<DataRange>, lo: nat, hi: nat)
    requires s != [] && lo <= hi <= |s| - 1
    ensures s[lo..hi] == s[..|s| - 1][lo..hi] && s[lo..hi + 1] == s[..|s| - 1][lo..hi] + [s[hi]]
    ensures s[|s|..|s|] == [] && s[..|s| - 1][hi..hi] == []
  {
  }

  lemma {:induction false} WindowIsSlice(ranges: seq<DataRange>, start: real, end: real)
    requires Apart(ranges) && start <= end
    ensures EndedBefore(ranges, start) <= StartedBy(ranges, end)
    ensures Window(ranges, start, end) == ranges[EndedBefore(ranges, start)..StartedBy(ranges, end)]
  {
    if ranges != [] {
      hide EndedBefore, StartedBy, Apart;
      var n, front, last := |ranges| - 1, ranges[..|ranges| - 1], ranges[|ranges| - 1];
      LastRange(ranges, start, end);
      WindowIsSlice(front, start, end);
      LastOrdered(ranges);
      var lo, hi := EndedBefore(front, start), StartedBy(front, end);
      SliceLonger(ranges, lo, hi);
    }
  }

  lemma {:induction false} LastOrdered(ranges: seq<DataRange>)
    requires Apart(ranges) && ranges != []
    ensures ranges[|ranges| - 1].start <= ranges[|ranges| - 1].end
  {
  }

  /** What `get_ranges` returns are exactly the ranges that meet the window if and only if both its ends are
      covered, or one is and no range lies wholly beyond the other, or as many ranges have ended before the
      window as have started by its end. */
  lemma {:induction false} ExactIff(ranges: seq<DataRange>, start: real, end: real)
    requires Apart(ranges) && start <= end
    ensures var (lo, hi) := SearchedBounds(ranges, start, end);
      Slice(ranges, lo, hi) == Window(ranges, start, end) <==>
        if Covered(ranges, start) then Covered(ranges, end) || ranges[|ranges| - 1].start <= end
        else if Covered(ranges, end) then start <= ranges[0].end
        else EndedBefore(ranges, start) == StartedBy(ranges, end)
  {
    hide EndedBefore, StartedBy, Window, FoundAt, SearchedBounds;
    BoundsSearched(ranges, start, end);
    WindowIsSlice(ranges, start, end);
    CountsSplit(ranges, start);
    CountsSplit(ranges, end);
    assert |Window(ranges, start, end)| == StartedBy(ranges, end) - EndedBefore(ranges, start);
  }

  /** A range inside a window whose ends it does not cover is missed. */
  lemma {:induction false} InsideMissed(r: DataRange, start: real, end: real)
    requires start < r.start <= r.end < end
    ensures var (lo, hi) := SearchedBounds([r], start, end);
      Slice([r], lo, hi) == [] && Window([r], start, end) == [r]
  {
    assert [r][..0] == [];
  }

  /** With one end covered it is at least a contiguous superset. */
  lemma {:induction false} SupersetIfCovered(ranges: seq<DataRange>, start: real, end: real)
    requires Apart(ranges) && start <= end && (Covered(ranges, start) || Covered(ranges, end))
    ensures var (lo, hi) := SearchedBounds(ranges, start, end);
      lo <= EndedBefore(ranges, start) <= StartedBy(ranges, end) <= hi <= |ranges|
    ensures Window(ranges, start, end) == ranges[EndedBefore(ranges, start)..StartedBy(ranges, end)]
  {
    BoundsSearched(ranges, start, end);
    WindowIsSlice(ranges, start, end);
  }

  /* ----- events ----- */

  ghost predicate Increasing(events: seq<Event>) {
    forall i, j :: 0 <= i < j < |events| ==> events[i].at < events[j].at
  }

  class TimelineEvent {
    var events: seq<Event>

    constructor ()
      ensures events == []
    {
      events := [];
    }

    method AddEvent(event: Event)
      modifies this
      ensures events == old(events) + [event]
    {
      events := events + [event];
    }

    method Search(key: real) returns (index: nat, ghost looks: nat)
      ensures index == PlaceOf(events, key, 0, |events| - 1) && Few(looks, |events|)
    {
      hide Halves, Few, PlaceOf;
      var l, u := 0, |events| - 1;
      looks := 0;
      NoneSoFar(|events|);
      while l <= u
        invariant 0 <= l <= u + 1 <= |events|
        invariant PlaceOf(events, key, l, u) == PlaceOf(events, key, 0, |events| - 1)
        invariant Halves(looks, u - l + 1, |events|) && Few(looks, |events|)
        decreases u - l + 1
      {
        var i := (l + u) / 2;
        LooksOnce(l, u, looks, |events|);
        PlaceNext(events, key, l, u);
        looks := looks + 1;
        if key == events[i].at {
          index := i;
          return;
        } else if key < events[i].at {
          u := i - 1;
        } else {
          l := i + 1;
        }
      }
      PlaceNext(events, key, l, u);
      index := l;
    }

    method GetEvents(start: real, end: real) returns (found: seq<Event>)
      ensures found == Slice(events, SearchedEvents(events, start, end).0, SearchedEvents(events, start, end).1)
    {
      hide PlaceOf;
      var s, _ := Search(start);
      var e, _ := Search(end);
      return Slice(events, s, e + 1);
    }

    method GetEventsBounds(start: real, end: real) returns (lo: nat, hi: nat)
      ensures (lo, hi) == SearchedEvents(events, start, end) && lo <= |events| && hi <= |events| + 1
    {
      var s, _ := Search(start);
      var e, _ := Search(end);
      return s, e + 1;
    }
  }

  /** Where the binary search between `l` and `u` ends. */
  function PlaceOf(events: seq<Event>, key: real, l: int, u: int): (index: nat)
    requires 0 <= l <= u + 1 <= |events|
    ensures l <= index <= u + 1
    decreases u - l + 1
  {
    if l > u then l
    else
      var i := (l + u) / 2;
      if key == events[i].at then i
      else if key < events[i].at then PlaceOf(events, key, l, i - 1)
      else PlaceOf(events, key, i + 1, u)
  }

  lemma {:induction false} PlaceNext(events: seq<Event>, key: real, l: int, u: int)
    requires 0 <= l <= u + 1 <= |events|
    ensures var i := (l + u) / 2;
      PlaceOf(events, key, l, u) ==
      if l > u then l
      else if key == events[i].at then i
      else if key < events[i].at then PlaceOf(events, key, l, i - 1)
      else PlaceOf(events, key, i + 1, u)
  {
  }

  function SearchedEvents(events: seq<Event>, start: real, end: real): (nat, nat) {
    (PlaceOf(events, start, 0, |events| - 1), PlaceOf(events, end, 0, |events| - 1) + 1)
  }

  /** With increasing times the place is that of the first event at the key or after it. */
  lemma {:induction false} PlaceIff(events: seq<Event>, key: real, l: int, u: int)
    requires Increasing(events) && 0 <= l <= u + 1 <= |events|
    requires (forall i :: 0 <= i < l ==> events[i].at < key) && forall i :: u < i < |events| ==> key < events[i].at
    ensures forall i :: 0 <= i < |events| ==> (events[i].at < key <==> i < PlaceOf(events, key, l, u))
    decreases u - l + 1
  {
    if l <= u {
      var i := (l + u) / 2;
      if key < events[i].at {
        PlaceIff(events, key, l, i - 1);
      } else if key > events[i].at {
        PlaceIff(events, key, i + 1, u);
      }
    }
  }

  /** The events from `lo` to `hi` are those in the window and at most the next one, which is among them
      exactly when there is one and no event stands at the window's end. */
  ghost predicate IsCut(events: seq<Event>, start: real, end: real, lo: nat, hi: nat) {
    && lo <= hi <= |events|
    && (forall i :: 0 <= i < |events| && start <= events[i].at <= end ==> lo <= i < hi)
    && (forall i :: lo <= i < hi ==> start <= events[i].at)
    && (forall i :: lo <= i < hi - 1 ==> events[i].at <= end)
    && (hi < |events| ==> end < events[hi].at)
    && (hi < |events| ==> hi > 0 && end <= events[hi - 1].at)
    && (lo < hi && end < events[hi - 1].at ==> forall i :: 0 <= i < |events| ==> events[i].at != end)
  }

  lemma {:induction false} InOrder(events: seq<Event>, start: real, end: real, s: nat, e: nat)
    requires Increasing(events) && start <= end && s <= |events| && e <= |events|
    requires forall i :: 0 <= i < |events| ==> (events[i].at < start <==> i < s)
    requires forall i :: 0 <= i < |events| ==> (events[i].at < end <==> i < e)
    ensures s <= e
    ensures IsCut(events, start, end, s, if e + 1 > |events| then |events| else e + 1)
  {
    assert s > 0 ==> events[s - 1].at < start;
    assert e < |events| ==> end <= events[e].at;
    assert e + 1 < |events| ==> events[e].at < events[e + 1].at;
  }

  /** `get_events` with increasing times: every event in the window and at most the next one.  The upper
      bound lies one behind the list's end exactly if every event is before the window's end. */
  lemma {:induction false} EventsCut(events: seq<Event>, start: real, end: real)
    requires Increasing(events) && start <= end
    ensures var (lo, hi) := SearchedEvents(events, start, end);
      var last := if hi > |events| then |events| else hi;
      && IsCut(events, start, end, lo, last) && Slice(events, lo, hi) == events[lo..last]
      && (hi == |events| + 1 <==> forall i :: 0 <= i < |events| ==> events[i].at < end)
  {
    hide PlaceOf, IsCut, Increasing;
    var s, e := PlaceOf(events, start, 0, |events| - 1), PlaceOf(events, end, 0, |events| - 1);
    PlaceIff(events, start, 0, |events| - 1);
    PlaceIff(events, end, 0, |events| - 1);
    InOrder(events, start, end, s, e);
    assert e < |events| ==> !(events[e].at < end);
  }
}
