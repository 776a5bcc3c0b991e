/** Frozen funding and long/short history (binance/positioning.py): sorted points, the
    latest-at-or-before lookup, and the freeze/thaw of an artifact. */
module Positioning {
  import opened Common
  import opened Keys

  datatype Point = Point(ms: int, value: real)

  /** Python's tuple order. */
  predicate LexLe(a: Point, b: Point) {
    a.ms < b.ms || (a.ms == b.ms && a.value <= b.value)
  }

  predicate Sorted(ps: seq<Point>) {
    forall i, j :: 0 <= i < j < |ps| ==> LexLe(ps[i], ps[j])
  }

  datatype History = History(funding: seq<Point>, longShort: seq<Point>)

  predicate Valid(h: History) {
    Sorted(h.funding) && Sorted(h.longShort)
  }

  /** One record of the artifact; `None` is a missing or unreadable field. */
  datatype Item = Item(ms: Option<int>, rate: Option<real>, pct: Option<real>)

  const MAX_ABS_FUNDING := 0.05

  predicate RateOk(r: real) { Abs(r) <= MAX_ABS_FUNDING }
  predicate PctOk(p: real) { 0.0 < p < 100.0 }

  // --- Sorting ------------------------------------------------------------------

  lemma AppendKeepsSorted(ps: seq<Point>, last: Point)
    requires Sorted(ps) && forall q :: q in ps ==> LexLe(q, last)
    ensures Sorted(ps + [last])
  {
    forall i, j | 0 <= i < j < |ps| + 1 ensures LexLe((ps + [last])[i], (ps + [last])[j]) {
      if j == |ps| {
        assert ps[i] in ps;
      }
    }
  }

  lemma InsertedIsBelow(ps: seq<Point>, p: Point, front: seq<Point>)
    requires Sorted(ps) && ps != [] && !LexLe(ps[|ps| - 1], p)
    requires forall q :: q in front <==> q in ps[..|ps| - 1] || q == p
    ensures forall q :: q in front ==> LexLe(q, ps[|ps| - 1])
  {
    forall q | q in front ensures LexLe(q, ps[|ps| - 1]) {
      if q != p {
        var i :| 0 <= i < |ps| - 1 && ps[i] == q;
      }
    }
  }

  function Insert(ps: seq<Point>, p: Point): (r: seq<Point>)
    requires Sorted(ps)
    ensures Sorted(r) && forall q :: q in r <==> q in ps || q == p
  {
    if ps == [] then [p]
    else if LexLe(ps[|ps| - 1], p) then ps + [p]
    else
      var (front, last) := (Insert(ps[..|ps| - 1], p), ps[|ps| - 1]);
      assert ps == ps[..|ps| - 1] + [last];
      InsertedIsBelow(ps, p, front);
      AppendKeepsSorted(front, last);
      front + [last]
  }

  function Sort(ps: seq<Point>): (r: seq<Point>)
    ensures Sorted(r) && forall q :: q in r <==> q in ps
  {
    if ps == [] then [] else
      assert ps == ps[..|ps| - 1] + [ps[|ps| - 1]];
      Insert(Sort(ps[..|ps| - 1]), ps[|ps| - 1])
  }

  // --- Lookup -------------------------------------------------------------------

  /** How far the scan gets before the first point after `ms`. */
  function Reach(ps: seq<Point>, ms: int, from: nat): (n: nat)
    requires from <= |ps|
    ensures from <= n <= |ps|
    ensures forall i :: from <= i < n ==> ps[i].ms <= ms
    ensures n < |ps| ==> ps[n].ms > ms
    decreases |ps| - from
  {
    if from < |ps| && ps[from].ms <= ms then Reach(ps, ms, from + 1) else from
  }

  function Latest(ps: seq<Point>, ms: int): Option<real> {
    var n := Reach(ps, ms, 0);
    if n == 0 then None else Some(ps[n - 1].value)
  }

  function FundingAt(h: History, ms: int): Option<real> { Latest(h.funding, ms) }
  function LongPctAt(h: History, ms: int): Option<real> { Latest(h.longShort, ms) }

  /** `_latest`: remember the value until the first later point. */
  method LatestPoint(ps: seq<Point>, ms: int) returns (value: Option<real>)
    ensures value == Latest(ps, ms)
  {
    value := None;
    var i := 0;
    while i < |ps|
      invariant 0 <= i <= |ps|
      invariant Reach(ps, ms, 0) == Reach(ps, ms, i)
      invariant value == if i == 0 then None else Some(ps[i - 1].value)
    {
      if ps[i].ms > ms {
        break;
      }
      value := Some(ps[i].value);
      i := i + 1;
    }
  }

  /** `p` is the greatest point at or before `ms`, whatever the order of the list. */
  ghost predicate IsLatest(ps: seq<Point>, ms: int, p: Point) {
    p in ps && p.ms <= ms && forall q :: q in ps && q.ms <= ms ==> LexLe(q, p)
  }

  /** The scan finds the greatest point at or before `ms`, and nothing only if there is none. */
  lemma LatestIsTheGreatest(ps: seq<Point>, ms: int)
    requires Sorted(ps)
    ensures Latest(ps, ms).None? <==> forall q :: q in ps ==> q.ms > ms
    ensures forall p :: IsLatest(ps, ms, p) ==> Latest(ps, ms) == Some(p.value)
    ensures Latest(ps, ms).Some? ==> exists p :: IsLatest(ps, ms, p)
  {
    var n := Reach(ps, ms, 0);
    forall q | q in ps && q.ms <= ms ensures n > 0 && LexLe(q, ps[n - 1]) {
      var i :| 0 <= i < |ps| && ps[i] == q;
      assert i < n;
    }
    if n > 0 {
      assert IsLatest(ps, ms, ps[n - 1]);
    }
  }

  /** The points' order on input does not matter: what the constructor sorts is what the
      lookup answers from. */
  lemma InputOrderDoesNotMatter(a: seq<Point>, b: seq<Point>, ms: int)
    requires forall q :: q in a <==> q in b
    ensures Latest(Sort(a), ms) == Latest(Sort(b), ms)
  {
    hide Sort;
    LatestIsTheGreatest(Sort(a), ms);
    LatestIsTheGreatest(Sort(b), ms);
    if Latest(Sort(a), ms).Some? {
      var p :| IsLatest(Sort(a), ms, p);
      assert IsLatest(Sort(b), ms, p);
    }
  }

  // --- Freeze -------------------------------------------------------------------

  function Blank(merged: map<int, Item>, ms: int): Item {
    if ms in merged then merged[ms] else Item(Some(ms), None, None)
  }

  function MergeFunding(ps: seq<Point>): map<int, Item> {
    if ps == [] then map[] else
      var (merged, p) := (MergeFunding(ps[..|ps| - 1]), ps[|ps| - 1]);
      merged[p.ms := Blank(merged, p.ms).(rate := Some(p.value))]
  }

  function MergeLongShort(merged: map<int, Item>, ps: seq<Point>): map<int, Item> {
    if ps == [] then merged else
      var (front, p) := (MergeLongShort(merged, ps[..|ps| - 1]), ps[|ps| - 1]);
      front[p.ms := Blank(front, p.ms).(pct := Some(p.value))]
  }

  function Merged(h: History): map<int, Item> {
    MergeLongShort(MergeFunding(h.funding), h.longShort)
  }

  function Frozen(h: History): seq<Item> {
    var (merged, keys) := (Merged(h), AscendingKeys(Merged(h).Keys));
    seq(|keys|, i requires 0 <= i < |keys| => merged[keys[i]])
  }

  lemma NothingMerged()
    ensures MergeFunding([]) == map[] && forall base :: MergeLongShort(base, []) == base
  {
  }

  lemma FundingStep(ps: seq<Point>, i: nat)
    requires i < |ps|
    ensures
      var before := MergeFunding(ps[..i]);
      MergeFunding(ps[..i + 1]) == before[ps[i].ms := Blank(before, ps[i].ms).(rate := Some(ps[i].value))]
  {
    assert ps[..i + 1][..i] == ps[..i];
  }

  lemma LongShortStep(base: map<int, Item>, ps: seq<Point>, i: nat)
    requires i < |ps|
    ensures
      var before := MergeLongShort(base, ps[..i]);
      MergeLongShort(base, ps[..i + 1]) == before[ps[i].ms := Blank(before, ps[i].ms).(pct := Some(ps[i].value))]
  {
    assert ps[..i + 1][..i] == ps[..i];
  }

  /** `frozen`: merge both lists into a dictionary, emit its values in key order. */
  method FreezeHistory(h: History) returns (items: seq<Item>)
    ensures items == Frozen(h)
  {
    hide MergeFunding, MergeLongShort, Blank;
    NothingMerged();
    var merged: map<int, Item> := map[];
    for i := 0 to |h.funding|
      invariant merged == MergeFunding(h.funding[..i])
    {
      FundingStep(h.funding, i);
      var p := h.funding[i];
      merged := merged[p.ms := Blank(merged, p.ms).(rate := Some(p.value))];
    }
    assert h.funding[..|h.funding|] == h.funding;
    for i := 0 to |h.longShort|
      invariant merged == MergeLongShort(MergeFunding(h.funding), h.longShort[..i])
    {
      LongShortStep(MergeFunding(h.funding), h.longShort, i);
      var p := h.longShort[i];
      merged := merged[p.ms := Blank(merged, p.ms).(pct := Some(p.value))];
    }
    assert h.longShort[..|h.longShort|] == h.longShort;
    items := ValuesInKeyOrder(merged);
  }

  method ValuesInKeyOrder(merged: map<int, Item>) returns (items: seq<Item>)
    ensures
      var keys := AscendingKeys(merged.Keys);
      |items| == |keys| && forall i :: 0 <= i < |items| ==> items[i] == merged[keys[i]]
  {
    var keys := AscendingKeys(merged.Keys);
    items := [];
    for i := 0 to |keys|
      invariant |items| == i && forall j :: 0 <= j < i ==> items[j] == merged[keys[j]]
    {
      items := items + [merged[keys[i]]];
    }
  }

  // --- Thaw ---------------------------------------------------------------------

  predicate KeepsRate(it: Item) {
    it.ms.Some? && it.ms.value >= 0 && it.rate.Some? && RateOk(it.rate.value)
  }

  predicate KeepsPct(it: Item) {
    it.ms.Some? && it.ms.value >= 0 && it.pct.Some? && PctOk(it.pct.value)
  }

  function Rates(items: seq<Item>): (ps: seq<Point>)
    ensures forall p :: p in ps <==>
              exists i :: 0 <= i < |items| && KeepsRate(items[i]) && p == Point(items[i].ms.value, items[i].rate.value)
  {
    if items == [] then [] else
      var (front, it) := (Rates(items[..|items| - 1]), items[|items| - 1]);
      assert items == items[..|items| - 1] + [it];
      if KeepsRate(it) then front + [Point(it.ms.value, it.rate.value)] else front
  }

  function Pcts(items: seq<Item>): (ps: seq<Point>)
    ensures forall p :: p in ps <==>
              exists i :: 0 <= i < |items| && KeepsPct(items[i]) && p == Point(items[i].ms.value, items[i].pct.value)
  {
    if items == [] then [] else
      var (front, it) := (Pcts(items[..|items| - 1]), items[|items| - 1]);
      assert items == items[..|items| - 1] + [it];
      if KeepsPct(it) then front + [Point(it.ms.value, it.pct.value)] else front
  }

  function FromFrozen(items: seq<Item>): (h: History)
    ensures Valid(h)
  {
    History(Sort(Rates(items)), Sort(Pcts(items)))
  }

  /** `from_frozen`: keep the readable, plausible parts of every record, then sort. */
  method ThawHistory(items: seq<Item>) returns (h: History)
    ensures h == FromFrozen(items)
  {
    var funding, longShort: seq<Point> := [], [];
    for i := 0 to |items|
      invariant funding == Rates(items[..i]) && longShort == Pcts(items[..i])
    {
      assert items[..i + 1][..i] == items[..i];
      var it := items[i];
      if it.ms.None? || it.ms.value < 0 {
        continue;
      }
      if it.rate.Some? && Abs(it.rate.value) <= MAX_ABS_FUNDING {
        funding := funding + [Point(it.ms.value, it.rate.value)];
      }
      if it.pct.Some? && 0.0 < it.pct.value < 100.0 {
        longShort := longShort + [Point(it.ms.value, it.pct.value)];
      }
    }
    assert items[..|items|] == items;
    h := History(Sort(funding), Sort(longShort));
  }

  // --- Round trip ---------------------------------------------------------------

  /** The point that answers for its own instant: the greatest value at that time. */
  ghost predicate IsTop(ps: seq<Point>, p: Point) {
    p in ps && forall q :: q in ps && q.ms == p.ms ==> q.value <= p.value
  }

  /** After merging sorted points each key holds its top value. */
  lemma {:induction false} MergedFundingIsTop(ps: seq<Point>)
    requires Sorted(ps)
    ensures forall k :: k in MergeFunding(ps) ==>
              MergeFunding(ps)[k].ms == Some(k) && MergeFunding(ps)[k].pct.None? && MergeFunding(ps)[k].rate.Some?
              && IsTop(ps, Point(k, MergeFunding(ps)[k].rate.value))
    ensures forall p :: p in ps ==> p.ms in MergeFunding(ps)
  {
    if ps != [] {
      var (front, p) := (ps[..|ps| - 1], ps[|ps| - 1]);
      assert ps == front + [p];
      MergedFundingIsTop(front);
    }
  }

  lemma {:induction false} MergedLongShortIsTop(merged: map<int, Item>, ps: seq<Point>)
    requires Sorted(ps) && forall k :: k in merged ==> merged[k].ms == Some(k) && merged[k].pct.None?
    ensures
      var r := MergeLongShort(merged, ps);
      && (forall k :: k in r ==> r[k].ms == Some(k))
      && (forall k :: k in r && r[k].pct.Some? ==> IsTop(ps, Point(k, r[k].pct.value)))
      && (forall p :: p in ps ==> p.ms in r && r[p.ms].pct.Some?)
      && (forall k :: k in merged ==> k in r && r[k].rate == merged[k].rate)
      && (forall k :: k in r && k !in merged ==> r[k].rate.None?)
  {
    if ps != [] {
      var (front, p) := (ps[..|ps| - 1], ps[|ps| - 1]);
      assert ps == front + [p];
      MergedLongShortIsTop(merged, front);
    }
  }

  lemma TopIsUnique(ps: seq<Point>, p: Point, q: Point)
    requires IsTop(ps, p) && IsTop(ps, q) && p.ms == q.ms
    ensures p == q
  {
  }

  /** `items` lists the values of `merged`, each of them. */
  ghost predicate Lists(items: seq<Item>, merged: map<int, Item>) {
    && (forall i :: 0 <= i < |items| ==> items[i] in merged.Values)
    && (forall k :: k in merged ==> merged[k] in items)
  }

  lemma FrozenListsMerged(h: History)
    ensures Lists(Frozen(h), Merged(h))
  {
    var (merged, keys) := (Merged(h), AscendingKeys(Merged(h).Keys));
    forall i | 0 <= i < |keys| ensures Frozen(h)[i] in merged.Values {
      assert keys[i] in keys;
      assert Frozen(h)[i] == merged[keys[i]];
    }
    forall k | k in merged ensures merged[k] in Frozen(h) {
      assert k in keys;
      var i :| 0 <= i < |keys| && keys[i] == k;
      assert Frozen(h)[i] == merged[k];
    }
  }

  predicate FundingPointOk(p: Point) { p.ms >= 0 && RateOk(p.value) }
  predicate LongPointOk(p: Point) { p.ms >= 0 && PctOk(p.value) }

  /** What the merged dictionary says of each list. */
  lemma MergedHoldsTheTops(h: History)
    requires Valid(h)
    ensures forall k :: k in Merged(h) ==> Merged(h)[k].ms == Some(k)
    ensures forall k :: k in Merged(h) && Merged(h)[k].rate.Some? ==>
        IsTop(h.funding, Point(k, Merged(h)[k].rate.value))
    ensures forall k :: k in Merged(h) && Merged(h)[k].pct.Some? ==>
        IsTop(h.longShort, Point(k, Merged(h)[k].pct.value))
    ensures forall p :: p in h.funding ==> p.ms in Merged(h) && Merged(h)[p.ms].rate.Some?
    ensures forall p :: p in h.longShort ==> p.ms in Merged(h) && Merged(h)[p.ms].pct.Some?
  {
    MergedFundingIsTop(h.funding);
    MergedLongShortIsTop(MergeFunding(h.funding), h.longShort);
    hide MergeFunding, MergeLongShort, IsTop;
  }

  lemma ThawedRates(items: seq<Item>, merged: map<int, Item>, ps: seq<Point>, p: Point)
    requires Lists(items, merged) && forall k :: k in merged ==> merged[k].ms == Some(k)
    requires forall k :: k in merged && merged[k].rate.Some? ==> IsTop(ps, Point(k, merged[k].rate.value))
    requires forall q :: q in ps ==> q.ms in merged && merged[q.ms].rate.Some?
    ensures p in Rates(items) <==> IsTop(ps, p) && FundingPointOk(p)
  {
    hide Rates, RateOk;
    if p in Rates(items) {
      var i :| 0 <= i < |items| && KeepsRate(items[i]) && p == Point(items[i].ms.value, items[i].rate.value);
      var k :| k in merged && items[i] == merged[k];
      assert p == Point(k, merged[k].rate.value);
    } else if IsTop(ps, p) {
      var it := merged[p.ms];
      TopIsUnique(ps, p, Point(p.ms, it.rate.value));
      var i :| 0 <= i < |items| && items[i] == it;
      assert !KeepsRate(items[i]);
    }
  }

  lemma ThawedPcts(items: seq<Item>, merged: map<int, Item>, ps: seq<Point>, p: Point)
    requires Lists(items, merged) && forall k :: k in merged ==> merged[k].ms == Some(k)
    requires forall k :: k in merged && merged[k].pct.Some? ==> IsTop(ps, Point(k, merged[k].pct.value))
    requires forall q :: q in ps ==> q.ms in merged && merged[q.ms].pct.Some?
    ensures p in Pcts(items) <==> IsTop(ps, p) && LongPointOk(p)
  {
    hide Pcts, PctOk;
    if p in Pcts(items) {
      var i :| 0 <= i < |items| && KeepsPct(items[i]) && p == Point(items[i].ms.value, items[i].pct.value);
      var k :| k in merged && items[i] == merged[k];
      assert p == Point(k, merged[k].pct.value);
    } else if IsTop(ps, p) {
      var it := merged[p.ms];
      TopIsUnique(ps, p, Point(p.ms, it.pct.value));
      var i :| 0 <= i < |items| && items[i] == it;
      assert !KeepsPct(items[i]);
    }
  }

  /** What survives a freeze and a thaw: the admissible top points, nothing else. */
  lemma ThawedPoints(h: History)
    requires Valid(h)
    ensures
      var t := FromFrozen(Frozen(h));
      && (forall p :: p in t.funding <==> IsTop(h.funding, p) && FundingPointOk(p))
      && (forall p :: p in t.longShort <==> IsTop(h.longShort, p) && LongPointOk(p))
  {
    var (items, merged) := (Frozen(h), Merged(h));
    MergedHoldsTheTops(h);
    FrozenListsMerged(h);
    hide Frozen, Merged, Rates, Pcts, Sort, Lists, IsTop, FundingPointOk, LongPointOk;
    forall p ensures p in Rates(items) <==> IsTop(h.funding, p) && FundingPointOk(p) {
      ThawedRates(items, merged, h.funding, p);
    }
    forall p ensures p in Pcts(items) <==> IsTop(h.longShort, p) && LongPointOk(p) {
      ThawedPcts(items, merged, h.longShort, p);
    }
  }

  /** Two sorted lists answer alike everywhere if one holds exactly the top points of
      the other. */
  lemma TopsAnswerAlike(ps: seq<Point>, tops: seq<Point>, ms: int)
    requires Sorted(ps) && Sorted(tops) && forall p :: p in tops <==> IsTop(ps, p)
    ensures Latest(tops, ms) == Latest(ps, ms)
  {
    LatestIsTheGreatest(ps, ms);
    LatestIsTheGreatest(tops, ms);
    hide Latest, Sorted;
    if Latest(ps, ms).Some? {
      var p :| IsLatest(ps, ms, p);
      GreatestIsTop(ps, tops, ms, p);
    }
  }

  /** The greatest point at or before an instant is the top one of its own time. */
  lemma GreatestIsTop(ps: seq<Point>, tops: seq<Point>, ms: int, p: Point)
    requires IsLatest(ps, ms, p) && forall q :: q in tops <==> IsTop(ps, q)
    ensures IsLatest(tops, ms, p)
  {
    assert IsTop(ps, p);
    assert forall q :: q in tops ==> q in ps;
  }

  /** Every answer of the history comes from admissible points. */
  ghost predicate Admissible(h: History) {
    && (forall p :: IsTop(h.funding, p) ==> FundingPointOk(p))
    && (forall p :: IsTop(h.longShort, p) ==> LongPointOk(p))
  }

  ghost predicate AnswersAlike(a: History, b: History) {
    forall ms :: FundingAt(a, ms) == FundingAt(b, ms) && LongPctAt(a, ms) == LongPctAt(b, ms)
  }

  /** ROUND TRIP, exactly when: freezing and thawing a history keeps its answer at every
      instant if and only if, at every instant that has points, the greatest one is
      admissible -- however many points share a timestamp. */
  lemma RoundTripExactlyWhen(h: History)
    requires Valid(h)
    ensures AnswersAlike(FromFrozen(Frozen(h)), h) <==> Admissible(h)
  {
    hide Frozen, FromFrozen, Latest;
    var t := FromFrozen(Frozen(h));
    ThawedPoints(h);
    if Admissible(h) {
      forall ms ensures FundingAt(t, ms) == FundingAt(h, ms) && LongPctAt(t, ms) == LongPctAt(h, ms) {
        TopsAnswerAlike(h.funding, t.funding, ms);
        TopsAnswerAlike(h.longShort, t.longShort, ms);
      }
    }
    if AnswersAlike(t, h) {
      forall p | IsTop(h.funding, p) ensures FundingPointOk(p) {
        assert FundingAt(t, p.ms) == FundingAt(h, p.ms);
        AnsweredTopSurvives(h.funding, t.funding, p);
      }
      forall p | IsTop(h.longShort, p) ensures LongPointOk(p) {
        assert LongPctAt(t, p.ms) == LongPctAt(h, p.ms);
        AnsweredTopSurvives(h.longShort, t.longShort, p);
      }
    }
  }

  /** If a list answers a top point's value at that point's time, then it holds a point
      not later than it with that very value. */
  lemma AnsweredTopSurvives(ps: seq<Point>, kept: seq<Point>, p: Point)
    requires Sorted(ps) && Sorted(kept) && IsTop(ps, p) && Latest(kept, p.ms) == Latest(ps, p.ms)
    ensures exists q :: q in kept && q.ms <= p.ms && q.value == p.value
  {
    LatestIsTheGreatest(ps, p.ms);
    LatestIsTheGreatest(kept, p.ms);
    assert IsLatest(ps, p.ms, p);
    var q :| IsLatest(kept, p.ms, q);
    assert q.value == p.value;
  }

  /** ROUND TRIP for every history of non-negative times, funding rates within the cap
      and long shares strictly between 0 and 100. */
  lemma RoundTrip(h: History, ms: int)
    requires Valid(h)
    requires forall i :: 0 <= i < |h.funding| ==> FundingPointOk(h.funding[i])
    requires forall i :: 0 <= i < |h.longShort| ==> LongPointOk(h.longShort[i])
    ensures FundingAt(FromFrozen(Frozen(h)), ms) == FundingAt(h, ms)
    ensures LongPctAt(FromFrozen(Frozen(h)), ms) == LongPctAt(h, ms)
  {
    hide Frozen, FromFrozen, Latest;
    RoundTripExactlyWhen(h);
  }

  /** Whatever was in the artifact, a thawed history survives being frozen again. */
  lemma ThawedHistoryIsStable(items: seq<Item>)
    ensures AnswersAlike(FromFrozen(Frozen(FromFrozen(items))), FromFrozen(items))
  {
    hide Frozen, Latest;
    RoundTripExactlyWhen(FromFrozen(items));
  }

  // --- What the artifact holds ----------------------------------------------------------

  /** FREEZING writes each timestamp once, ascending, with the greatest value of each kind. */
  lemma FrozenReads(h: History)
    requires Valid(h)
    ensures
      var items := Frozen(h);
      && (forall i :: 0 <= i < |items| ==> items[i].ms.Some?)
      && (forall i, j :: 0 <= i < j < |items| ==> items[i].ms.value < items[j].ms.value)
      && (forall ms :: Stamped(items, ms) <==> exists p :: (p in h.funding || p in h.longShort) && p.ms == ms)
      && (forall i :: 0 <= i < |items| ==>
            && (items[i].rate.Some? ==> IsTop(h.funding, Point(items[i].ms.value, items[i].rate.value)))
            && (items[i].pct.Some? ==> IsTop(h.longShort, Point(items[i].ms.value, items[i].pct.value))))
  {
    hide Merged, IsTop, Stamped;
    var (merged, keys, items) := (Merged(h), AscendingKeys(Merged(h).Keys), Frozen(h));
    MergedHoldsTheTops(h);
    MergedKeys(h);
    forall i | 0 <= i < |items| ensures items[i] == merged[keys[i]] && items[i].ms == Some(keys[i]) {
      assert keys[i] in keys;
    }
    forall ms ensures Stamped(items, ms) <==> ms in merged {
      StampedExactlyByKeys(items, keys, ms);
    }
  }

  ghost predicate Stamped(items: seq<Item>, ms: int) {
    exists i :: 0 <= i < |items| && items[i].ms == Some(ms)
  }

  lemma StampedExactlyByKeys(items: seq<Item>, keys: seq<int>, ms: int)
    requires |items| == |keys| && forall i :: 0 <= i < |items| ==> items[i].ms == Some(keys[i])
    ensures Stamped(items, ms) <==> ms in keys
  {
    if ms in keys {
      var i :| 0 <= i < |keys| && keys[i] == ms;
      assert items[i].ms == Some(ms);
    }
  }

  lemma MergedKeys(h: History)
    requires Valid(h)
    ensures forall k :: k in Merged(h) ==> Merged(h)[k].ms == Some(k)
    ensures forall k :: k in Merged(h) <==> exists p :: (p in h.funding || p in h.longShort) && p.ms == k
  {
    MergedFundingIsTop(h.funding);
    MergedLongShortIsTop(MergeFunding(h.funding), h.longShort);
    FundingKeys(h.funding);
    LongShortKeys(MergeFunding(h.funding), h.longShort);
  }

  lemma {:induction false} FundingKeys(ps: seq<Point>)
    ensures forall k :: k in MergeFunding(ps) ==> exists p :: p in ps && p.ms == k
  {
    if ps != [] {
      FundingKeys(ps[..|ps| - 1]);
      assert ps[|ps| - 1] in ps;
    }
  }

  lemma {:induction false} LongShortKeys(merged: map<int, Item>, ps: seq<Point>)
    ensures forall k :: k in MergeLongShort(merged, ps) ==> k in merged || exists p :: p in ps && p.ms == k
  {
    if ps != [] {
      LongShortKeys(merged, ps[..|ps| - 1]);
      assert ps[|ps| - 1] in ps;
    }
  }

  /** THAWING keeps exactly the readable rates of at most 5% and shares strictly between 0
      and 100%, at a readable, non-negative time. */
  lemma ThawKeepsExactly(items: seq<Item>, p: Point)
    ensures p in FromFrozen(items).funding
       <==> exists i :: 0 <= i < |items| && items[i].ms == Some(p.ms) && items[i].rate == Some(p.value)
                        && p.ms >= 0 && -0.05 <= p.value <= 0.05
    ensures p in FromFrozen(items).longShort
       <==> exists i :: 0 <= i < |items| && items[i].ms == Some(p.ms) && items[i].pct == Some(p.value)
                        && p.ms >= 0 && 0.0 < p.value < 100.0
  {
    hide Sort;
  }
}
