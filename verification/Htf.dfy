/** The 4H bias (binance/htf.py): rolling 1H candles up into aligned 4H candles, swing
    structure, and the regime read from the EMA stack. */
module Htf {
  import opened Common
  import opened Keys

  const H4_MS := 14400000

  function Bucket(c: Candle): int {
    c.timestamp / H4_MS
  }

  // --- Rollup -------------------------------------------------------------------

  /** The candles of one bucket, in input order. */
  function GroupOf(cs: seq<Candle>, key: int): seq<Candle> {
    if cs == [] then [] else
      var last := cs[|cs| - 1];
      GroupOf(cs[..|cs| - 1], key) + if Bucket(last) == key then [last] else []
  }

  lemma {:induction false} GroupMembers(cs: seq<Candle>, key: int)
    ensures forall i :: 0 <= i < |GroupOf(cs, key)| ==> GroupOf(cs, key)[i] in cs && Bucket(GroupOf(cs, key)[i]) == key
  {
    if cs != [] {
      GroupMembers(cs[..|cs| - 1], key);
    }
  }

  predicate TimeSorted(cs: seq<Candle>) {
    forall i, j :: 0 <= i < j < |cs| ==> cs[i].timestamp <= cs[j].timestamp
  }

  /** Stable insertion by open time. */
  function InsertByTime(cs: seq<Candle>, c: Candle): (r: seq<Candle>)
    requires TimeSorted(cs)
    ensures TimeSorted(r) && multiset(r) == multiset(cs) + multiset{c}
  {
    if cs == [] then [c]
    else if cs[|cs| - 1].timestamp <= c.timestamp then cs + [c]
    else
      var (front, last) := (InsertByTime(cs[..|cs| - 1], c), cs[|cs| - 1]);
      InsertedIsEarlier(cs, c, front);
      front + [last]
  }

  lemma InsertedIsEarlier(cs: seq<Candle>, c: Candle, front: seq<Candle>)
    requires TimeSorted(cs) && cs != [] && cs[|cs| - 1].timestamp > c.timestamp
    requires TimeSorted(front) && multiset(front) == multiset(cs[..|cs| - 1]) + multiset{c}
    ensures TimeSorted(front + [cs[|cs| - 1]])
    ensures multiset(front + [cs[|cs| - 1]]) == multiset(cs) + multiset{c}
  {
    assert cs == cs[..|cs| - 1] + [cs[|cs| - 1]];
    forall i | 0 <= i < |front| ensures front[i].timestamp <= cs[|cs| - 1].timestamp {
      assert front[i] in multiset(front);
      if front[i] != c {
        assert front[i] in cs[..|cs| - 1];
      }
    }
  }

  function SortByTime(cs: seq<Candle>): (r: seq<Candle>)
    ensures TimeSorted(r) && multiset(r) == multiset(cs) && |r| == |cs|
  {
    if cs == [] then [] else
      assert cs == cs[..|cs| - 1] + [cs[|cs| - 1]];
      var r := InsertByTime(SortByTime(cs[..|cs| - 1]), cs[|cs| - 1]);
      assert |r| == |multiset(r)|;
      r
  }

  predicate AllClosed(cs: seq<Candle>) {
    forall i :: 0 <= i < |cs| ==> cs[i].isClosed
  }

  function Highest(cs: seq<Candle>): (h: real)
    requires cs != []
    ensures (forall i :: 0 <= i < |cs| ==> cs[i].high <= h) && exists i :: 0 <= i < |cs| && cs[i].high == h
  {
    if |cs| == 1 then cs[0].high else Max(Highest(cs[..|cs| - 1]), cs[|cs| - 1].high)
  }

  function Lowest(cs: seq<Candle>): (l: real)
    requires cs != []
    ensures (forall i :: 0 <= i < |cs| ==> cs[i].low >= l) && exists i :: 0 <= i < |cs| && cs[i].low == l
  {
    if |cs| == 1 then cs[0].low else Min(Lowest(cs[..|cs| - 1]), cs[|cs| - 1].low)
  }

  function Volume(cs: seq<Candle>): real {
    if cs == [] then 0.0 else Volume(cs[..|cs| - 1]) + cs[|cs| - 1].volume
  }

  function Fold(ordered: seq<Candle>): Candle
    requires ordered != []
  {
    var (first, last) := (ordered[0], ordered[|ordered| - 1]);
    Candle(first.timestamp, first.open, Highest(ordered), Lowest(ordered),
           last.close, Volume(ordered), last.closeTime, true)
  }

  /** One 4H candle, or none when the group is not exactly four closed candles. */
  function RollGroup(group: seq<Candle>): (r: seq<Candle>)
    ensures |r| <= 1
  {
    if |group| != 4 || !AllClosed(group) then [] else [Fold(SortByTime(group))]
  }

  function BucketKeys(cs: seq<Candle>): set<int> {
    set c | c in cs :: Bucket(c)
  }

  function RollKeys(keys: seq<int>, cs: seq<Candle>): seq<Candle> {
    if keys == [] then [] else RollKeys(keys[..|keys| - 1], cs) + RollGroup(GroupOf(cs, keys[|keys| - 1]))
  }

  function Rollup(cs: seq<Candle>): seq<Candle> {
    RollKeys(AscendingKeys(BucketKeys(cs)), cs)
  }

  /** The dictionary of buckets, each holding its candles in input order. */
  method GatherBuckets(cs: seq<Candle>) returns (buckets: map<int, seq<Candle>>)
    ensures buckets.Keys == BucketKeys(cs)
    ensures forall k :: k in buckets ==> buckets[k] == GroupOf(cs, k)
  {
    buckets := map[];
    for i := 0 to |cs|
      invariant buckets.Keys == BucketKeys(cs[..i])
      invariant forall k :: k in buckets ==> buckets[k] == GroupOf(cs[..i], k)
    {
      assert cs[..i + 1] == cs[..i] + [cs[i]] && cs[..i + 1][..i] == cs[..i];
      var key := Bucket(cs[i]);
      GroupHasKey(cs[..i], key);
      buckets := buckets[key := (if key in buckets then buckets[key] else []) + [cs[i]]];
    }
    assert cs[..|cs|] == cs;
  }

  /** `rollup_1h_to_4h`: gather buckets in a dictionary, then walk its sorted keys. */
  method RollUp(cs: seq<Candle>) returns (out: seq<Candle>)
    ensures out == Rollup(cs)
  {
    hide GroupOf, BucketKeys, RollGroup;
    var buckets := GatherBuckets(cs);
    out := [];
    var keys := AscendingKeys(buckets.Keys);
    for i := 0 to |keys|
      invariant out == RollKeys(keys[..i], cs)
    {
      assert keys[..i + 1][..i] == keys[..i];
      assert keys[i] in keys;
      var rolled := RollOne(buckets[keys[i]]);
      out := out + rolled;
    }
    assert keys[..|keys|] == keys;
  }

  method RollOne(group: seq<Candle>) returns (rolled: seq<Candle>)
    ensures rolled == RollGroup(group)
  {
    if |group| != 4 || !AllClosed(group) {
      return [];
    }
    var candle := FoldGroup(SortByTime(group));
    return [candle];
  }

  lemma GroupHasKey(cs: seq<Candle>, key: int)
    ensures GroupOf(cs, key) != [] ==> key in BucketKeys(cs)
  {
    GroupMembers(cs, key);
    if GroupOf(cs, key) != [] {
      assert GroupOf(cs, key)[0] in cs;
    }
  }

  lemma FoldStart(ordered: seq<Candle>)
    requires ordered != []
    ensures Highest(ordered[..1]) == ordered[0].high && Lowest(ordered[..1]) == ordered[0].low
    ensures Volume(ordered[..1]) == ordered[0].volume
  {
    assert ordered[..1][..0] == [];
  }

  lemma FoldStep(ordered: seq<Candle>, i: nat)
    requires 1 <= i < |ordered|
    ensures Highest(ordered[..i + 1]) == Max(Highest(ordered[..i]), ordered[i].high)
    ensures Lowest(ordered[..i + 1]) == Min(Lowest(ordered[..i]), ordered[i].low)
    ensures Volume(ordered[..i + 1]) == Volume(ordered[..i]) + ordered[i].volume
  {
    assert ordered[..i + 1][..i] == ordered[..i];
  }

  method FoldGroup(ordered: seq<Candle>) returns (candle: Candle)
    requires ordered != []
    ensures candle == Fold(ordered)
  {
    hide Highest, Lowest, Volume;
    var high, low, volume := ordered[0].high, ordered[0].low, ordered[0].volume;
    var i := 1;
    FoldStart(ordered);
    while i < |ordered|
      invariant 1 <= i <= |ordered|
      invariant high == Highest(ordered[..i]) && low == Lowest(ordered[..i]) && volume == Volume(ordered[..i])
    {
      FoldStep(ordered, i);
      high, low, volume := Max(high, ordered[i].high), Min(low, ordered[i].low), volume + ordered[i].volume;
      i := i + 1;
    }
    assert ordered[..|ordered|] == ordered;
    var last := ordered[|ordered| - 1];
    candle := Candle(ordered[0].timestamp, ordered[0].open, high, low, last.close, volume, last.closeTime, true);
  }

  // --- Order insensitivity --------------------------------------------------------

  predicate DistinctTimes(cs: seq<Candle>) {
    forall i, j :: 0 <= i < j < |cs| ==> cs[i].timestamp != cs[j].timestamp
  }

  lemma {:induction false} GroupMultiset(cs: seq<Candle>, key: int, c: Candle)
    ensures multiset(GroupOf(cs, key))[c] == if Bucket(c) == key then multiset(cs)[c] else 0
  {
    if cs != [] {
      GroupMultiset(cs[..|cs| - 1], key, c);
      assert cs == cs[..|cs| - 1] + [cs[|cs| - 1]];
    }
  }

  lemma GroupsArePermuted(a: seq<Candle>, b: seq<Candle>, key: int)
    requires multiset(a) == multiset(b)
    ensures multiset(GroupOf(a, key)) == multiset(GroupOf(b, key)) && |GroupOf(a, key)| == |GroupOf(b, key)|
  {
    forall c ensures multiset(GroupOf(a, key))[c] == multiset(GroupOf(b, key))[c] {
      GroupMultiset(a, key, c);
      GroupMultiset(b, key, c);
    }
    assert |GroupOf(a, key)| == |multiset(GroupOf(a, key))|;
    assert |GroupOf(b, key)| == |multiset(GroupOf(b, key))|;
  }

  lemma {:induction false} GroupKeepsDistinct(cs: seq<Candle>, key: int)
    requires DistinctTimes(cs)
    ensures DistinctTimes(GroupOf(cs, key))
  {
    if cs != [] {
      var (front, last) := (cs[..|cs| - 1], cs[|cs| - 1]);
      GroupKeepsDistinct(front, key);
      GroupMembers(front, key);
      var g := GroupOf(front, key);
      forall i | 0 <= i < |g| ensures g[i].timestamp != last.timestamp {
        var k :| 0 <= k < |front| && front[k] == g[i];
        assert cs[k] == g[i];
      }
    }
  }

  lemma DistinctOccursOnce(cs: seq<Candle>, k: nat)
    requires DistinctTimes(cs) && k < |cs|
    ensures multiset(cs)[cs[k]] == 1
  {
    assert cs == cs[..k] + [cs[k]] + cs[k + 1..];
    assert cs[k] !in cs[..k] && cs[k] !in cs[k + 1..];
  }

  lemma RepeatedOccursTwice(cs: seq<Candle>, i: nat, j: nat)
    requires i < j < |cs|
    ensures cs[i] == cs[j] ==> multiset(cs)[cs[i]] >= 2
  {
    assert cs == cs[..j] + [cs[j]] + cs[j + 1..];
    assert cs[i] == cs[..j][i];
    assert cs[i] in multiset(cs[..j]);
  }

  /** Distinct times survive reordering. */
  lemma PermutationKeepsDistinct(a: seq<Candle>, b: seq<Candle>)
    requires multiset(a) == multiset(b) && DistinctTimes(a)
    ensures DistinctTimes(b)
  {
    forall i, j | 0 <= i < j < |b| ensures b[i].timestamp != b[j].timestamp {
      assert b[i] in multiset(a) && b[j] in multiset(a);
      var k :| 0 <= k < |a| && a[k] == b[i];
      var m :| 0 <= m < |a| && a[m] == b[j];
      DistinctOccursOnce(a, k);
      RepeatedOccursTwice(b, i, j);
    }
  }

  lemma NothingIsLater(cs: seq<Candle>, c: Candle)
    requires TimeSorted(cs) && c in multiset(cs)
    ensures cs != [] && c.timestamp <= cs[|cs| - 1].timestamp
  {
    var i :| 0 <= i < |cs| && cs[i] == c;
  }

  lemma SameLast(a: seq<Candle>, b: seq<Candle>)
    requires a != [] && b != [] && TimeSorted(a) && TimeSorted(b) && DistinctTimes(a) && multiset(a) == multiset(b)
    ensures a[|a| - 1] == b[|b| - 1]
  {
    var (x, y) := (a[|a| - 1], b[|b| - 1]);
    assert x in multiset(b) && y in multiset(a);
    NothingIsLater(b, x);
    NothingIsLater(a, y);
    var j :| 0 <= j < |a| && a[j] == y;
  }

  /** A set of candles with distinct times has one ascending order. */
  lemma {:induction false} TimeOrderIsUnique(a: seq<Candle>, b: seq<Candle>)
    requires TimeSorted(a) && TimeSorted(b) && DistinctTimes(a) && multiset(a) == multiset(b)
    ensures a == b
  {
    assert |a| == |multiset(a)| && |b| == |multiset(b)|;
    if a != [] {
      SameLast(a, b);
      FrontsArePermuted(a, b);
      FrontIsInOrder(a);
      FrontIsInOrder(b);
      hide *;
      var (front, back) := (a[..|a| - 1], b[..|b| - 1]);
      TimeOrderIsUnique(front, back);
      assert a == front + [a[|a| - 1]] && b == back + [b[|b| - 1]];
    }
  }

  lemma FrontIsInOrder(a: seq<Candle>)
    requires a != [] && TimeSorted(a)
    ensures TimeSorted(a[..|a| - 1])
    ensures DistinctTimes(a) ==> DistinctTimes(a[..|a| - 1])
  {
  }

  lemma FrontsArePermuted(a: seq<Candle>, b: seq<Candle>)
    requires a != [] && b != [] && multiset(a) == multiset(b) && a[|a| - 1] == b[|b| - 1]
    ensures multiset(a[..|a| - 1]) == multiset(b[..|b| - 1])
  {
    FrontTakesOneAway(a);
    FrontTakesOneAway(b);
  }

  lemma FrontTakesOneAway(a: seq<Candle>)
    requires a != []
    ensures multiset(a[..|a| - 1]) == multiset(a) - multiset{a[|a| - 1]}
  {
    var (front, last) := (a[..|a| - 1], a[|a| - 1]);
    assert a == front + [last];
    assert multiset(front + [last]) == multiset(front) + multiset{last};
  }

  lemma RollGroupIgnoresOrder(a: seq<Candle>, b: seq<Candle>)
    requires multiset(a) == multiset(b) && |a| == |b| && DistinctTimes(a)
    ensures RollGroup(a) == RollGroup(b)
  {
    hide Fold;
    assert AllClosed(a) <==> AllClosed(b) by {
      assert forall i :: 0 <= i < |a| ==> a[i] in multiset(b);
      assert forall i :: 0 <= i < |b| ==> b[i] in multiset(a);
    }
    PermutationKeepsDistinct(a, SortByTime(a));
    PermutationKeepsDistinct(a, SortByTime(b));
    TimeOrderIsUnique(SortByTime(a), SortByTime(b));
  }

  lemma {:induction false} RollKeysIgnoresOrder(keys: seq<int>, a: seq<Candle>, b: seq<Candle>)
    requires multiset(a) == multiset(b) && DistinctTimes(a)
    ensures RollKeys(keys, a) == RollKeys(keys, b)
  {
    hide RollGroup;
    if keys != [] {
      var key := keys[|keys| - 1];
      RollKeysIgnoresOrder(keys[..|keys| - 1], a, b);
      GroupsArePermuted(a, b, key);
      GroupKeepsDistinct(a, key);
      RollGroupIgnoresOrder(GroupOf(a, key), GroupOf(b, key));
    }
  }

  /** ORDER-INSENSITIVE: every permutation of 1H candles with distinct times rolls up to
      the same list. */
  lemma RollupIgnoresOrder(a: seq<Candle>, b: seq<Candle>)
    requires multiset(a) == multiset(b) && DistinctTimes(a)
    ensures Rollup(a) == Rollup(b)
  {
    assert BucketKeys(a) == BucketKeys(b) by {
      assert forall c :: c in a <==> c in multiset(a);
      assert forall c :: c in b <==> c in multiset(b);
    }
    RollKeysIgnoresOrder(AscendingKeys(BucketKeys(a)), a, b);
  }

  // --- Time order of the output ----------------------------------------------------

  lemma FoldStaysInBucket(group: seq<Candle>, key: int)
    requires |group| == 4 && forall i :: 0 <= i < |group| ==> Bucket(group[i]) == key
    ensures Bucket(Fold(SortByTime(group))) == key
  {
    var ordered := SortByTime(group);
    assert ordered[0] in multiset(group);
  }

  lemma RolledGroupStaysInBucket(cs: seq<Candle>, key: int)
    ensures forall i :: 0 <= i < |RollGroup(GroupOf(cs, key))| ==> Bucket(RollGroup(GroupOf(cs, key))[i]) == key
  {
    hide Fold;
    var group := GroupOf(cs, key);
    GroupMembers(cs, key);
    if |group| == 4 && AllClosed(group) {
      FoldStaysInBucket(group, key);
    }
  }

  ghost predicate BucketsAscend(out: seq<Candle>) {
    forall i, j :: 0 <= i < j < |out| ==> Bucket(out[i]) < Bucket(out[j])
  }

  lemma {:induction false} RolledBuckets(keys: seq<int>, cs: seq<Candle>)
    requires StrictlyAscending(keys)
    ensures forall i :: 0 <= i < |RollKeys(keys, cs)| ==> Bucket(RollKeys(keys, cs)[i]) in keys
    ensures BucketsAscend(RollKeys(keys, cs))
  {
    hide RollGroup, GroupOf, Bucket;
    if keys != [] {
      var (front, key) := (keys[..|keys| - 1], keys[|keys| - 1]);
      RolledBuckets(front, cs);
      RolledGroupStaysInBucket(cs, key);
      var (before, added) := (RollKeys(front, cs), RollGroup(GroupOf(cs, key)));
      forall i | 0 <= i < |before| ensures Bucket(before[i]) in keys && Bucket(before[i]) < key {
        var k :| 0 <= k < |front| && front[k] == Bucket(before[i]);
        assert keys[k] == front[k];
      }
      assert keys[|keys| - 1] in keys;
    }
  }

  /** A rolled candle spans its group: earliest time and first open, last close, and the
      tightest high and low over all four. */
  lemma RolledCandleSpansItsGroup(group: seq<Candle>)
    requires RollGroup(group) != []
    ensures
      var o := RollGroup(group)[0];
      && |group| == 4 && AllClosed(group) && o.isClosed
      && (forall c :: c in group ==> o.timestamp <= c.timestamp && o.low <= c.low && c.high <= o.high)
      && (exists c :: c in group && c.timestamp == o.timestamp && c.open == o.open)
      && (exists c :: c in group && c.close == o.close && c.closeTime == o.closeTime
                      && forall d :: d in group ==> d.timestamp <= c.timestamp)
      && (exists c :: c in group && c.high == o.high) && (exists c :: c in group && c.low == o.low)
  {
    var ordered := SortByTime(group);
    forall c ensures c in group <==> c in ordered {
      assert c in multiset(group) <==> c in multiset(ordered);
    }
    hide SortByTime;
    forall c | c in ordered
      ensures ordered[0].timestamp <= c.timestamp <= ordered[3].timestamp
      ensures Lowest(ordered) <= c.low && c.high <= Highest(ordered)
    {
      var i :| 0 <= i < |ordered| && ordered[i] == c;
    }
    assert ordered[0] in ordered && ordered[3] in ordered;
    var h :| 0 <= h < |ordered| && ordered[h].high == Highest(ordered);
    var l :| 0 <= l < |ordered| && ordered[l].low == Lowest(ordered);
    assert ordered[h] in ordered && ordered[l] in ordered;
  }

  lemma {:induction false} InsertAddsVolume(cs: seq<Candle>, c: Candle)
    requires TimeSorted(cs)
    ensures Volume(InsertByTime(cs, c)) == Volume(cs) + c.volume
  {
    if cs == [] {
      assert [c][..0] == [];
    } else if cs[|cs| - 1].timestamp <= c.timestamp {
      assert (cs + [c])[..|cs|] == cs;
    } else {
      InsertAddsVolume(cs[..|cs| - 1], c);
      var front := InsertByTime(cs[..|cs| - 1], c);
      assert (front + [cs[|cs| - 1]])[..|front|] == front;
    }
  }

  lemma {:induction false} SortKeepsVolume(cs: seq<Candle>)
    ensures Volume(SortByTime(cs)) == Volume(cs)
  {
    hide InsertByTime;
    if cs != [] {
      SortKeepsVolume(cs[..|cs| - 1]);
      InsertAddsVolume(SortByTime(cs[..|cs| - 1]), cs[|cs| - 1]);
    }
  }

  /** The rolled volume is that of the four candles together. */
  lemma RolledVolumeIsTheSum(group: seq<Candle>)
    requires RollGroup(group) != []
    ensures |group| == 4
    ensures RollGroup(group)[0].volume == group[0].volume + group[1].volume + group[2].volume + group[3].volume
  {
    hide SortByTime, Highest, Lowest;
    SortKeepsVolume(group);
    assert group[..3][..2] == group[..2] && group[..2][..1] == group[..1] && group[..1][..0] == [];
    assert Volume(group[..1]) == group[0].volume;
    assert Volume(group[..2]) == Volume(group[..1]) + group[1].volume;
    assert Volume(group[..3]) == Volume(group[..2]) + group[2].volume;
  }

  lemma {:induction false} RolledExactlyOnce(keys: seq<int>, cs: seq<Candle>, key: int)
    requires StrictlyAscending(keys)
    ensures (exists o :: o in RollKeys(keys, cs) && Bucket(o) == key)
       <==> key in keys && RollGroup(GroupOf(cs, key)) != []
    ensures forall o :: o in RollKeys(keys, cs) && Bucket(o) == key ==> [o] == RollGroup(GroupOf(cs, key))
  {
    hide RollGroup, GroupOf, Bucket;
    if keys != [] {
      var front, last := keys[..|keys| - 1], keys[|keys| - 1];
      RolledExactlyOnce(front, cs, key);
      RolledGroupStaysInBucket(cs, last);
      var before, added := RollKeys(front, cs), RollGroup(GroupOf(cs, last));
      assert key in keys <==> key in front || key == last;
      if key == last && added != [] {
        assert added[0] in RollKeys(keys, cs) && Bucket(added[0]) == key;
      }
      forall o | o in RollKeys(keys, cs) && Bucket(o) == key ensures [o] == RollGroup(GroupOf(cs, key)) {
        assert o in before || o in added;
      }
    }
  }

  /** ROLLUP, exactly: a 4-hour bucket yields a candle if and only if it holds exactly four
      candles and all of them are closed; then it is the one rolled from them. */
  lemma RolledExactlyWhen(cs: seq<Candle>, key: int)
    ensures (exists o :: o in Rollup(cs) && o.timestamp / 14400000 == key)
       <==> |GroupOf(cs, key)| == 4 && forall c :: c in GroupOf(cs, key) ==> c.isClosed
    ensures forall o :: o in Rollup(cs) && o.timestamp / 14400000 == key ==> [o] == RollGroup(GroupOf(cs, key))
    ensures forall c :: multiset(GroupOf(cs, key))[c] == if c.timestamp / 14400000 == key then multiset(cs)[c] else 0
  {
    hide RollKeys, GroupOf;
    RolledExactlyOnce(AscendingKeys(BucketKeys(cs)), cs, key);
    GroupHasKey(cs, key);
    forall c ensures multiset(GroupOf(cs, key))[c] == if c.timestamp / 14400000 == key then multiset(cs)[c] else 0 {
      GroupMultiset(cs, key, c);
    }
    assert forall o: Candle :: Bucket(o) == o.timestamp / 14400000;
  }

  /** Strictly ascending 4H candles, at most one per UTC-aligned bucket. */
  lemma RollupAscends(cs: seq<Candle>)
    ensures Ascending(Rollup(cs)) && BucketsAscend(Rollup(cs))
  {
    hide RollKeys;
    RolledBuckets(AscendingKeys(BucketKeys(cs)), cs);
    var out := Rollup(cs);
    forall i, j | 0 <= i < j < |out| ensures out[i].timestamp < out[j].timestamp {
      LaterBucketIsLater(out[i], out[j]);
    }
  }

  lemma LaterBucketIsLater(c: Candle, d: Candle)
    requires Bucket(c) < Bucket(d)
    ensures c.timestamp < d.timestamp
  {
  }

  // --- Later candles only append ----------------------------------------------------

  predicate Earlier(a: seq<Candle>, b: seq<Candle>) {
    forall i, j :: 0 <= i < |a| && 0 <= j < |b| ==> Bucket(a[i]) < Bucket(b[j])
  }

  lemma {:induction false} GroupOfConcat(a: seq<Candle>, b: seq<Candle>, key: int)
    ensures GroupOf(a + b, key) == GroupOf(a, key) + GroupOf(b, key)
  {
    if b == [] {
      assert a + b == a;
    } else {
      GroupOfConcat(a, b[..|b| - 1], key);
      assert (a + b)[..|a + b| - 1] == a + b[..|b| - 1];
    }
  }

  lemma {:induction false} RollKeysConcat(p: seq<int>, q: seq<int>, cs: seq<Candle>)
    ensures RollKeys(p + q, cs) == RollKeys(p, cs) + RollKeys(q, cs)
  {
    hide RollGroup;
    if q == [] {
      assert p + q == p;
    } else {
      RollKeysConcat(p, q[..|q| - 1], cs);
      assert (p + q)[..|p + q| - 1] == p + q[..|q| - 1];
    }
  }

  /** Two inputs that agree on every listed bucket roll those buckets up alike. */
  lemma {:induction false} RollKeysAgree(keys: seq<int>, a: seq<Candle>, b: seq<Candle>)
    requires forall k :: k in keys ==> GroupOf(a, k) == GroupOf(b, k)
    ensures RollKeys(keys, a) == RollKeys(keys, b)
  {
    hide RollGroup, GroupOf;
    if keys != [] {
      assert keys == keys[..|keys| - 1] + [keys[|keys| - 1]];
      RollKeysAgree(keys[..|keys| - 1], a, b);
    }
  }

  lemma EarlierKeys(a: seq<Candle>, b: seq<Candle>)
    requires Earlier(a, b)
    ensures forall k, m :: k in BucketKeys(a) && m in BucketKeys(b) ==> k < m
  {
    forall k, m | k in BucketKeys(a) && m in BucketKeys(b) ensures k < m {
      var c :| c in a && Bucket(c) == k;
      var d :| d in b && Bucket(d) == m;
    }
  }

  lemma KeysOfConcat(a: seq<Candle>, b: seq<Candle>)
    requires Earlier(a, b)
    ensures AscendingKeys(BucketKeys(a + b)) == AscendingKeys(BucketKeys(a)) + AscendingKeys(BucketKeys(b))
  {
    var (p, q) := (AscendingKeys(BucketKeys(a)), AscendingKeys(BucketKeys(b)));
    EarlierKeys(a, b);
    forall i, j | 0 <= i < |p| && 0 <= j < |q| ensures p[i] < q[j] {
      assert p[i] in p && q[j] in q;
    }
    assert BucketKeys(a + b) == BucketKeys(a) + BucketKeys(b);
    AscendingIsUnique(AscendingKeys(BucketKeys(a + b)), p + q);
  }

  /** APPEND ONLY: candles of later buckets never change what is already rolled up; they
      add exactly their own rollup. */
  lemma LaterBucketsOnlyAppend(a: seq<Candle>, b: seq<Candle>)
    requires Earlier(a, b)
    ensures Rollup(a + b) == Rollup(a) + Rollup(b)
  {
    var (p, q) := (AscendingKeys(BucketKeys(a)), AscendingKeys(BucketKeys(b)));
    KeysOfConcat(a, b);
    RollKeysConcat(p, q, a + b);
    forall k | k in p ensures GroupOf(a + b, k) == GroupOf(a, k) {
      GroupOfConcat(a, b, k);
      ForeignKeyHasNoGroup(b, a, k);
    }
    forall k | k in q ensures GroupOf(a + b, k) == GroupOf(b, k) {
      GroupOfConcat(a, b, k);
      ForeignKeyHasNoGroup(a, b, k);
    }
    RollKeysAgree(p, a + b, a);
    RollKeysAgree(q, a + b, b);
  }

  /** A bucket of `b` holds nothing of `a` when their buckets are disjoint. */
  lemma ForeignKeyHasNoGroup(a: seq<Candle>, b: seq<Candle>, key: int)
    requires (Earlier(a, b) || Earlier(b, a)) && key in BucketKeys(b)
    ensures GroupOf(a, key) == []
  {
    GroupHasKey(a, key);
    if Earlier(a, b) {
      EarlierKeys(a, b);
    } else {
      EarlierKeys(b, a);
    }
  }
}
