/**
 Zero-order-hold segmentation of recorded samples (ems/timeseries.py). Instants and durations are
 integer microseconds of UTC. A row carries the instant and the field vector its parsing produced;
 `None` stands for an unparsable stamp or a missing or non-finite field.
*/
module Segments {
  import opened Prelude
  import opened Sorting

  const MINUTE := 60_000_000
  const HOUR := 60 * MINUTE
  const QUARTER := 15 * MINUTE

  datatype Row = Row(ts: Option<int>, values: Option<seq<real>>)

  datatype Segment = Segment(observedAt: int, start: int, end: int, values: seq<real>)

  datatype Params = Params(start: int, end: int, fields: nat, nominal: int, maxHold: Option<int>)

  function NextQuarter(when: int): int {
    var minute := (when % HOUR) / MINUTE;
    (when - when % HOUR) + (minute / 15 + 1) * QUARTER
  }

  /** The next quarter-hour boundary after `when`, with none in between. */
  lemma NextQuarterIsNext(when: int)
    ensures NextQuarter(when) % QUARTER == 0
    ensures when < NextQuarter(when) <= when + QUARTER
  {
    var h, r := when / HOUR, when % HOUR;
    QuarterOfHour(r);
    WholeQuarters(h * 4 + r / MINUTE / 15 + 1);
  }

  lemma QuarterOfHour(r: int)
    requires 0 <= r < HOUR
    ensures (r / MINUTE / 15) * QUARTER <= r < (r / MINUTE / 15 + 1) * QUARTER
  {
    var m := r / MINUTE;
    assert m * MINUTE <= r < (m + 1) * MINUTE;
    assert m / 15 * 15 <= m < (m / 15 + 1) * 15;
  }

  lemma WholeQuarters(k: int)
    ensures (k * QUARTER) % QUARTER == 0
  {
  }

  function Hold(p: Params): int { if p.maxHold.Some? then p.maxHold.value else p.nominal }

  predicate Degenerate(p: Params) { p.end <= p.start || p.nominal <= 0 || Hold(p) <= 0 }

  predicate Keeps(p: Params, r: Row) {
    r.ts.Some? && p.start <= r.ts.value < p.end && r.values.Some? && |r.values.value| == p.fields
  }

  /** Field vectors recorded at one instant, in input order. */
  function At(p: Params, rows: seq<Row>, ts: int): seq<seq<real>> {
    if rows == [] then []
    else
      var rest, r := At(p, rows[..|rows| - 1], ts), rows[|rows| - 1];
      if Keeps(p, r) && r.ts.value == ts then rest + [r.values.value] else rest
  }

  function Stamps(p: Params, rows: seq<Row>): set<int> {
    set r | r in rows && Keeps(p, r) :: r.ts.value
  }

  function FieldOf(v: seq<real>, f: nat): real { if f < |v| then v[f] else 0.0 }

  function SumField(vs: seq<seq<real>>, f: nat): real {
    if vs == [] then 0.0 else SumField(vs[..|vs| - 1], f) + FieldOf(vs[|vs| - 1], f)
  }

  lemma {:induction false} AtFilled(p: Params, rows: seq<Row>, ts: int)
    ensures At(p, rows, ts) != [] <==> ts in Stamps(p, rows)
  {
    if rows != [] {
      var front, r := rows[..|rows| - 1], rows[|rows| - 1];
      AtFilled(p, front, ts);
      assert rows == front + [r];
      assert forall x :: x in rows <==> x in front || x == r;
      if Keeps(p, r) && r.ts.value == ts { assert r in rows; }
      if ts in Stamps(p, front) { var x :| x in front && Keeps(p, x) && x.ts.value == ts; assert x in rows; }
    }
  }

  /** Average of each field over the rows sharing one instant. */
  function Mean(vs: seq<seq<real>>, fields: nat): seq<real>
    requires vs != []
  {
    seq(fields, f requires 0 <= f < fields => SumField(vs, f) / (|vs| as real))
  }

  function MeanAt(p: Params, rows: seq<Row>, ts: int): seq<real>
    requires ts in Stamps(p, rows)
  {
    AtFilled(p, rows, ts);
    Mean(At(p, rows, ts), p.fields)
  }

  // --- the segments of one sample ---------------------------------------------------------------

  function Split(ts: int, cursor: int, end: int, values: seq<real>): seq<Segment>
    decreases end - cursor
  {
    if cursor >= end then []
    else
      NextQuarterIsNext(cursor);
      var segmentEnd := MinInt(end, NextQuarter(cursor));
      [Segment(ts, cursor, segmentEnd, values)] + Split(ts, segmentEnd, end, values)
  }

  /** Ordered, non-empty, disjoint segments within [lo, hi), none crossing a quarter-hour. */
  ghost predicate Chain(segs: seq<Segment>, lo: int, hi: int) {
    && (forall k :: 0 <= k < |segs| ==> lo <= segs[k].start < segs[k].end <= hi && segs[k].end <= NextQuarter(segs[k].start))
    && (forall k :: 0 < k < |segs| ==> segs[k - 1].end <= segs[k].start)
  }

  function Total(segs: seq<Segment>): int {
    if segs == [] then 0 else Total(segs[..|segs| - 1]) + (segs[|segs| - 1].end - segs[|segs| - 1].start)
  }

  lemma {:induction false} TotalAdds(a: seq<Segment>, b: seq<Segment>)
    ensures Total(a + b) == Total(a) + Total(b)
    decreases |b|
  {
    if b == [] {
      assert a + b == a;
    } else {
      TotalAdds(a, b[..|b| - 1]);
      assert (a + b)[..|a + b| - 1] == a + b[..|b| - 1];
    }
  }

  lemma ChainAppend(a: seq<Segment>, b: seq<Segment>, lo: int, mid: int, hi: int)
    requires Chain(a, lo, mid) && Chain(b, mid, hi) && lo <= mid <= hi
    ensures Chain(a + b, lo, hi)
  {
  }

  /** The pieces of one sample tile [cursor, end) exactly. */
  lemma {:induction false} SplitTiles(ts: int, cursor: int, end: int, values: seq<real>)
    requires cursor <= end
    ensures Chain(Split(ts, cursor, end, values), cursor, end) && Total(Split(ts, cursor, end, values)) == end - cursor
    decreases end - cursor
  {
    if cursor < end {
      NextQuarterIsNext(cursor);
      var segmentEnd := MinInt(end, NextQuarter(cursor));
      var first, rest := [Segment(ts, cursor, segmentEnd, values)], Split(ts, segmentEnd, end, values);
      SplitTiles(ts, segmentEnd, end, values);
      ChainAppend(first, rest, cursor, segmentEnd, end);
      TotalAdds(first, rest);
      assert first[..0] == [];
    }
  }

  // --- all samples ---------------------------------------------------------------------------------

  /** Where the i-th distinct sample stops owning time. */
  function IntervalEnd(p: Params, stamps: seq<int>, i: nat): int
    requires i < |stamps|
  {
    var natural := if i + 1 < |stamps| then stamps[i + 1] else stamps[i] + p.nominal;
    MinInt(MinInt(natural, stamps[i] + Hold(p)), p.end)
  }

  /** The distinct instants in order of first appearance. */
  function Keys(p: Params, rows: seq<Row>): seq<int> {
    if rows == [] then []
    else
      var rest, r := Keys(p, rows[..|rows| - 1]), rows[|rows| - 1];
      if Keeps(p, r) && r.ts.value !in rest then rest + [r.ts.value] else rest
  }

  function OrderedStamps(p: Params, rows: seq<Row>): seq<int> { Sort(Keys(p, rows), (k: int) => k) }

  ghost predicate Increasing(xs: seq<int>) { forall i, j :: 0 <= i < j < |xs| ==> xs[i] < xs[j] }

  /** Segments of the first n distinct samples. */
  function Pieces(p: Params, rows: seq<Row>, stamps: seq<int>, n: nat): seq<Segment>
    requires n <= |stamps| && forall i :: 0 <= i < |stamps| ==> stamps[i] in Stamps(p, rows)
  {
    if n == 0 then []
    else
      Pieces(p, rows, stamps, n - 1)
      + Split(stamps[n - 1], stamps[n - 1], IntervalEnd(p, stamps, n - 1), MeanAt(p, rows, stamps[n - 1]))
  }

  lemma {:induction false} KeysAreStamps(p: Params, rows: seq<Row>)
    ensures forall t :: t in Keys(p, rows) <==> t in Stamps(p, rows)
    ensures forall i, j :: 0 <= i < j < |Keys(p, rows)| ==> Keys(p, rows)[i] != Keys(p, rows)[j]
  {
    if rows != [] {
      var front, r := rows[..|rows| - 1], rows[|rows| - 1];
      KeysAreStamps(p, front);
      assert rows == front + [r];
      assert Stamps(p, rows) == Stamps(p, front) + if Keeps(p, r) then {r.ts.value} else {};
    }
  }

  lemma DistinctSortedIncrease(keys: seq<int>)
    requires forall i, j :: 0 <= i < j < |keys| ==> keys[i] != keys[j]
    ensures Increasing(Sort(keys, (k: int) => k))
    ensures forall t :: t in Sort(keys, (k: int) => k) <==> t in keys
  {
    var sorted := Sort(keys, (k: int) => k);
    SortIsSorted(keys, (k: int) => k);
    forall t ensures t in sorted <==> t in keys {
      assert t in multiset(sorted) <==> t in multiset(keys);
    }
    forall i, j | 0 <= i < j < |sorted| ensures sorted[i] < sorted[j] {
      StayDistinct(keys, sorted, i, j);
    }
  }

  lemma StayDistinct(keys: seq<int>, sorted: seq<int>, i: nat, j: nat)
    requires forall i, j :: 0 <= i < j < |keys| ==> keys[i] != keys[j]
    requires multiset(keys) == multiset(sorted) && i < j < |sorted|
    ensures sorted[i] != sorted[j]
  {
    OnceInDistinct(keys, sorted[i]);
    if sorted[i] == sorted[j] { TwiceInMultiset(sorted, i, j); }
  }

  lemma TwiceInMultiset(xs: seq<int>, i: nat, j: nat)
    requires i < j < |xs| && xs[i] == xs[j]
    ensures multiset(xs)[xs[i]] >= 2
  {
    assert xs == xs[..i] + [xs[i]] + xs[i + 1..j] + [xs[j]] + xs[j + 1..];
  }

  lemma {:induction false} OnceInDistinct(xs: seq<int>, x: int)
    requires forall i, j :: 0 <= i < j < |xs| ==> xs[i] != xs[j]
    ensures multiset(xs)[x] <= 1
  {
    if xs != [] {
      OnceInDistinct(xs[1..], x);
      assert xs == [xs[0]] + xs[1..];
      assert x == xs[0] ==> x !in xs[1..];
    }
  }

  lemma OrderedStampsAreExact(p: Params, rows: seq<Row>)
    ensures Increasing(OrderedStamps(p, rows))
    ensures forall t :: t in OrderedStamps(p, rows) <==> t in Stamps(p, rows)
    ensures forall i :: 0 <= i < |OrderedStamps(p, rows)| ==>
              OrderedStamps(p, rows)[i] in Stamps(p, rows) && p.start <= OrderedStamps(p, rows)[i] < p.end
  {
    KeysAreStamps(p, rows);
    DistinctSortedIncrease(Keys(p, rows));
    var stamps := OrderedStamps(p, rows);
    forall i | 0 <= i < |stamps| ensures stamps[i] in Stamps(p, rows) && p.start <= stamps[i] < p.end {
      assert stamps[i] in stamps;
    }
  }

  /** The whole result: a function of the rows, independent of how the loops compute it. */
  function Observed(p: Params, rows: seq<Row>): seq<Segment> {
    if Degenerate(p) then []
    else
      OrderedStampsAreExact(p, rows);
      Pieces(p, rows, OrderedStamps(p, rows), |OrderedStamps(p, rows)|)
  }

  // --- the loops ---------------------------------------------------------------------------------------

  /** Groups the usable rows by instant, keeping the order in which instants first appear. */
  method Group(p: Params, rows: seq<Row>) returns (grouped: map<int, seq<seq<real>>>, keys: seq<int>)
    ensures keys == Keys(p, rows) && forall t :: t in grouped <==> t in keys
    ensures forall t :: t in grouped ==> grouped[t] == At(p, rows, t)
  {
    grouped, keys := map[], [];
    for i := 0 to |rows|
      invariant keys == Keys(p, rows[..i]) && forall t :: t in grouped <==> t in keys
      invariant forall t :: t in grouped ==> grouped[t] == At(p, rows[..i], t)
    {
      var r := rows[i];
      assert rows[..i + 1][..i] == rows[..i];
      if Keeps(p, r) {
        var ts := r.ts.value;
        if ts !in grouped {
          KeysAreStamps(p, rows[..i]);
          AtFilled(p, rows[..i], ts);
          keys := keys + [ts];
          grouped := grouped[ts := [r.values.value]];
        } else {
          grouped := grouped[ts := grouped[ts] + [r.values.value]];
        }
      }
    }
    assert rows[..|rows|] == rows;
  }

  /** The cursor loop over one sample's interval. */
  method SplitAtQuarters(ts: int, end: int, values: seq<real>) returns (out: seq<Segment>)
    ensures out == Split(ts, ts, end, values)
  {
    out := [];
    var cursor := ts;
    while cursor < end
      invariant out + Split(ts, cursor, end, values) == Split(ts, ts, end, values)
      decreases end - cursor
    {
      NextQuarterIsNext(cursor);
      var segmentEnd := MinInt(end, NextQuarter(cursor));
      assert out + ([Segment(ts, cursor, segmentEnd, values)] + Split(ts, segmentEnd, end, values))
          == (out + [Segment(ts, cursor, segmentEnd, values)]) + Split(ts, segmentEnd, end, values);
      out := out + [Segment(ts, cursor, segmentEnd, values)];
      cursor := segmentEnd;
    }
  }

  method ObservedSegments(p: Params, rows: seq<Row>) returns (out: seq<Segment>)
    ensures out == Observed(p, rows)
  {
    if Degenerate(p) {
      return [];
    }
    var grouped, keys := Group(p, rows);
    var stamps := Sort(keys, (k: int) => k);
    OrderedStampsAreExact(p, rows);
    out := [];
    for i := 0 to |stamps|
      invariant stamps == OrderedStamps(p, rows) && out == Pieces(p, rows, stamps, i)
    {
      assert stamps[i] in stamps;
      KeysAreStamps(p, rows);
      AtFilled(p, rows, stamps[i]);
      var pieces := SplitAtQuarters(stamps[i], IntervalEnd(p, stamps, i), Mean(grouped[stamps[i]], p.fields));
      out := out + pieces;
    }
  }

  // --- what the segments are -------------------------------------------------------------------------

  lemma IntervalIsForward(p: Params, stamps: seq<int>, i: nat)
    requires !Degenerate(p) && Increasing(stamps) && i < |stamps| && stamps[i] < p.end
    ensures stamps[i] < IntervalEnd(p, stamps, i) <= p.end
    ensures i + 1 < |stamps| ==> IntervalEnd(p, stamps, i) <= stamps[i + 1]
  {
  }

  lemma {:induction false} PiecesChain(p: Params, rows: seq<Row>, stamps: seq<int>, n: nat)
    requires !Degenerate(p) && Increasing(stamps) && 0 < n <= |stamps|
    requires forall i :: 0 <= i < |stamps| ==> stamps[i] in Stamps(p, rows) && p.start <= stamps[i] < p.end
    ensures Chain(Pieces(p, rows, stamps, n), p.start, IntervalEnd(p, stamps, n - 1))
  {
    var last := stamps[n - 1];
    IntervalIsForward(p, stamps, n - 1);
    SplitTiles(last, last, IntervalEnd(p, stamps, n - 1), MeanAt(p, rows, last));
    if n > 1 {
      PiecesChain(p, rows, stamps, n - 1);
      IntervalIsForward(p, stamps, n - 2);
      ChainAppend(Pieces(p, rows, stamps, n - 1), [], p.start, IntervalEnd(p, stamps, n - 2), last);
      assert Pieces(p, rows, stamps, n - 1) + [] == Pieces(p, rows, stamps, n - 1);
    }
    ChainAppend(Pieces(p, rows, stamps, n - 1), Split(last, last, IntervalEnd(p, stamps, n - 1), MeanAt(p, rows, last)),
                p.start, last, IntervalEnd(p, stamps, n - 1));
  }

  /** Segments are ordered, disjoint, inside the window, and never cross a quarter-hour. */
  lemma ObservedIsChain(p: Params, rows: seq<Row>)
    ensures Chain(Observed(p, rows), p.start, p.end)
  {
    if !Degenerate(p) {
      OrderedStampsAreExact(p, rows);
      var stamps := OrderedStamps(p, rows);
      if stamps != [] {
        PiecesChain(p, rows, stamps, |stamps|);
        IntervalIsForward(p, stamps, |stamps| - 1);
      }
    }
  }

  lemma {:induction false} SplitHasFields(ts: int, cursor: int, end: int, values: seq<real>)
    ensures forall i :: 0 <= i < |Split(ts, cursor, end, values)| ==> Split(ts, cursor, end, values)[i].values == values
    decreases end - cursor
  {
    if cursor < end {
      NextQuarterIsNext(cursor);
      SplitHasFields(ts, MinInt(end, NextQuarter(cursor)), end, values);
    }
  }

  lemma {:induction false} PiecesHaveFields(p: Params, rows: seq<Row>, stamps: seq<int>, n: nat)
    requires n <= |stamps| && forall i :: 0 <= i < |stamps| ==> stamps[i] in Stamps(p, rows)
    ensures forall i :: 0 <= i < |Pieces(p, rows, stamps, n)| ==> |Pieces(p, rows, stamps, n)[i].values| == p.fields
  {
    if n > 0 {
      PiecesHaveFields(p, rows, stamps, n - 1);
      SplitHasFields(stamps[n - 1], stamps[n - 1], IntervalEnd(p, stamps, n - 1), MeanAt(p, rows, stamps[n - 1]));
    }
  }

  lemma ObservedHasFields(p: Params, rows: seq<Row>)
    ensures forall i :: 0 <= i < |Observed(p, rows)| ==> |Observed(p, rows)[i].values| == p.fields
  {
    if !Degenerate(p) {
      OrderedStampsAreExact(p, rows);
      PiecesHaveFields(p, rows, OrderedStamps(p, rows), |OrderedStamps(p, rows)|);
    }
  }

  lemma {:induction false} ChainTotal(segs: seq<Segment>, lo: int, hi: int)
    requires Chain(segs, lo, hi)
    ensures 0 <= Total(segs) && (segs != [] ==> Total(segs) <= segs[|segs| - 1].end - lo)
  {
    if |segs| > 1 {
      ChainTotal(segs[..|segs| - 1], lo, hi);
    } else if |segs| == 1 {
      assert segs[..0] == [];
    }
  }

  /** Observed time never exceeds the window, so coverage is a share between 0 and 1. */
  lemma ObservedWithinWindow(p: Params, rows: seq<Row>)
    ensures 0 <= Total(Observed(p, rows)) <= MaxInt(0, p.end - p.start)
  {
    ObservedIsChain(p, rows);
    ChainTotal(Observed(p, rows), p.start, p.end);
  }

  /** Time owned by one sample. */
  function OwnedBy(segs: seq<Segment>, ts: int): int {
    if segs == [] then 0
    else
      var s := segs[|segs| - 1];
      OwnedBy(segs[..|segs| - 1], ts) + if s.observedAt == ts then s.end - s.start else 0
  }

  lemma {:induction false} OwnedAdds(a: seq<Segment>, b: seq<Segment>, ts: int)
    ensures OwnedBy(a + b, ts) == OwnedBy(a, ts) + OwnedBy(b, ts)
    decreases |b|
  {
    if b == [] {
      assert a + b == a;
    } else {
      OwnedAdds(a, b[..|b| - 1], ts);
      assert (a + b)[..|a + b| - 1] == a + b[..|b| - 1];
    }
  }

  lemma {:induction false} SplitOwned(owner: int, cursor: int, end: int, values: seq<real>, ts: int)
    requires cursor <= end
    ensures OwnedBy(Split(owner, cursor, end, values), ts) == if owner == ts then end - cursor else 0
    decreases end - cursor
  {
    if cursor < end {
      NextQuarterIsNext(cursor);
      var segmentEnd := MinInt(end, NextQuarter(cursor));
      var first := [Segment(owner, cursor, segmentEnd, values)];
      SplitOwned(owner, segmentEnd, end, values, ts);
      OwnedAdds(first, Split(owner, segmentEnd, end, values), ts);
      assert first[..0] == [];
    }
  }

  lemma OwnedNext(segs: seq<Segment>, owner: int, end: int, values: seq<real>, ts: int)
    requires owner <= end
    ensures OwnedBy(segs + Split(owner, owner, end, values), ts) == OwnedBy(segs, ts) + if owner == ts then end - owner else 0
  {
    SplitOwned(owner, owner, end, values, ts);
    OwnedAdds(segs, Split(owner, owner, end, values), ts);
  }

  lemma {:induction false} PiecesOwned(p: Params, rows: seq<Row>, stamps: seq<int>, n: nat, i: nat)
    requires !Degenerate(p) && Increasing(stamps) && n <= |stamps| && i < |stamps|
    requires forall i :: 0 <= i < |stamps| ==> stamps[i] in Stamps(p, rows) && p.start <= stamps[i] < p.end
    ensures OwnedBy(Pieces(p, rows, stamps, n), stamps[i]) == if i < n then IntervalEnd(p, stamps, i) - stamps[i] else 0
  {
    if n > 0 {
      var last := stamps[n - 1];
      PiecesOwned(p, rows, stamps, n - 1, i);
      IntervalIsForward(p, stamps, n - 1);
      OwnedNext(Pieces(p, rows, stamps, n - 1), last, IntervalEnd(p, stamps, n - 1), MeanAt(p, rows, last), stamps[i]);
      assert stamps[i] == last <==> i == n - 1;
    }
  }

  /** Each sample owns exactly the time up to the next sample (or one nominal step), cut by hold and window. */
  lemma SampleOwnsItsInterval(p: Params, rows: seq<Row>, i: nat)
    requires !Degenerate(p) && i < |OrderedStamps(p, rows)|
    ensures var stamps := OrderedStamps(p, rows);
            OwnedBy(Observed(p, rows), stamps[i]) == IntervalEnd(p, stamps, i) - stamps[i] > 0
  {
    OrderedStampsAreExact(p, rows);
    PiecesOwned(p, rows, OrderedStamps(p, rows), |OrderedStamps(p, rows)|, i);
    IntervalIsForward(p, OrderedStamps(p, rows), i);
  }

  // --- which sample is in force when -----------------------------------------------------------------

  /** Some segment of sample s covers the instant t. */
  ghost predicate OwnsAt(segs: seq<Segment>, s: int, t: int) {
    exists k :: 0 <= k < |segs| && segs[k].observedAt == s && segs[k].start <= t < segs[k].end
  }

  lemma OwnsConcat(a: seq<Segment>, b: seq<Segment>, s: int, t: int)
    ensures OwnsAt(a + b, s, t) <==> OwnsAt(a, s, t) || OwnsAt(b, s, t)
  {
    if k :| 0 <= k < |a| && a[k].observedAt == s && a[k].start <= t < a[k].end { assert (a + b)[k] == a[k]; }
    if k :| 0 <= k < |b| && b[k].observedAt == s && b[k].start <= t < b[k].end { assert (a + b)[|a| + k] == b[k]; }
  }

  lemma {:induction false} SplitOwns(owner: int, cursor: int, end: int, values: seq<real>, s: int, t: int)
    ensures OwnsAt(Split(owner, cursor, end, values), s, t) <==> s == owner && cursor <= t < end
    decreases end - cursor
  {
    if cursor < end {
      NextQuarterIsNext(cursor);
      var segmentEnd := MinInt(end, NextQuarter(cursor));
      var first := [Segment(owner, cursor, segmentEnd, values)];
      SplitOwns(owner, segmentEnd, end, values, s, t);
      OwnsConcat(first, Split(owner, segmentEnd, end, values), s, t);
      assert OwnsAt(first, s, t) <==> s == owner && cursor <= t < segmentEnd by {
        assert first[0].observedAt == owner;
      }
    }
  }

  lemma {:induction false} PiecesOwn(p: Params, rows: seq<Row>, stamps: seq<int>, n: nat, s: int, t: int)
    requires n <= |stamps| && forall i :: 0 <= i < |stamps| ==> stamps[i] in Stamps(p, rows)
    ensures OwnsAt(Pieces(p, rows, stamps, n), s, t)
       <==> exists i :: 0 <= i < n && stamps[i] == s && s <= t < IntervalEnd(p, stamps, i)
  {
    if n > 0 {
      var last := stamps[n - 1];
      var pieces := Split(last, last, IntervalEnd(p, stamps, n - 1), MeanAt(p, rows, last));
      PiecesOwn(p, rows, stamps, n - 1, s, t);
      SplitOwns(last, last, IntervalEnd(p, stamps, n - 1), MeanAt(p, rows, last), s, t);
      OwnsConcat(Pieces(p, rows, stamps, n - 1), pieces, s, t);
    }
  }

  /** A row with all its fields readable was recorded at s, inside the window. */
  ghost predicate Recorded(p: Params, rows: seq<Row>, s: int) {
    p.start <= s < p.end
    && exists i :: 0 <= i < |rows| && rows[i].ts == Some(s) && rows[i].values.Some? && |rows[i].values.value| == p.fields
  }

  lemma StampsAreRecorded(p: Params, rows: seq<Row>, s: int)
    ensures s in Stamps(p, rows) <==> Recorded(p, rows, s)
  {
    if s in Stamps(p, rows) {
      var r :| r in rows && Keeps(p, r) && r.ts.value == s;
      var i :| 0 <= i < |rows| && rows[i] == r;
    }
    if Recorded(p, rows, s) {
      var i :| 0 <= i < |rows| && rows[i].ts == Some(s) && rows[i].values.Some? && |rows[i].values.value| == p.fields;
      assert rows[i] in rows && Keeps(p, rows[i]);
    }
  }

  /**
   * Sample s is in force at t: the latest usable one, not held beyond the cap (the nominal step without
   * one), the last of all not beyond the nominal step, and never beyond the window.
   */
  ghost predicate InForce(p: Params, rows: seq<Row>, s: int, t: int) {
    && Recorded(p, rows, s) && s <= t < p.end
    && t - s < (if p.maxHold.Some? then p.maxHold.value else p.nominal)
    && (forall u :: Recorded(p, rows, u) && u > s ==> t < u)
    && ((forall u :: Recorded(p, rows, u) ==> u <= s) ==> t - s < p.nominal)
  }

  lemma IntervalIsInForce(p: Params, rows: seq<Row>, stamps: seq<int>, i: nat, t: int)
    requires Increasing(stamps) && (forall u :: u in stamps <==> Recorded(p, rows, u)) && i < |stamps|
    ensures stamps[i] <= t < IntervalEnd(p, stamps, i) <==> InForce(p, rows, stamps[i], t)
  {
    var s := stamps[i];
    assert s in stamps;
    if i + 1 < |stamps| {
      assert stamps[i + 1] in stamps && stamps[i + 1] > s;
      forall u | Recorded(p, rows, u) && u > s ensures u >= stamps[i + 1] {
        var j :| 0 <= j < |stamps| && stamps[j] == u;
        assert j > i;
      }
    } else {
      forall u | Recorded(p, rows, u) ensures u <= s {
        var j :| 0 <= j < |stamps| && stamps[j] == u;
      }
    }
  }

  /** An instant belongs to a segment of sample s exactly when that sample is in force then. */
  lemma CoveredIff(p: Params, rows: seq<Row>, s: int, t: int)
    requires p.start < p.end && p.nominal > 0 && (p.maxHold.Some? ==> p.maxHold.value > 0)
    ensures OwnsAt(Observed(p, rows), s, t) <==> InForce(p, rows, s, t)
  {
    var stamps := OrderedStamps(p, rows);
    OrderedStampsAreExact(p, rows);
    PiecesOwn(p, rows, stamps, |stamps|, s, t);
    forall u ensures u in stamps <==> Recorded(p, rows, u) {
      StampsAreRecorded(p, rows, u);
    }
    if s in stamps {
      var i :| 0 <= i < |stamps| && stamps[i] == s;
      IntervalIsInForce(p, rows, stamps, i, t);
    }
  }

  // --- what a segment reads ----------------------------------------------------------------------------

  lemma OneMore(x: real, n: nat)
    ensures x * ((n + 1) as real) == x * (n as real) + x
  {
    assert (n + 1) as real == n as real + 1.0;
  }

  lemma {:induction false} SumWithin(vs: seq<seq<real>>, f: nat, lo: real, hi: real)
    requires forall i :: 0 <= i < |vs| ==> lo <= FieldOf(vs[i], f) <= hi
    ensures lo * (|vs| as real) <= SumField(vs, f) <= hi * (|vs| as real)
  {
    if vs != [] {
      var n := |vs| - 1;
      SumWithin(vs[..n], f, lo, hi);
      assert forall i :: 0 <= i < n ==> vs[..n][i] == vs[i];
      OneMore(lo, n);
      OneMore(hi, n);
    }
  }

  /** The mean lies between any bounds of the values averaged. */
  lemma MeanWithin(vs: seq<seq<real>>, fields: nat, f: nat, lo: real, hi: real)
    requires vs != [] && f < fields && forall i :: 0 <= i < |vs| ==> lo <= FieldOf(vs[i], f) <= hi
    ensures lo <= Mean(vs, fields)[f] <= hi
  {
    SumWithin(vs, f, lo, hi);
    var n, m := |vs| as real, Mean(vs, fields)[f];
    assert m * n == SumField(vs, f);
    assert (m - lo) * n >= 0.0 && (hi - m) * n >= 0.0;
    NotNegative(m - lo, n);
    NotNegative(hi - m, n);
  }

  lemma NotNegative(x: real, n: real)
    requires n > 0.0 && x * n >= 0.0
    ensures x >= 0.0
  {
  }

  /** One more reading moves the mean as a mean moves: the weighted sum grows by exactly that reading. */
  lemma MeanGrows(vs: seq<seq<real>>, v: seq<real>, fields: nat, f: nat)
    requires vs != [] && f < fields
    ensures Mean(vs + [v], fields)[f] * ((|vs| + 1) as real) == Mean(vs, fields)[f] * (|vs| as real) + FieldOf(v, f)
    ensures Mean([v], fields)[f] == FieldOf(v, f)
  {
    assert (vs + [v])[..|vs|] == vs && [v][..0] == [];
    var a, b := SumField(vs + [v], f), SumField(vs, f);
    var m, n := (|vs| + 1) as real, |vs| as real;
    assert a / m * m == a && b / n * n == b;
    assert SumField([v], f) == FieldOf(v, f);
  }

  lemma {:induction false} PiecesCarry(p: Params, rows: seq<Row>, stamps: seq<int>, n: nat, k: nat)
    requires n <= |stamps| && (forall i :: 0 <= i < |stamps| ==> stamps[i] in Stamps(p, rows)) && k < |Pieces(p, rows, stamps, n)|
    ensures var s := Pieces(p, rows, stamps, n)[k]; s.observedAt in Stamps(p, rows) && s.values == MeanAt(p, rows, s.observedAt)
  {
    var last, before := stamps[n - 1], Pieces(p, rows, stamps, n - 1);
    if k < |before| {
      PiecesCarry(p, rows, stamps, n - 1, k);
    } else {
      SplitCarries(last, last, IntervalEnd(p, stamps, n - 1), MeanAt(p, rows, last), k - |before|);
    }
  }

  lemma {:induction false} SplitCarries(ts: int, cursor: int, end: int, values: seq<real>, k: nat)
    requires k < |Split(ts, cursor, end, values)|
    ensures Split(ts, cursor, end, values)[k].observedAt == ts && Split(ts, cursor, end, values)[k].values == values
    decreases end - cursor
  {
    NextQuarterIsNext(cursor);
    if k > 0 { SplitCarries(ts, MinInt(end, NextQuarter(cursor)), end, values, k - 1); }
  }

  lemma {:induction false} AtIsRecorded(p: Params, rows: seq<Row>, ts: int, j: nat)
    requires j < |At(p, rows, ts)|
    ensures exists i :: 0 <= i < |rows| && Keeps(p, rows[i]) && rows[i].ts.value == ts && rows[i].values.value == At(p, rows, ts)[j]
  {
    var n := |rows| - 1;
    if j < |At(p, rows[..n], ts)| {
      AtIsRecorded(p, rows[..n], ts, j);
      var i :| 0 <= i < n && Keeps(p, rows[..n][i]) && rows[..n][i].ts.value == ts && rows[..n][i].values.value == At(p, rows[..n], ts)[j];
      assert rows[i] == rows[..n][i];
    } else {
      assert Keeps(p, rows[n]);
    }
  }

  /** A segment's reading lies between any bounds of the usable rows recorded at its instant; of a single row it is that row's. */
  lemma SegmentReadsItsRows(p: Params, rows: seq<Row>, k: nat, f: nat, lo: real, hi: real)
    requires k < |Observed(p, rows)| && f < p.fields
    requires forall i :: 0 <= i < |rows| && Keeps(p, rows[i]) && rows[i].ts.value == Observed(p, rows)[k].observedAt ==>
               lo <= rows[i].values.value[f] <= hi
    ensures |Observed(p, rows)[k].values| == p.fields && lo <= Observed(p, rows)[k].values[f] <= hi
  {
    OrderedStampsAreExact(p, rows);
    PiecesCarry(p, rows, OrderedStamps(p, rows), |OrderedStamps(p, rows)|, k);
    var ts := Observed(p, rows)[k].observedAt;
    AtFilled(p, rows, ts);
    forall j | 0 <= j < |At(p, rows, ts)| ensures lo <= FieldOf(At(p, rows, ts)[j], f) <= hi {
      AtIsRecorded(p, rows, ts, j);
    }
    MeanWithin(At(p, rows, ts), p.fields, f, lo, hi);
  }

  // --- input order is irrelevant -----------------------------------------------------------------------

  lemma {:induction false} AtConcat(p: Params, a: seq<Row>, b: seq<Row>, ts: int)
    ensures At(p, a + b, ts) == At(p, a, ts) + At(p, b, ts)
    decreases |b|
  {
    if b == [] {
      assert a + b == a;
    } else {
      AtConcat(p, a, b[..|b| - 1], ts);
      assert (a + b)[..|a + b| - 1] == a + b[..|b| - 1];
    }
  }

  lemma {:induction false} SumConcat(a: seq<seq<real>>, b: seq<seq<real>>, f: nat)
    ensures SumField(a + b, f) == SumField(a, f) + SumField(b, f)
    decreases |b|
  {
    if b == [] {
      assert a + b == a;
    } else {
      SumConcat(a, b[..|b| - 1], f);
      assert (a + b)[..|a + b| - 1] == a + b[..|b| - 1];
    }
  }

  function Drop(rows: seq<Row>, i: nat): seq<Row>
    requires i < |rows|
  {
    rows[..i] + rows[i + 1..]
  }

  /** Taking one row out subtracts exactly its own contribution, wherever it stood. */
  lemma DropRow(p: Params, rows: seq<Row>, i: nat, ts: int, f: nat)
    requires i < |rows|
    ensures SumField(At(p, rows, ts), f) == SumField(At(p, Drop(rows, i), ts), f) + SumField(At(p, [rows[i]], ts), f)
    ensures |At(p, rows, ts)| == |At(p, Drop(rows, i), ts)| + |At(p, [rows[i]], ts)|
  {
    var before, row, after := rows[..i], [rows[i]], rows[i + 1..];
    assert rows == before + (row + after);
    AtConcat(p, before, row + after, ts);
    AtConcat(p, row, after, ts);
    AtConcat(p, before, after, ts);
    SumConcat(At(p, before, ts), At(p, row + after, ts), f);
    SumConcat(At(p, row, ts), At(p, after, ts), f);
    SumConcat(At(p, before, ts), At(p, after, ts), f);
  }

  lemma DropFromMultiset(rows: seq<Row>, i: nat)
    requires i < |rows|
    ensures multiset(Drop(rows, i)) == multiset(rows) - multiset{rows[i]}
  {
    assert rows == rows[..i] + [rows[i]] + rows[i + 1..];
  }

  /** A row of b that is the last of a, and without which the rest still match. */
  lemma MatchLast(a: seq<Row>, b: seq<Row>) returns (i: nat)
    requires multiset(a) == multiset(b) && a != []
    ensures i < |b| && b[i] == a[|a| - 1]
    ensures multiset(Drop(a, |a| - 1)) == multiset(Drop(b, i)) && |Drop(a, |a| - 1)| == |a| - 1
  {
    var r := a[|a| - 1];
    assert r in multiset(a);
    assert r in multiset(b);
    i :| 0 <= i < |b| && b[i] == r;
    DropFromMultiset(a, |a| - 1);
    DropFromMultiset(b, i);
  }

  lemma {:induction false} SumsIgnoreOrder(p: Params, a: seq<Row>, b: seq<Row>, ts: int, f: nat)
    requires multiset(a) == multiset(b)
    ensures SumField(At(p, a, ts), f) == SumField(At(p, b, ts), f)
    ensures |At(p, a, ts)| == |At(p, b, ts)|
    decreases |a|
  {
    if a == [] {
      assert |multiset(b)| == 0;
    } else {
      var n := |a| - 1;
      var i := MatchLast(a, b);
      SumsIgnoreOrder(p, Drop(a, n), Drop(b, i), ts, f);
      DropRow(p, a, n, ts, f);
      DropRow(p, b, i, ts, f);
    }
  }

  lemma MeanIgnoresOrder(p: Params, a: seq<Row>, b: seq<Row>, ts: int)
    requires multiset(a) == multiset(b) && ts in Stamps(p, a) && ts in Stamps(p, b)
    ensures MeanAt(p, a, ts) == MeanAt(p, b, ts)
  {
    AtFilled(p, a, ts);
    AtFilled(p, b, ts);
    forall f | 0 <= f < p.fields ensures MeanAt(p, a, ts)[f] == MeanAt(p, b, ts)[f] {
      SumsIgnoreOrder(p, a, b, ts, f);
    }
  }

  lemma {:induction false} PiecesIgnoreOrder(p: Params, a: seq<Row>, b: seq<Row>, stamps: seq<int>, n: nat)
    requires multiset(a) == multiset(b) && n <= |stamps|
    requires forall i :: 0 <= i < |stamps| ==> stamps[i] in Stamps(p, a) && stamps[i] in Stamps(p, b)
    ensures Pieces(p, a, stamps, n) == Pieces(p, b, stamps, n)
  {
    if n > 0 {
      PiecesIgnoreOrder(p, a, b, stamps, n - 1);
      MeanIgnoresOrder(p, a, b, stamps[n - 1]);
    }
  }

  /** The segments depend only on which rows there are and how often, not on their order. */
  lemma ObservedIgnoresOrder(p: Params, a: seq<Row>, b: seq<Row>)
    requires multiset(a) == multiset(b)
    ensures Observed(p, a) == Observed(p, b)
  {
    if !Degenerate(p) {
      assert forall r :: r in a <==> r in multiset(a);
      assert forall r :: r in b <==> r in multiset(b);
      assert Stamps(p, a) == Stamps(p, b);
      OrderedStampsAreExact(p, a);
      OrderedStampsAreExact(p, b);
      IncreasingIsUnique(OrderedStamps(p, a), OrderedStamps(p, b));
      PiecesIgnoreOrder(p, a, b, OrderedStamps(p, a), |OrderedStamps(p, a)|);
    }
  }
}
