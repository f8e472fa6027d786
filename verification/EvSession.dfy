/**
 Charging-session detection (ems/ev_session.py): maximal runs of active samples, merged over short
 pauses, with zero-order-hold energy. Instants and durations are integer microseconds of UTC, powers
 watts, energies kWh.
*/
module EvSession {
  import opened Prelude
  import opened Sorting

  const MAX_HOLD := 600_000_000

  /** A stored row; `None` is an unreadable stamp or power. */
  datatype Row = Row(ts: Option<int>, watts: Option<real>)

  datatype Sample = Sample(ts: int, watts: real)

  /** An inclusive range of sample indices. */
  datatype Span = Span(first: nat, last: nat)

  function Readable(rows: seq<Row>): seq<Sample> {
    if rows == [] then []
    else
      var before, r := Readable(rows[..|rows| - 1]), rows[|rows| - 1];
      if r.ts.Some? && r.watts.Some? then before + [Sample(r.ts.value, r.watts.value)] else before
  }

  function Prepared(rows: seq<Row>): seq<Sample> { Sort(Readable(rows), (s: Sample) => s.ts) }

  ghost predicate Chronological(samples: seq<Sample>) { SortedBy(samples, (s: Sample) => s.ts) }

  // --- runs ----------------------------------------------------------------------------------------------

  predicate Active(samples: seq<Sample>, threshold: real, i: int) {
    0 <= i < |samples| && samples[i].watts >= threshold
  }

  predicate Within(i: int, s: Span) { s.first <= i <= s.last }

  /** A maximal stretch of consecutive active samples. */
  ghost predicate IsRun(samples: seq<Sample>, threshold: real, r: Span) {
    && r.first <= r.last
    && (forall i :: Within(i, r) ==> Active(samples, threshold, i))
    && !Active(samples, threshold, r.first - 1) && !Active(samples, threshold, r.last + 1)
  }

  ghost predicate Covered(runs: seq<Span>, i: int) { exists k :: 0 <= k < |runs| && Within(i, runs[k]) }

  /** All the maximal runs, in order, each separated from the next by an inactive sample. */
  ghost predicate AreRuns(samples: seq<Sample>, threshold: real, runs: seq<Span>) {
    && (forall k :: 0 <= k < |runs| ==> IsRun(samples, threshold, runs[k]))
    && (forall k :: 0 < k < |runs| ==> runs[k - 1].last + 1 < runs[k].first)
    && (forall i :: Active(samples, threshold, i) ==> Covered(runs, i))
  }

  lemma {:induction false} RunsAscend(runs: seq<Span>, j: nat, k: nat)
    requires forall k :: 0 < k < |runs| ==> runs[k - 1].last + 1 < runs[k].first
    requires forall k :: 0 <= k < |runs| ==> runs[k].first <= runs[k].last
    requires j < k < |runs|
    ensures runs[j].last + 1 < runs[k].first
    decreases k
  {
    if j < k - 1 { RunsAscend(runs, j, k - 1); }
  }

  lemma FirstsAscend(samples: seq<Sample>, threshold: real, runs: seq<Span>, j: nat, k: nat)
    requires AreRuns(samples, threshold, runs) && j <= k < |runs|
    ensures runs[j].first <= runs[k].first
  {
    if j < k { RunsAscend(runs, j, k); }
  }

  /** Maximal runs that meet are equal. */
  lemma SameRun(samples: seq<Sample>, threshold: real, r: Span, s: Span)
    requires IsRun(samples, threshold, r) && IsRun(samples, threshold, s) && Within(r.first, s)
    ensures r == s
  {
    assert s.first < r.first ==> Within(r.first - 1, s);
    assert r.last < s.last ==> Within(r.last + 1, s);
    assert s.last < r.last ==> Within(s.last + 1, r);
  }

  /** Of two run lists that agree on the first i, run i of the first is in the second, and not among those. */
  lemma FindRun(samples: seq<Sample>, threshold: real, a: seq<Span>, b: seq<Span>, i: nat) returns (k: nat)
    requires AreRuns(samples, threshold, a) && AreRuns(samples, threshold, b)
    requires i < |a| && i <= |b| && forall m :: 0 <= m < i ==> a[m] == b[m]
    ensures i <= k < |b| && b[k] == a[i]
  {
    assert Within(a[i].first, a[i]);
    assert Covered(b, a[i].first);
    k :| 0 <= k < |b| && Within(a[i].first, b[k]);
    SameRun(samples, threshold, a[i], b[k]);
    if k < i { RunsAscend(a, k, i); }
  }

  /** Detection has one answer: two lists of all the maximal runs are the same list. */
  lemma {:induction false} RunsAreDetermined(samples: seq<Sample>, threshold: real, a: seq<Span>, b: seq<Span>, n: nat)
    requires AreRuns(samples, threshold, a) && AreRuns(samples, threshold, b) && n <= |a|
    ensures n <= |b| && a[..n] == b[..n]
  {
    if n > 0 {
      RunsAreDetermined(samples, threshold, a, b, n - 1);
      assert forall m :: 0 <= m < n - 1 ==> a[m] == a[..n - 1][m] == b[..n - 1][m] == b[m];
      NextRunAgrees(samples, threshold, a, b, n - 1);
      assert a[..n] == a[..n - 1] + [a[n - 1]] && b[..n] == b[..n - 1] + [b[n - 1]];
    }
  }

  lemma NextRunAgrees(samples: seq<Sample>, threshold: real, a: seq<Span>, b: seq<Span>, i: nat)
    requires AreRuns(samples, threshold, a) && AreRuns(samples, threshold, b)
    requires i < |a| && i <= |b| && forall m :: 0 <= m < i ==> a[m] == b[m]
    ensures i < |b| && a[i] == b[i]
  {
    var k := FindRun(samples, threshold, a, b, i);
    var j := FindRun(samples, threshold, b, a, i);
    FirstsAscend(samples, threshold, b, i, k);
    FirstsAscend(samples, threshold, a, i, j);
    assert Within(a[i].first, b[i]);
    SameRun(samples, threshold, a[i], b[i]);
  }

  method Runs(samples: seq<Sample>, threshold: real) returns (runs: seq<Span>)
    ensures AreRuns(samples, threshold, runs)
  {
    runs := [];
    var i, n := 0, |samples|;
    while i < n
      invariant 0 <= i <= n
      invariant RunsBefore(samples, threshold, runs, i)
    {
      if samples[i].watts >= threshold {
        var j := i;
        while j + 1 < n && samples[j + 1].watts >= threshold
          invariant i <= j < n && forall k :: i <= k <= j ==> Active(samples, threshold, k)
        {
          j := j + 1;
        }
        RunFound(samples, threshold, runs, i, j);
        runs := runs + [Span(i, j)];
        i := j + 1;
      } else {
        i := i + 1;
      }
    }
  }

  /** The scan part-way: every run before sample i is found, and none is open at i. */
  ghost predicate RunsBefore(samples: seq<Sample>, threshold: real, runs: seq<Span>, i: nat) {
    && (forall k :: 0 <= k < |runs| ==> IsRun(samples, threshold, runs[k]) && runs[k].last < i)
    && (forall k :: 0 < k < |runs| ==> runs[k - 1].last + 1 < runs[k].first)
    && (forall k :: k < i && Active(samples, threshold, k) ==> Covered(runs, k))
    && !(Active(samples, threshold, i - 1) && Active(samples, threshold, i))
  }

  lemma RunFound(samples: seq<Sample>, threshold: real, runs: seq<Span>, i: nat, j: nat)
    requires RunsBefore(samples, threshold, runs, i) && i <= j < |samples|
    requires forall k :: i <= k <= j ==> Active(samples, threshold, k)
    requires !Active(samples, threshold, j + 1)
    ensures RunsBefore(samples, threshold, runs + [Span(i, j)], j + 1)
  {
    var grown := runs + [Span(i, j)];
    assert IsRun(samples, threshold, Span(i, j));
    if runs != [] {
      var r := runs[|runs| - 1];
      assert Within(r.last, r);
    }
    forall k | k < j + 1 && Active(samples, threshold, k) ensures Covered(grown, k) {
      if k < i {
        var m :| 0 <= m < |runs| && Within(k, runs[m]);
        assert Within(k, grown[m]);
      } else {
        assert Within(k, grown[|runs|]);
      }
    }
  }

  // --- merging ------------------------------------------------------------------------------------------------

  ghost predicate Ordered(samples: seq<Sample>, runs: seq<Span>) {
    && (forall k :: 0 <= k < |runs| ==> runs[k].first <= runs[k].last < |samples|)
    && (forall k :: 0 < k < |runs| ==> runs[k - 1].last < runs[k].first)
  }

  /** Pause between run k and the one before it, last active sample to next active sample. */
  function Pause(samples: seq<Sample>, runs: seq<Span>, k: nat): int
    requires 0 < k < |runs| && runs[k].first < |samples| && runs[k - 1].last < |samples|
  {
    samples[runs[k].first].ts - samples[runs[k - 1].last].ts
  }

  ghost predicate StartsAt(spans: seq<Span>, i: int) { exists m :: 0 <= m < |spans| && spans[m].first == i }

  ghost predicate EndsAt(spans: seq<Span>, i: int) { exists m :: 0 <= m < |spans| && spans[m].last == i }

  ghost predicate Contains(spans: seq<Span>, r: Span) {
    exists m :: 0 <= m < |spans| && spans[m].first <= r.first && r.last <= spans[m].last
  }

  ghost predicate ContainedAt(runs: seq<Span>, merged: seq<Span>, k: nat) { k < |runs| && Contains(merged, runs[k]) }

  ghost predicate AllContained(runs: seq<Span>, merged: seq<Span>, n: nat) {
    forall k :: 0 <= k < n ==> ContainedAt(runs, merged, k)
  }

  /** A span ends after run k - 1, and one begins at run k, exactly when the pause between them is long enough. */
  ghost predicate CutAt(samples: seq<Sample>, runs: seq<Span>, tolerance: int, merged: seq<Span>, k: nat)
    requires 0 < k < |runs| && runs[k].first < |samples| && runs[k - 1].last < |samples|
  {
    && (EndsAt(merged, runs[k - 1].last) <==> Pause(samples, runs, k) >= tolerance)
    && (StartsAt(merged, runs[k].first) <==> Pause(samples, runs, k) >= tolerance)
  }

  ghost predicate CutAtPauses(samples: seq<Sample>, runs: seq<Span>, tolerance: int, merged: seq<Span>, n: nat)
    requires Ordered(samples, runs) && n <= |runs|
  {
    forall k :: 0 < k < n ==> CutAt(samples, runs, tolerance, merged, k)
  }

  ghost predicate Apart(samples: seq<Sample>, spans: seq<Span>, tolerance: int)
    requires Ordered(samples, spans)
  {
    forall m :: 0 < m < |spans| ==> samples[spans[m].first].ts - samples[spans[m - 1].last].ts >= tolerance
  }

  ghost predicate Spans(samples: seq<Sample>, runs: seq<Span>, merged: seq<Span>, n: nat)
    requires Ordered(samples, runs) && 0 < n <= |runs|
  {
    Ordered(samples, merged) && merged != [] && merged[0].first == runs[0].first && merged[|merged| - 1].last == runs[n - 1].last
  }

  /** A span that begins where one of the first n runs begins and ends where the same or a later one ends. */
  ghost predicate JoinsRuns(runs: seq<Span>, n: nat, s: Span) {
    exists j, k :: 0 <= j <= k < n <= |runs| && s.first == runs[j].first && s.last == runs[k].last
  }

  ghost predicate FromRuns(runs: seq<Span>, merged: seq<Span>, n: nat) {
    forall m :: 0 <= m < |merged| ==> JoinsRuns(runs, n, merged[m])
  }

  /** The first n runs merged: spans of whole runs, in order and far apart, every run inside one, cut exactly at the long pauses. */
  ghost predicate MergedUpTo(samples: seq<Sample>, runs: seq<Span>, tolerance: int, merged: seq<Span>, n: nat)
    requires Ordered(samples, runs) && 0 < n <= |runs|
  {
    && Spans(samples, runs, merged, n) && AllContained(runs, merged, n) && FromRuns(runs, merged, n)
    && CutAtPauses(samples, runs, tolerance, merged, n) && Apart(samples, merged, tolerance)
  }

  lemma {:induction false} LastsAscend(samples: seq<Sample>, runs: seq<Span>, j: nat, k: nat)
    requires Ordered(samples, runs) && j < k < |runs|
    ensures runs[j].last < runs[k].first
    decreases k
  {
    if j < k - 1 { LastsAscend(samples, runs, j, k - 1); }
  }

  lemma EndsGrow(spans: seq<Span>, s: Span, i: nat)
    ensures EndsAt(spans + [s], i) <==> EndsAt(spans, i) || s.last == i
  {
    assert (spans + [s])[|spans|] == s;
    assert forall m :: 0 <= m < |spans| ==> (spans + [s])[m] == spans[m];
  }

  lemma StartsGrow(spans: seq<Span>, s: Span, i: nat)
    ensures StartsAt(spans + [s], i) <==> StartsAt(spans, i) || s.first == i
  {
    assert (spans + [s])[|spans|] == s;
    assert forall m :: 0 <= m < |spans| ==> (spans + [s])[m] == spans[m];
  }

  lemma ContainsGrows(spans: seq<Span>, s: Span, r: Span)
    ensures Contains(spans + [s], r) <==> Contains(spans, r) || (s.first <= r.first && r.last <= s.last)
  {
    assert (spans + [s])[|spans|] == s;
    assert forall m :: 0 <= m < |spans| ==> (spans + [s])[m] == spans[m];
  }

  lemma SeparateCuts(samples: seq<Sample>, runs: seq<Span>, tolerance: int, merged: seq<Span>, n: nat)
    requires Ordered(samples, runs) && 0 < n < |runs| && Pause(samples, runs, n) >= tolerance
    requires EndsAt(merged, runs[n - 1].last) && CutAtPauses(samples, runs, tolerance, merged, n)
    ensures CutAtPauses(samples, runs, tolerance, merged + [runs[n]], n + 1)
  {
    forall k | 0 < k < n + 1 ensures CutAt(samples, runs, tolerance, merged + [runs[n]], k) {
      assert k < n ==> CutAt(samples, runs, tolerance, merged, k);
      LastsAscend(samples, runs, k - 1, n);
      EndsGrow(merged, runs[n], runs[k - 1].last);
      StartsGrow(merged, runs[n], runs[k].first);
      if k < n { LastsAscend(samples, runs, k, n); }
    }
  }

  /** The next run after a long pause opens a new span. */
  lemma Separate(samples: seq<Sample>, runs: seq<Span>, tolerance: int, merged: seq<Span>, n: nat)
    requires Ordered(samples, runs) && 0 < n < |runs| && MergedUpTo(samples, runs, tolerance, merged, n)
    requires Pause(samples, runs, n) >= tolerance
    ensures MergedUpTo(samples, runs, tolerance, merged + [runs[n]], n + 1)
  {
    assert merged[|merged| - 1].last == runs[n - 1].last;
    SeparateCuts(samples, runs, tolerance, merged, n);
    SeparateKeepsOrder(samples, merged, runs[n], tolerance);
    forall k | 0 <= k < n + 1 ensures ContainedAt(runs, merged + [runs[n]], k) {
      assert k < n ==> ContainedAt(runs, merged, k);
      ContainsGrows(merged, runs[n], runs[k]);
    }
    JoinNext(runs, merged, n, n, n);
  }

  /** A span from run j to run n after the spans of the first n runs. */
  lemma JoinNext(runs: seq<Span>, front: seq<Span>, n: nat, j: nat, k: nat)
    requires FromRuns(runs, front, n) && j <= k == n < |runs|
    ensures FromRuns(runs, front + [Span(runs[j].first, runs[k].last)], n + 1)
  {
    var grown := front + [Span(runs[j].first, runs[k].last)];
    forall m | 0 <= m < |grown| ensures JoinsRuns(runs, n + 1, grown[m]) {
      assert m < |front| ==> grown[m] == front[m] && JoinsRuns(runs, n, front[m]);
      assert m == |front| ==> grown[m].first == runs[j].first && grown[m].last == runs[k].last;
    }
  }

  lemma BridgeJoins(runs: seq<Span>, front: seq<Span>, last: Span, n: nat)
    requires FromRuns(runs, front + [last], n) && n < |runs|
    ensures FromRuns(runs, front + [Span(last.first, runs[n].last)], n + 1)
  {
    assert (front + [last])[|front|] == last;
    assert forall m :: 0 <= m < |front| ==> (front + [last])[m] == front[m];
    var j, k :| 0 <= j <= k < n && last.first == runs[j].first && last.last == runs[k].last;
    JoinNext(runs, front, n, j, n);
  }

  lemma SeparateKeepsOrder(samples: seq<Sample>, merged: seq<Span>, r: Span, tolerance: int)
    requires merged != [] && Ordered(samples, merged) && Apart(samples, merged, tolerance)
    requires merged[|merged| - 1].last < r.first <= r.last < |samples|
    requires samples[r.first].ts - samples[merged[|merged| - 1].last].ts >= tolerance
    ensures Ordered(samples, merged + [r]) && Apart(samples, merged + [r], tolerance)
  {
    var grown := merged + [r];
    assert grown[|merged|] == r && forall m :: 0 <= m < |merged| ==> grown[m] == merged[m];
  }

  lemma BridgeCuts(samples: seq<Sample>, runs: seq<Span>, tolerance: int, front: seq<Span>, last: Span, n: nat)
    requires Ordered(samples, runs) && 0 < n < |runs| && Pause(samples, runs, n) < tolerance
    requires last.first <= last.last == runs[n - 1].last
    requires forall m :: 0 <= m < |front| ==> front[m].first <= front[m].last < last.first
    requires CutAtPauses(samples, runs, tolerance, front + [last], n)
    ensures CutAtPauses(samples, runs, tolerance, front + [Span(last.first, runs[n].last)], n + 1)
  {
    var s := Span(last.first, runs[n].last);
    forall k | 0 < k < n + 1 ensures CutAt(samples, runs, tolerance, front + [s], k) {
      assert k < n ==> CutAt(samples, runs, tolerance, front + [last], k);
      LastsAscend(samples, runs, k - 1, n);
      EndsGrow(front, s, runs[k - 1].last);
      EndsGrow(front, last, runs[k - 1].last);
      StartsGrow(front, s, runs[k].first);
      StartsGrow(front, last, runs[k].first);
      if k < n { LastsAscend(samples, runs, k - 1, n - 1); }
    }
  }

  /** The next run after a short pause extends the last span. */
  lemma Bridge(samples: seq<Sample>, runs: seq<Span>, tolerance: int, merged: seq<Span>, front: seq<Span>, last: Span, n: nat)
    requires Ordered(samples, runs) && 0 < n < |runs| && MergedUpTo(samples, runs, tolerance, merged, n)
    requires Pause(samples, runs, n) < tolerance && merged == front + [last]
    ensures MergedUpTo(samples, runs, tolerance, front + [Span(last.first, runs[n].last)], n + 1)
  {
    var s := Span(last.first, runs[n].last);
    forall m | 0 <= m < |front| ensures front[m].first <= front[m].last < last.first {
      LastsAscend(samples, merged, m, |front|);
    }
    BridgeCuts(samples, runs, tolerance, front, last, n);
    BridgeKeepsOrder(samples, front, last, runs[n].last, tolerance);
    BridgeJoins(runs, front, last, n);
    forall k | 0 <= k < n + 1 ensures ContainedAt(runs, front + [s], k) {
      assert k < n ==> ContainedAt(runs, merged, k);
      ContainsGrows(front, s, runs[k]);
      ContainsGrows(front, last, runs[k]);
      if k < n { LastsAscend(samples, runs, k, n); }
    }
  }

  lemma SplitLast(spans: seq<Span>)
    requires spans != []
    ensures spans == spans[..|spans| - 1] + [spans[|spans| - 1]]
  {
  }

  lemma Extend(samples: seq<Sample>, runs: seq<Span>, tolerance: int, merged: seq<Span>, n: nat)
    requires merged != [] && Ordered(samples, runs) && 0 < n < |runs| && MergedUpTo(samples, runs, tolerance, merged, n)
    requires Pause(samples, runs, n) < tolerance
    ensures MergedUpTo(samples, runs, tolerance, merged[..|merged| - 1] + [Span(merged[|merged| - 1].first, runs[n].last)], n + 1)
  {
    SplitLast(merged);
    Bridge(samples, runs, tolerance, merged, merged[..|merged| - 1], merged[|merged| - 1], n);
  }

  lemma BridgeKeepsOrder(samples: seq<Sample>, front: seq<Span>, last: Span, end: nat, tolerance: int)
    requires Ordered(samples, front + [last]) && Apart(samples, front + [last], tolerance) && last.last <= end < |samples|
    ensures Ordered(samples, front + [Span(last.first, end)]) && Apart(samples, front + [Span(last.first, end)], tolerance)
  {
    var merged, grown := front + [last], front + [Span(last.first, end)];
    assert forall m :: 0 <= m < |grown| ==> grown[m].first == merged[m].first && (m < |front| ==> grown[m] == merged[m]);
  }

  method Merge(runs: seq<Span>, samples: seq<Sample>, tolerance: int) returns (merged: seq<Span>)
    requires Ordered(samples, runs)
    ensures runs == [] ==> merged == []
    ensures runs != [] ==> MergedUpTo(samples, runs, tolerance, merged, |runs|)
  {
    if runs == [] { return []; }
    merged := [runs[0]];
    FirstRun(samples, runs, tolerance);
    for n := 1 to |runs|
      invariant MergedUpTo(samples, runs, tolerance, merged, n)
    {
      var last := merged[|merged| - 1];
      var pause := samples[runs[n].first].ts - samples[last.last].ts;
      if pause < tolerance {
        Extend(samples, runs, tolerance, merged, n);
        merged := merged[..|merged| - 1] + [Span(last.first, runs[n].last)];
      } else {
        Separate(samples, runs, tolerance, merged, n);
        merged := merged + [runs[n]];
      }
    }
  }

  lemma FirstRun(samples: seq<Sample>, runs: seq<Span>, tolerance: int)
    requires Ordered(samples, runs) && runs != []
    ensures MergedUpTo(samples, runs, tolerance, [runs[0]], 1)
  {
    var merged := [runs[0]];
    assert merged[0].first <= runs[0].first && runs[0].last <= merged[0].last;
    assert ContainedAt(runs, merged, 0);
    assert merged[0].first == runs[0].first && merged[0].last == runs[0].last;
    assert JoinsRuns(runs, 1, merged[0]);
  }

  // --- what merging means -----------------------------------------------------------------------------------

  /** Where spans must begin: at the first run, and after every long pause. */
  ghost predicate Opens(samples: seq<Sample>, runs: seq<Span>, tolerance: int, n: nat, i: int)
    requires Ordered(samples, runs) && n <= |runs|
  {
    exists k :: 0 <= k < n && runs[k].first == i && (k == 0 || Pause(samples, runs, k) >= tolerance)
  }

  /** Where spans must end: at the last run, and before every long pause. */
  ghost predicate Closes(samples: seq<Sample>, runs: seq<Span>, tolerance: int, n: nat, i: int)
    requires Ordered(samples, runs) && n <= |runs|
  {
    exists k :: 0 <= k < n && runs[k].last == i && (k == n - 1 || Pause(samples, runs, k + 1) >= tolerance)
  }

  lemma StartsWhereOpen(samples: seq<Sample>, runs: seq<Span>, tolerance: int, merged: seq<Span>, n: nat, i: nat)
    requires Ordered(samples, runs) && 0 < n <= |runs| && merged != [] && merged[0].first == runs[0].first
    requires FromRuns(runs, merged, n) && CutAtPauses(samples, runs, tolerance, merged, n)
    ensures StartsAt(merged, i) <==> Opens(samples, runs, tolerance, n, i)
  {
    if StartsAt(merged, i) {
      var m :| 0 <= m < |merged| && merged[m].first == i;
      assert JoinsRuns(runs, n, merged[m]);
      var j, k :| 0 <= j <= k < n && merged[m].first == runs[j].first && merged[m].last == runs[k].last;
      assert StartsAt(merged, runs[j].first);
      assert j > 0 ==> CutAt(samples, runs, tolerance, merged, j);
    }
    if Opens(samples, runs, tolerance, n, i) {
      var k :| 0 <= k < n && runs[k].first == i && (k == 0 || Pause(samples, runs, k) >= tolerance);
      assert k == 0 ==> merged[0].first == i;
      assert k > 0 ==> CutAt(samples, runs, tolerance, merged, k);
    }
  }

  lemma EndsWhereClosed(samples: seq<Sample>, runs: seq<Span>, tolerance: int, merged: seq<Span>, n: nat, i: nat)
    requires Ordered(samples, runs) && 0 < n <= |runs| && merged != [] && merged[|merged| - 1].last == runs[n - 1].last
    requires FromRuns(runs, merged, n) && CutAtPauses(samples, runs, tolerance, merged, n)
    ensures EndsAt(merged, i) <==> Closes(samples, runs, tolerance, n, i)
  {
    if EndsAt(merged, i) {
      var m :| 0 <= m < |merged| && merged[m].last == i;
      assert JoinsRuns(runs, n, merged[m]);
      var j, k :| 0 <= j <= k < n && merged[m].first == runs[j].first && merged[m].last == runs[k].last;
      assert EndsAt(merged, runs[k].last);
      assert k + 1 < n ==> CutAt(samples, runs, tolerance, merged, k + 1);
    }
    if Closes(samples, runs, tolerance, n, i) {
      var k :| 0 <= k < n && runs[k].last == i && (k == n - 1 || Pause(samples, runs, k + 1) >= tolerance);
      assert k == n - 1 ==> merged[|merged| - 1].last == i;
      assert k + 1 < n ==> CutAt(samples, runs, tolerance, merged, k + 1);
    }
  }

  function Firsts(spans: seq<Span>): seq<int> { seq(|spans|, m requires 0 <= m < |spans| => spans[m].first) }

  function Lasts(spans: seq<Span>): seq<int> { seq(|spans|, m requires 0 <= m < |spans| => spans[m].last) }

  lemma EndpointsAscend(samples: seq<Sample>, spans: seq<Span>)
    requires Ordered(samples, spans)
    ensures forall i, j :: 0 <= i < j < |spans| ==> Firsts(spans)[i] < Firsts(spans)[j] && Lasts(spans)[i] < Lasts(spans)[j]
  {
    forall i, j | 0 <= i < j < |spans| ensures Firsts(spans)[i] < Firsts(spans)[j] && Lasts(spans)[i] < Lasts(spans)[j] {
      LastsAscend(samples, spans, i, j);
    }
  }

  lemma InFirsts(spans: seq<Span>, i: int)
    ensures i in Firsts(spans) <==> StartsAt(spans, i)
  {
    if StartsAt(spans, i) {
      var m :| 0 <= m < |spans| && spans[m].first == i;
      assert Firsts(spans)[m] == i;
    }
  }

  lemma InLasts(spans: seq<Span>, i: int)
    ensures i in Lasts(spans) <==> EndsAt(spans, i)
  {
    if EndsAt(spans, i) {
      var m :| 0 <= m < |spans| && spans[m].last == i;
      assert Lasts(spans)[m] == i;
    }
  }

  lemma SameEndpoints(samples: seq<Sample>, runs: seq<Span>, tolerance: int, a: seq<Span>, b: seq<Span>, n: nat)
    requires Ordered(samples, runs) && 0 < n <= |runs|
    requires MergedUpTo(samples, runs, tolerance, a, n) && MergedUpTo(samples, runs, tolerance, b, n)
    ensures forall i :: i in Firsts(a) <==> i in Firsts(b)
    ensures forall i :: i in Lasts(a) <==> i in Lasts(b)
  {
    forall i ensures i in Firsts(a) <==> i in Firsts(b) {
      InFirsts(a, i);
      InFirsts(b, i);
      if i >= 0 {
        StartsWhereOpen(samples, runs, tolerance, a, n, i);
        StartsWhereOpen(samples, runs, tolerance, b, n, i);
      }
    }
    forall i ensures i in Lasts(a) <==> i in Lasts(b) {
      InLasts(a, i);
      InLasts(b, i);
      if i >= 0 {
        EndsWhereClosed(samples, runs, tolerance, a, n, i);
        EndsWhereClosed(samples, runs, tolerance, b, n, i);
      }
    }
  }

  /** Merging has one answer. */
  lemma MergedIsDetermined(samples: seq<Sample>, runs: seq<Span>, tolerance: int, a: seq<Span>, b: seq<Span>, n: nat)
    requires Ordered(samples, runs) && 0 < n <= |runs|
    requires MergedUpTo(samples, runs, tolerance, a, n) && MergedUpTo(samples, runs, tolerance, b, n)
    ensures a == b
  {
    SameEndpoints(samples, runs, tolerance, a, b, n);
    SameSpans(samples, a, b);
  }

  lemma SameSpans(samples: seq<Sample>, a: seq<Span>, b: seq<Span>)
    requires Ordered(samples, a) && Ordered(samples, b)
    requires forall i :: i in Firsts(a) <==> i in Firsts(b)
    requires forall i :: i in Lasts(a) <==> i in Lasts(b)
    ensures a == b
  {
    EndpointsAscend(samples, a);
    EndpointsAscend(samples, b);
    IncreasingIsUnique(Firsts(a), Firsts(b));
    IncreasingIsUnique(Lasts(a), Lasts(b));
    forall m | 0 <= m < |a| ensures a[m] == b[m] {
      assert Firsts(a)[m] == Firsts(b)[m] && Lasts(a)[m] == Lasts(b)[m];
    }
  }

  /** A sample between two runs whose pause is too short to end a session. */
  ghost predicate InShortPause(samples: seq<Sample>, runs: seq<Span>, tolerance: int, i: int)
    requires Ordered(samples, runs)
  {
    exists k :: 0 < k < |runs| && runs[k - 1].last < i < runs[k].first && Pause(samples, runs, k) < tolerance
  }

  /** A sample from run j to run k is in one of them or between two of them. */
  lemma {:induction false} FindPause(samples: seq<Sample>, runs: seq<Span>, j: nat, k: nat, i: int) returns (t: nat)
    requires Ordered(samples, runs) && j <= k < |runs| && runs[j].first <= i <= runs[k].last && !Covered(runs, i)
    ensures j < t <= k && runs[t - 1].last < i < runs[t].first
    decreases k
  {
    assert !Within(i, runs[k]);
    t := k;
    if i <= runs[k - 1].last { t := FindPause(samples, runs, j, k - 1, i); }
  }

  /** No long pause lies inside a span. */
  lemma PauseInsideIsShort(samples: seq<Sample>, runs: seq<Span>, tolerance: int, merged: seq<Span>, m: nat, t: nat)
    requires Ordered(samples, runs) && runs != [] && MergedUpTo(samples, runs, tolerance, merged, |runs|)
    requires m < |merged| && 0 < t < |runs| && merged[m].first < runs[t].first <= merged[m].last
    ensures Pause(samples, runs, t) < tolerance
  {
    if Pause(samples, runs, t) >= tolerance {
      assert CutAt(samples, runs, tolerance, merged, t);
      var o :| 0 <= o < |merged| && merged[o].first == runs[t].first;
      if o < m { LastsAscend(samples, merged, o, m); }
      if m < o { LastsAscend(samples, merged, m, o); }
    }
  }

  lemma CoveredIsRunOrPaused(samples: seq<Sample>, runs: seq<Span>, tolerance: int, merged: seq<Span>, i: int)
    requires Ordered(samples, runs) && runs != [] && MergedUpTo(samples, runs, tolerance, merged, |runs|)
    requires Covered(merged, i) && !Covered(runs, i)
    ensures InShortPause(samples, runs, tolerance, i)
  {
    var m :| 0 <= m < |merged| && Within(i, merged[m]);
    assert JoinsRuns(runs, |runs|, merged[m]);
    var t := PauseAround(samples, runs, merged[m], i);
    PauseInsideIsShort(samples, runs, tolerance, merged, m, t);
  }

  lemma PauseAround(samples: seq<Sample>, runs: seq<Span>, s: Span, i: int) returns (t: nat)
    requires Ordered(samples, runs) && JoinsRuns(runs, |runs|, s) && Within(i, s) && !Covered(runs, i)
    ensures 0 < t < |runs| && runs[t - 1].last < i < runs[t].first && s.first < runs[t].first <= s.last
  {
    var j, k :| 0 <= j <= k < |runs| && s.first == runs[j].first && s.last == runs[k].last;
    t := FindPause(samples, runs, j, k, i);
    if t < k { LastsAscend(samples, runs, t, k); }
  }

  lemma RunIsCovered(samples: seq<Sample>, runs: seq<Span>, tolerance: int, merged: seq<Span>, i: int)
    requires Ordered(samples, runs) && runs != [] && MergedUpTo(samples, runs, tolerance, merged, |runs|)
    requires Covered(runs, i)
    ensures Covered(merged, i)
  {
    var k :| 0 <= k < |runs| && Within(i, runs[k]);
    assert ContainedAt(runs, merged, k);
    var m :| 0 <= m < |merged| && merged[m].first <= runs[k].first && runs[k].last <= merged[m].last;
    assert Within(i, merged[m]);
  }

  /** A span that goes on after run k - 1 holds run k. */
  lemma ReachesNext(samples: seq<Sample>, runs: seq<Span>, s: Span, k: nat)
    requires Ordered(samples, runs) && 0 < k < |runs| && JoinsRuns(runs, |runs|, s) && runs[k - 1].last < s.last
    ensures runs[k].last <= s.last
  {
    var a, b :| 0 <= a <= b < |runs| && s.first == runs[a].first && s.last == runs[b].last;
    if b < k - 1 { LastsAscend(samples, runs, b, k - 1); }
    if k < b { LastsAscend(samples, runs, k, b); }
  }

  lemma PausedIsCovered(samples: seq<Sample>, runs: seq<Span>, tolerance: int, merged: seq<Span>, k: nat, i: int)
    requires Ordered(samples, runs) && 0 < k < |runs| && runs[k - 1].last < i < runs[k].first && Pause(samples, runs, k) < tolerance
    requires CutAt(samples, runs, tolerance, merged, k) && ContainedAt(runs, merged, k - 1) && FromRuns(runs, merged, |runs|)
    ensures Covered(merged, i)
  {
    var m :| 0 <= m < |merged| && merged[m].first <= runs[k - 1].first && runs[k - 1].last <= merged[m].last;
    assert JoinsRuns(runs, |runs|, merged[m]);
    ReachesNext(samples, runs, merged[m], k);
    assert Within(i, merged[m]);
  }

  /** The spans cover exactly the runs and the pauses too short to end a session. */
  lemma CoveredIff(samples: seq<Sample>, runs: seq<Span>, tolerance: int, merged: seq<Span>, i: int)
    requires Ordered(samples, runs) && runs != [] && MergedUpTo(samples, runs, tolerance, merged, |runs|)
    ensures Covered(merged, i) <==> Covered(runs, i) || InShortPause(samples, runs, tolerance, i)
  {
    if Covered(runs, i) {
      RunIsCovered(samples, runs, tolerance, merged, i);
    } else if InShortPause(samples, runs, tolerance, i) {
      var k :| 0 < k < |runs| && runs[k - 1].last < i < runs[k].first && Pause(samples, runs, k) < tolerance;
      PausedIsCovered(samples, runs, tolerance, merged, k, i);
    } else if Covered(merged, i) {
      CoveredIsRunOrPaused(samples, runs, tolerance, merged, i);
    }
  }

  lemma RunsCoverActive(samples: seq<Sample>, threshold: real, runs: seq<Span>, i: int)
    requires AreRuns(samples, threshold, runs)
    ensures Covered(runs, i) <==> Active(samples, threshold, i)
  {
  }

  /** Sessions hold exactly the active samples and those in pauses too short to end one; each starts and ends on an active sample. */
  lemma MergingKeepsActive(samples: seq<Sample>, threshold: real, runs: seq<Span>, tolerance: int, merged: seq<Span>, i: int)
    requires AreRuns(samples, threshold, runs) && Ordered(samples, runs) && runs != []
    requires MergedUpTo(samples, runs, tolerance, merged, |runs|)
    ensures Covered(merged, i) <==>
              (0 <= i < |samples| && samples[i].watts >= threshold) || InShortPause(samples, runs, tolerance, i)
    ensures forall m :: 0 <= m < |merged| ==> StartsAndEndsActive(samples, threshold, merged[m])
  {
    CoveredIff(samples, runs, tolerance, merged, i);
    RunsCoverActive(samples, threshold, runs, i);
    EndsAreActive(samples, threshold, runs, merged);
  }

  predicate StartsAndEndsActive(samples: seq<Sample>, threshold: real, s: Span) {
    s.first < |samples| && s.last < |samples| && samples[s.first].watts >= threshold && samples[s.last].watts >= threshold
  }

  lemma EndsAreActive(samples: seq<Sample>, threshold: real, runs: seq<Span>, merged: seq<Span>)
    requires AreRuns(samples, threshold, runs) && FromRuns(runs, merged, |runs|)
    ensures forall m :: 0 <= m < |merged| ==> StartsAndEndsActive(samples, threshold, merged[m])
  {
    forall m | 0 <= m < |merged| ensures StartsAndEndsActive(samples, threshold, merged[m]) {
      assert JoinsRuns(runs, |runs|, merged[m]);
      var j, k :| 0 <= j <= k < |runs| && merged[m].first == runs[j].first && merged[m].last == runs[k].last;
      assert Within(runs[j].first, runs[j]) && Within(runs[k].last, runs[k]);
    }
  }

  // --- energy ---------------------------------------------------------------------------------------------------

  /** Time a sample's power is held: to the next sample, or one cadence for the last, never beyond the cap. */
  function Held(samples: seq<Sample>, cadence: int, end: nat, i: nat): int
    requires i <= end < |samples|
  {
    if i < end then MinInt(samples[i + 1].ts - samples[i].ts, MAX_HOLD) else MinInt(cadence, MAX_HOLD)
  }

  function SampleKwh(samples: seq<Sample>, cadence: int, end: nat, i: nat): real
    requires i <= end < |samples|
  {
    Times(samples[i].watts, Held(samples, cadence, end, i) as real / 3_600_000_000.0) / 1000.0
  }

  /** Energy of samples [lo, hi) of a session that ends at `end`. */
  function Energy(samples: seq<Sample>, cadence: int, end: nat, lo: nat, hi: nat): real
    requires lo <= hi <= end + 1 <= |samples|
    decreases hi
  {
    if lo == hi then 0.0 else Energy(samples, cadence, end, lo, hi - 1) + SampleKwh(samples, cadence, end, hi - 1)
  }

  /** The same sum restricted to samples at or after an anchor. */
  function EnergySince(samples: seq<Sample>, cadence: int, end: nat, lo: nat, hi: nat, since: Option<int>): real
    requires lo <= hi <= end + 1 <= |samples|
    decreases hi
  {
    if lo == hi then 0.0
    else EnergySince(samples, cadence, end, lo, hi - 1, since)
         + if since.Some? && samples[hi - 1].ts < since.value then 0.0 else SampleKwh(samples, cadence, end, hi - 1)
  }

  lemma {:induction false} EnergySplits(samples: seq<Sample>, cadence: int, end: nat, lo: nat, k: nat, hi: nat)
    requires lo <= k <= hi <= end + 1 <= |samples|
    ensures Energy(samples, cadence, end, lo, hi) == Energy(samples, cadence, end, lo, k) + Energy(samples, cadence, end, k, hi)
    decreases hi
  {
    if k < hi { EnergySplits(samples, cadence, end, lo, k, hi - 1); }
  }

  /** The first sample of a chronological session at or after an anchor. */
  function AnchorIndex(samples: seq<Sample>, lo: nat, hi: nat, since: int): (k: nat)
    requires lo <= hi <= |samples|
    ensures lo <= k <= hi
    decreases |samples| - lo
  {
    if lo == hi || samples[lo].ts >= since then lo else AnchorIndex(samples, lo + 1, hi, since)
  }

  lemma {:induction false} AnchorSeparates(samples: seq<Sample>, lo: nat, hi: nat, since: int, i: nat)
    requires Chronological(samples) && lo <= i < hi <= |samples|
    ensures i < AnchorIndex(samples, lo, hi, since) <==> samples[i].ts < since
    decreases |samples| - lo
  {
    var key := (s: Sample) => s.ts;
    assert key(samples[lo]) <= key(samples[i]);
    if samples[lo].ts < since && lo < i { AnchorSeparates(samples, lo + 1, hi, since, i); }
  }

  lemma {:induction false} SinceIsSuffix(samples: seq<Sample>, cadence: int, end: nat, lo: nat, hi: nat, last: nat, since: int)
    requires Chronological(samples) && lo <= hi <= last <= end + 1 <= |samples|
    ensures EnergySince(samples, cadence, end, lo, hi, Some(since))
         == Energy(samples, cadence, end, MinInt(AnchorIndex(samples, lo, last, since), hi), hi)
    decreases hi
  {
    if lo < hi {
      SinceIsSuffix(samples, cadence, end, lo, hi - 1, last, since);
      AnchorSeparates(samples, lo, last, since, hi - 1);
    }
  }

  /** Energy is additive at an anchor: the whole session is the part before it plus what is counted since. */
  lemma AnchorSplitsEnergy(samples: seq<Sample>, cadence: int, s: Span, since: int)
    requires Chronological(samples) && s.first <= s.last < |samples|
    ensures var k, hi := AnchorIndex(samples, s.first, s.last + 1, since), s.last + 1;
            && (forall i :: s.first <= i < hi ==> (i < k <==> samples[i].ts < since))
            && EnergySince(samples, cadence, s.last, s.first, hi, Some(since)) == Energy(samples, cadence, s.last, k, hi)
            && Energy(samples, cadence, s.last, s.first, hi)
               == Energy(samples, cadence, s.last, s.first, k) + EnergySince(samples, cadence, s.last, s.first, hi, Some(since))
  {
    var k, hi := AnchorIndex(samples, s.first, s.last + 1, since), s.last + 1;
    SinceIsSuffix(samples, cadence, s.last, s.first, hi, hi, since);
    EnergySplits(samples, cadence, s.last, s.first, k, hi);
    forall i | s.first <= i < hi ensures i < k <==> samples[i].ts < since {
      AnchorSeparates(samples, s.first, hi, since, i);
    }
  }

  /** Time for which the powers of samples [lo, hi) are held. */
  function HeldTime(samples: seq<Sample>, cadence: int, end: nat, lo: nat, hi: nat): int
    requires lo <= hi <= end + 1 <= |samples|
    decreases hi
  {
    if lo == hi then 0 else HeldTime(samples, cadence, end, lo, hi - 1) + Held(samples, cadence, end, hi - 1)
  }

  /** Without gaps beyond ten minutes the time held is the time from the first sample on, and one cadence after the last. */
  lemma {:induction false} HeldIsElapsed(samples: seq<Sample>, cadence: int, end: nat, lo: nat, hi: nat)
    requires lo < hi <= end + 1 <= |samples| && cadence <= 600_000_000
    requires forall i :: lo < i <= end ==> samples[i].ts - samples[i - 1].ts <= 600_000_000
    ensures HeldTime(samples, cadence, end, lo, hi)
         == if hi <= end then samples[hi].ts - samples[lo].ts else samples[end].ts - samples[lo].ts + cadence
    decreases hi
  {
    if lo < hi - 1 {
      HeldIsElapsed(samples, cadence, end, lo, hi - 1);
    } else {
      assert HeldTime(samples, cadence, end, lo, lo) == 0;
    }
    if hi <= end { assert samples[hi].ts - samples[hi - 1].ts <= 600_000_000; }
  }

  /** No sample is held longer than ten minutes, and none longer than its own gap or cadence. */
  lemma HeldWithin(samples: seq<Sample>, cadence: int, end: nat, i: nat)
    requires i <= end < |samples|
    ensures var gap := if i < end then samples[i + 1].ts - samples[i].ts else cadence;
            Held(samples, cadence, end, i) == if gap <= 600_000_000 then gap else 600_000_000
  {
  }

  /** At a steady power the energy is that power for the time held: watts times hours, a thousand to the kWh. */
  lemma {:induction false} SteadyEnergy(samples: seq<Sample>, cadence: int, end: nat, lo: nat, hi: nat, watts: real)
    requires lo <= hi <= end + 1 <= |samples| && forall i :: lo <= i < hi ==> samples[i].watts == watts
    ensures Energy(samples, cadence, end, lo, hi) * 1000.0
         == Times(watts, HeldTime(samples, cadence, end, lo, hi) as real / 3_600_000_000.0)
    decreases hi
  {
    if lo < hi {
      SteadyEnergy(samples, cadence, end, lo, hi - 1, watts);
      var before, more := HeldTime(samples, cadence, end, lo, hi - 1), Held(samples, cadence, end, hi - 1);
      TimesAdds(before as real / 3_600_000_000.0, more as real / 3_600_000_000.0, watts);
      assert (before + more) as real / 3_600_000_000.0 == before as real / 3_600_000_000.0 + more as real / 3_600_000_000.0;
    } else {
      assert Times(watts, 0.0) == 0.0;
    }
  }

  method EnergyKwh(samples: seq<Sample>, cadence: int, s: Span, since: Option<int>) returns (kwh: real)
    requires s.first <= s.last < |samples|
    ensures kwh == EnergySince(samples, cadence, s.last, s.first, s.last + 1, since)
  {
    kwh := 0.0;
    var i := s.first;
    while i < s.last + 1
      invariant s.first <= i <= s.last + 1
      invariant kwh == EnergySince(samples, cadence, s.last, s.first, i, since)
    {
      if since.None? || samples[i].ts >= since.value {
        var held := if i < s.last then MinInt(samples[i + 1].ts - samples[i].ts, MAX_HOLD) else MinInt(cadence, MAX_HOLD);
        kwh := kwh + Times(samples[i].watts, held as real / 3_600_000_000.0) / 1000.0;
      }
      i := i + 1;
    }
  }

  // --- sessions ------------------------------------------------------------------------------------------------------

  lemma RunsAreOrdered(samples: seq<Sample>, threshold: real, runs: seq<Span>)
    requires AreRuns(samples, threshold, runs)
    ensures Ordered(samples, runs)
  {
    forall k | 0 <= k < |runs| ensures runs[k].last < |samples| {
      assert Within(runs[k].last, runs[k]);
    }
  }

  /** The sessions of the stored rows: merged runs, less those shorter than the minimum. */
  method Sessions(rows: seq<Row>, threshold: real, minDuration: int, tolerance: int)
    returns (samples: seq<Sample>, kept: seq<Span>, ghost runs: seq<Span>, ghost merged: seq<Span>)
    ensures samples == Prepared(rows) && Chronological(samples)
    ensures AreRuns(samples, threshold, runs) && Ordered(samples, runs)
    ensures if runs == [] then merged == [] else MergedUpTo(samples, runs, tolerance, merged, |runs|)
    ensures Ordered(samples, merged) && Ordered(samples, kept)
    ensures forall s :: s in kept <==> s in merged && samples[s.last].ts - samples[s.first].ts >= minDuration
    ensures forall s :: s in kept ==> StartsAndEndsActive(samples, threshold, s)
    ensures Apart(samples, kept, tolerance)
  {
    var readable := ReadRows(rows);
    samples := Sort(readable, (s: Sample) => s.ts);
    SortIsSorted(readable, (s: Sample) => s.ts);
    var found := Runs(samples, threshold);
    RunsAreOrdered(samples, threshold, found);
    var spans := Merge(found, samples, tolerance);
    runs, merged := found, spans;
    EndsAreActive(samples, threshold, found, spans);
    kept := KeepLong(samples, spans, minDuration, tolerance);
  }

  method ReadRows(rows: seq<Row>) returns (out: seq<Sample>)
    ensures out == Readable(rows)
  {
    out := [];
    for i := 0 to |rows|
      invariant out == Readable(rows[..i])
    {
      assert rows[..i + 1][..i] == rows[..i];
      if rows[i].ts.Some? && rows[i].watts.Some? {
        out := out + [Sample(rows[i].ts.value, rows[i].watts.value)];
      }
    }
    assert rows[..|rows|] == rows;
  }

  /** The long spans among the first n, in order and as far apart as the spans are; `at` is the last one kept. */
  ghost predicate KeptUpTo(samples: seq<Sample>, spans: seq<Span>, minDuration: int, tolerance: int, kept: seq<Span>, at: nat, n: nat)
    requires Ordered(samples, spans) && n <= |spans|
  {
    && Ordered(samples, kept) && Apart(samples, kept, tolerance)
    && (forall s :: s in kept <==> s in spans[..n] && IsLong(samples, s, minDuration))
    && (kept != [] ==> at < n && kept[|kept| - 1] == spans[at])
  }

  predicate IsLong(samples: seq<Sample>, s: Span, minDuration: int) {
    s.first < |samples| && s.last < |samples| && samples[s.last].ts - samples[s.first].ts >= minDuration
  }

  lemma KeepNext(samples: seq<Sample>, spans: seq<Span>, minDuration: int, tolerance: int, kept: seq<Span>, at: nat, n: nat)
    requires Chronological(samples) && Ordered(samples, spans) && Apart(samples, spans, tolerance) && n < |spans|
    requires KeptUpTo(samples, spans, minDuration, tolerance, kept, at, n)
    ensures if IsLong(samples, spans[n], minDuration)
            then KeptUpTo(samples, spans, minDuration, tolerance, kept + [spans[n]], n, n + 1)
            else KeptUpTo(samples, spans, minDuration, tolerance, kept, at, n + 1)
  {
    assert spans[..n + 1] == spans[..n] + [spans[n]];
    if IsLong(samples, spans[n], minDuration) && kept != [] {
      LastsAscend(samples, spans, at, n);
      StillApart(samples, spans, tolerance, at, n);
      SeparateKeepsOrder(samples, kept, spans[n], tolerance);
    }
  }

  method KeepLong(samples: seq<Sample>, spans: seq<Span>, minDuration: int, tolerance: int) returns (kept: seq<Span>)
    requires Chronological(samples) && Ordered(samples, spans) && Apart(samples, spans, tolerance)
    ensures Ordered(samples, kept) && Apart(samples, kept, tolerance)
    ensures forall s :: s in kept <==> s in spans && samples[s.last].ts - samples[s.first].ts >= minDuration
  {
    kept := [];
    ghost var at: nat := 0;
    for i := 0 to |spans|
      invariant KeptUpTo(samples, spans, minDuration, tolerance, kept, at, i)
    {
      KeepNext(samples, spans, minDuration, tolerance, kept, at, i);
      if samples[spans[i].last].ts - samples[spans[i].first].ts >= minDuration {
        kept, at := kept + [spans[i]], i;
      }
    }
    assert spans[..|spans|] == spans;
  }

  /** Dropping spans in between only lengthens a pause. */
  lemma StillApart(samples: seq<Sample>, spans: seq<Span>, tolerance: int, j: nat, k: nat)
    requires Chronological(samples) && Ordered(samples, spans) && Apart(samples, spans, tolerance) && j < k < |spans|
    ensures samples[spans[k].first].ts - samples[spans[j].last].ts >= tolerance
  {
    var key := (s: Sample) => s.ts;
    if j < k - 1 {
      LastsAscend(samples, spans, j, k - 1);
      assert key(samples[spans[j].last]) <= key(samples[spans[k - 1].last]);
    }
  }
}
