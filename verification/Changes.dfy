/** Runs of changed frames, over stills (which may leave gaps) and over video frames. */
module Changes {
  import opened Wrappers

  /** Consecutive changed frames: their times, number and largest change. */
  datatype Run = Run(start: real, end: real, frames: nat, peak: real)

  /** The frames `first` to `last` of a run. */
  datatype Span = Span(first: nat, last: nat)

  /** Frame times, each frame's changed fraction against the one before, and the gap that
      ends a run, if one does. */
  datatype Frames = Frames(t: seq<real>, frac: seq<real>, threshold: real, gap: Option<real>)

  predicate Changed(f: Frames, i: nat) {
    0 < i < |f.frac| && f.frac[i] >= f.threshold
  }

  /** No unchanged frames were skipped before frame `i`. */
  predicate Adjacent(f: Frames, i: nat) {
    0 < i < |f.t| && (f.gap.None? || f.t[i] - f.t[i - 1] <= f.gap.value)
  }

  /** Frames `i - 1` and `i` belong together. */
  predicate Joined(f: Frames, i: nat) {
    1 < i && Changed(f, i - 1) && Changed(f, i) && Adjacent(f, i)
  }

  /** A group of changed frames with no gap that nothing can be added to. */
  predicate Maximal(f: Frames, s: Span) {
    && 0 < s.first <= s.last < |f.frac|
    && (forall i :: s.first <= i <= s.last ==> Changed(f, i))
    && (forall i :: s.first < i <= s.last ==> Adjacent(f, i))
    && !Joined(f, s.first) && !Joined(f, s.last + 1)
  }

  /** The run that tells of a span. */
  predicate Tells(f: Frames, run: Run, s: Span)
    requires |f.t| == |f.frac| && 0 < s.first <= s.last < |f.frac|
  {
    && run.start == f.t[s.first] && run.end == f.t[s.last] && run.frames == s.last - s.first + 1
    && (exists i :: s.first <= i <= s.last && f.frac[i] == run.peak)
    && (forall i :: s.first <= i <= s.last ==> f.frac[i] <= run.peak)
  }

  /** The changed frames among the first `n`. */
  function ChangedBefore(f: Frames, n: nat): nat
    requires n <= |f.frac|
  {
    if n == 0 then 0 else ChangedBefore(f, n - 1) + if Changed(f, n - 1) then 1 else 0
  }

  function Total(runs: seq<Run>): nat {
    if runs == [] then 0 else Total(runs[..|runs| - 1]) + runs[|runs| - 1].frames
  }

  predicate MaximalRun(f: Frames, run: Run, s: Span) {
    |f.t| == |f.frac| && Maximal(f, s) && Tells(f, run, s)
  }

  /** The spans are in order, apart, and the runs tell of them. */
  predicate Listed(f: Frames, runs: seq<Run>, spans: seq<Span>) {
    && |runs| == |spans|
    && (forall k :: 0 <= k < |spans| ==> MaximalRun(f, runs[k], spans[k]))
    && (forall k :: 0 < k < |spans| ==> spans[k - 1].last < spans[k].first)
  }

  predicate Covers(spans: seq<Span>, i: nat) {
    exists k :: 0 <= k < |spans| && spans[k].first <= i <= spans[k].last
  }

  /** Every changed frame before `i` is told of. */
  predicate Cleared(f: Frames, runs: seq<Run>, spans: seq<Span>, i: nat) {
    && |f.t| == |f.frac| && 0 < i <= |f.frac| && Listed(f, runs, spans) && Total(runs) == ChangedBefore(f, i)
    && (spans != [] ==> spans[|spans| - 1].last < i)
    && (forall j :: 0 < j < i && Changed(f, j) ==> Covers(spans, j))
  }

  /** A span being built: everything a maximal one has but its end. */
  predicate Growing(f: Frames, run: Run, s: Span) {
    && |f.t| == |f.frac| && 0 < s.first <= s.last < |f.frac|
    && (forall i :: s.first <= i <= s.last ==> Changed(f, i))
    && (forall i :: s.first < i <= s.last ==> Adjacent(f, i))
    && !Joined(f, s.first) && Tells(f, run, s)
  }

  /** Every changed frame before the open run is told of, and it goes up to frame `i`. */
  predicate Scanned(f: Frames, runs: seq<Run>, spans: seq<Span>, open: Run, s: Span, i: nat) {
    Growing(f, open, s) && s.last == i - 1 && Cleared(f, runs, spans, s.first) && Total(runs) + open.frames == ChangedBefore(f, i)
  }

  lemma ListOne(f: Frames, runs: seq<Run>, spans: seq<Span>, run: Run, s: Span)
    requires Listed(f, runs, spans) && MaximalRun(f, run, s)
    requires spans != [] ==> spans[|spans| - 1].last < s.first
    ensures Listed(f, runs + [run], spans + [s])
  {
    var rs, ss := runs + [run], spans + [s];
    forall k | 0 <= k < |ss| ensures MaximalRun(f, rs[k], ss[k]) {
      if k < |spans| {
        assert rs[k] == runs[k] && ss[k] == spans[k];
      }
    }
    forall k | 0 < k < |ss| ensures ss[k - 1].last < ss[k].first {
      assert ss[k - 1] == spans[k - 1];
      if k < |spans| {
        assert ss[k] == spans[k];
      }
    }
  }

  lemma TotalOne(runs: seq<Run>, run: Run)
    ensures Total(runs + [run]) == Total(runs) + run.frames
  {
    assert (runs + [run])[..|runs|] == runs;
  }

  lemma CoversMore(spans: seq<Span>, s: Span, i: nat)
    requires Covers(spans, i) || s.first <= i <= s.last
    ensures Covers(spans + [s], i)
  {
    if Covers(spans, i) {
      var k :| 0 <= k < |spans| && spans[k].first <= i <= spans[k].last;
      assert (spans + [s])[k] == spans[k];
    } else {
      assert (spans + [s])[|spans|] == s;
    }
  }

  lemma Grown(f: Frames, run: Run, s: Span)
    requires Growing(f, run, s) && Joined(f, s.last + 1)
    ensures var i := s.last + 1;
      Growing(f, Run(run.start, f.t[i], run.frames + 1, if run.peak < f.frac[i] then f.frac[i] else run.peak), Span(s.first, i))
  {
  }

  lemma Extend(f: Frames, runs: seq<Run>, spans: seq<Span>, open: Run, s: Span, i: nat)
    requires Scanned(f, runs, spans, open, s, i) && Joined(f, i)
    ensures Scanned(f, runs, spans, Run(open.start, f.t[i], open.frames + 1, if open.peak < f.frac[i] then f.frac[i] else open.peak),
                    Span(s.first, i), i + 1)
  {
    Grown(f, open, s);
  }

  lemma GrownUp(f: Frames, run: Run, s: Span)
    requires Growing(f, run, s) && !Joined(f, s.last + 1)
    ensures MaximalRun(f, run, s)
  {
  }

  lemma ClosedCovers(f: Frames, runs: seq<Run>, spans: seq<Span>, s: Span, j: nat)
    requires Cleared(f, runs, spans, s.first) && 0 < j <= s.last && Changed(f, j)
    ensures Covers(spans + [s], j)
  {
    if j < s.first {
      assert Covers(spans, j);
    }
    CoversMore(spans, s, j);
  }

  lemma Close(f: Frames, runs: seq<Run>, spans: seq<Span>, open: Run, s: Span, i: nat)
    requires Scanned(f, runs, spans, open, s, i) && !Joined(f, i)
    ensures Cleared(f, runs + [open], spans + [s], i)
  {
    GrownUp(f, open, s);
    ListOne(f, runs, spans, open, s);
    TotalOne(runs, open);
    forall j | 0 < j < i && Changed(f, j) ensures Covers(spans + [s], j) {
      ClosedCovers(f, runs, spans, s, j);
    }
  }

  lemma Start(f: Frames, runs: seq<Run>, spans: seq<Span>, i: nat)
    requires Cleared(f, runs, spans, i) && Changed(f, i) && !Joined(f, i)
    ensures Scanned(f, runs, spans, Run(f.t[i], f.t[i], 1, f.frac[i]), Span(i, i), i + 1)
  {
  }

  lemma Idle(f: Frames, runs: seq<Run>, spans: seq<Span>, i: nat)
    requires Cleared(f, runs, spans, i) && i < |f.frac| && !Changed(f, i)
    ensures Cleared(f, runs, spans, i + 1)
  {
  }

  lemma JoinedInside(f: Frames, s: Span, i: nat)
    requires |f.t| == |f.frac| && Maximal(f, s) && s.first < i <= s.last
    ensures Joined(f, i)
  {
  }

  /** Maximal groups that share a frame are the same. */
  lemma MaximalUnique(f: Frames, a: Span, b: Span, i: nat)
    requires |f.t| == |f.frac| && Maximal(f, a) && Maximal(f, b)
    requires a.first <= i <= a.last && b.first <= i <= b.last
    ensures a == b
  {
    if a.first < b.first {
      JoinedInside(f, a, b.first);
    } else if b.first < a.first {
      JoinedInside(f, b, a.first);
    }
    if a.last < b.last {
      JoinedInside(f, b, a.last + 1);
    } else if b.last < a.last {
      JoinedInside(f, a, b.last + 1);
    }
  }

  /** No maximal group is left out. */
  lemma EveryMaximalListed(f: Frames, runs: seq<Run>, spans: seq<Span>, s: Span)
    requires |f.t| == |f.frac| && Listed(f, runs, spans) && Maximal(f, s)
    requires forall i :: Changed(f, i) ==> Covers(spans, i)
    ensures s in spans
  {
    assert Changed(f, s.first);
    var k :| 0 <= k < |spans| && spans[k].first <= s.first <= spans[k].last;
    assert MaximalRun(f, runs[k], spans[k]);
    MaximalUnique(f, spans[k], s, s.first);
  }

  /** The scan before frame `i`, with a run open or not. */
  predicate ScanOk(f: Frames, runs: seq<Run>, spans: seq<Span>, open: Option<Run>, s: Span, i: nat) {
    if open.Some? then Scanned(f, runs, spans, open.value, s, i)
    else Cleared(f, runs, spans, i) && !Changed(f, i - 1)
  }

  /** A changed frame: it extends the open run, or ends that and opens one. */
  method ChangedFrame(f: Frames, runs: seq<Run>, open: Option<Run>, i: nat, ghost spans: seq<Span>, ghost s: Span)
    returns (runs': seq<Run>, open': Option<Run>, ghost spans': seq<Span>, ghost s': Span)
    requires ScanOk(f, runs, spans, open, s, i) && Changed(f, i)
    ensures ScanOk(f, runs', spans', open', s', i + 1)
  {
    var frac, t := f.frac[i], f.t[i];
    var adjacent := f.gap.None? || t - f.t[i - 1] <= f.gap.value;
    if open.Some? && adjacent {
      var r := open.value;
      Extend(f, runs, spans, r, s, i);
      runs', spans', s' := runs, spans, Span(s.first, i);
      open' := Some(Run(r.start, t, r.frames + 1, if r.peak < frac then frac else r.peak));
    } else {
      runs', spans' := runs, spans;
      if open.Some? {
        Close(f, runs, spans, open.value, s, i);
        runs', spans' := runs + [open.value], spans + [s];
      }
      Start(f, runs', spans', i);
      open', s' := Some(Run(t, t, 1, frac)), Span(i, i);
    }
  }

  /** An unchanged frame ends the open run. */
  method UnchangedFrame(f: Frames, runs: seq<Run>, open: Option<Run>, i: nat, ghost spans: seq<Span>, ghost s: Span)
    returns (runs': seq<Run>, ghost spans': seq<Span>)
    requires ScanOk(f, runs, spans, open, s, i) && i < |f.t| && !Changed(f, i)
    ensures ScanOk(f, runs', spans', None, s, i + 1)
  {
    runs', spans' := runs, spans;
    if open.Some? {
      Close(f, runs, spans, open.value, s, i);
      runs', spans' := runs + [open.value], spans + [s];
    }
    Idle(f, runs', spans', i);
  }

  /** The runs of changed frames, and the number of frames examined. The spans are a ghost
      that says which frames each run tells of. */
  method FindRuns(f: Frames) returns (runs: seq<Run>, examined: nat, ghost spans: seq<Span>)
    requires |f.t| == |f.frac|
    ensures examined == |f.t| && Found(f, runs, spans)
    ensures Total(runs) == ChangedBefore(f, |f.frac|)
  {
    runs, spans, examined := [], [], |f.t|;
    if |f.t| == 0 {
      return;
    }
    var open: Option<Run> := None;
    ghost var s := Span(0, 0);
    var i := 1;
    while i < |f.t|
      invariant 1 <= i <= |f.t| && ScanOk(f, runs, spans, open, s, i)
    {
      if f.frac[i] >= f.threshold {
        runs, open, spans, s := ChangedFrame(f, runs, open, i, spans, s);
      } else {
        runs, spans := UnchangedFrame(f, runs, open, i, spans, s);
        open := None;
      }
      i := i + 1;
    }
    if open.Some? {
      Close(f, runs, spans, open.value, s, i);
      runs, spans := runs + [open.value], spans + [s];
    }
  }

  // ---------- what the runs say of the frames ----------

  /** `runs` and `spans` as `FindRuns` leaves them. */
  ghost predicate Found(f: Frames, runs: seq<Run>, spans: seq<Span>) {
    && |f.t| == |f.frac| && Listed(f, runs, spans)
    && forall i :: Changed(f, i) ==> Covers(spans, i)
  }

  /** A frame is told of when it changed by the threshold or more; there is nothing before
      the first frame that it could have changed against. */
  lemma ToldOf(f: Frames, runs: seq<Run>, spans: seq<Span>, i: nat)
    requires Found(f, runs, spans) && i < |f.frac|
    ensures (exists k :: 0 <= k < |spans| && spans[k].first <= i <= spans[k].last)
      <==> i >= 1 && f.frac[i] >= f.threshold
  {
    if k :| 0 <= k < |spans| && spans[k].first <= i <= spans[k].last {
      assert MaximalRun(f, runs[k], spans[k]) && Changed(f, i);
    }
    if Changed(f, i) {
      ChangedTold(f, runs, spans, i);
    }
  }

  lemma ChangedTold(f: Frames, runs: seq<Run>, spans: seq<Span>, i: nat)
    requires Found(f, runs, spans) && Changed(f, i)
    ensures exists k :: 0 <= k < |spans| && spans[k].first <= i <= spans[k].last
  {
    assert Covers(spans, i);
  }

  /** Two neighbours are in one run when both changed and no more than the gap lies between
      them. */
  lemma ToldTogether(f: Frames, runs: seq<Run>, spans: seq<Span>, i: nat)
    requires Found(f, runs, spans) && 2 <= i < |f.frac|
    ensures (exists k :: 0 <= k < |spans| && spans[k].first <= i - 1 && i <= spans[k].last)
      <==> (f.frac[i - 1] >= f.threshold && f.frac[i] >= f.threshold
            && (f.gap == None || f.t[i] - f.t[i - 1] <= f.gap.value))
  {
    if k :| 0 <= k < |spans| && spans[k].first <= i - 1 && i <= spans[k].last {
      assert MaximalRun(f, runs[k], spans[k]) && Changed(f, i - 1) && Changed(f, i) && Adjacent(f, i);
    }
    if Joined(f, i) {
      JoinedTogether(f, runs, spans, i);
    }
  }

  lemma JoinedTogether(f: Frames, runs: seq<Run>, spans: seq<Span>, i: nat)
    requires Found(f, runs, spans) && Joined(f, i)
    ensures exists k :: 0 <= k < |spans| && spans[k].first <= i - 1 && i <= spans[k].last
  {
    assert Covers(spans, i);
    var k :| 0 <= k < |spans| && spans[k].first <= i <= spans[k].last;
    assert MaximalRun(f, runs[k], spans[k]);
  }

  /** A run lasts from its first frame's time to its last one's, counts them all, and its
      peak is one of their fractions and below none. */
  lemma ToldHow(f: Frames, runs: seq<Run>, spans: seq<Span>, k: nat)
    requires Found(f, runs, spans) && k < |runs|
    ensures |runs| == |spans| && 1 <= spans[k].first <= spans[k].last < |f.t|
    ensures runs[k].start == f.t[spans[k].first] && runs[k].end == f.t[spans[k].last]
    ensures spans[k].first + runs[k].frames == spans[k].last + 1
    ensures exists i :: spans[k].first <= i <= spans[k].last && f.frac[i] == runs[k].peak
    ensures forall i :: spans[k].first <= i <= spans[k].last ==> f.frac[i] <= runs[k].peak
    ensures k > 0 ==> spans[k - 1].last < spans[k].first
  {
    assert MaximalRun(f, runs[k], spans[k]);
  }
}
