/** Recordings as a directory of stills, and the reader's "a still holds until the next one". */
module Stills {
  import opened Wrappers

  /** A frame's size and raw channels. */
  datatype Image = Image(width: nat, height: nat, raw: seq<int>)

  /** The stills of a directory, by the milliseconds in their names. */
  type Dir = map<nat, Image>

  /** Most levels a channel may differ by in what counts as the same picture. */
  const SAME := 4

  predicate Same(a: Image, b: Image) {
    && a.width == b.width && a.height == b.height && |a.raw| == |b.raw|
    && forall i :: 0 <= i < |a.raw| ==> Abs(a.raw[i] - b.raw[i]) <= SAME
  }

  /** `s` is the last still at or before `ms`. */
  predicate Shows(dir: Dir, ms: nat, s: nat) {
    s in dir && s <= ms && forall k :: k in dir && k <= ms ==> k <= s
  }

  // ---------- the reader ----------

  /** A directory as the reader lists it: in time order, nothing left out. */
  predicate Lists(stills: seq<nat>, dir: Dir) {
    && (forall i, j :: 0 <= i < j < |stills| ==> stills[i] < stills[j])
    && (forall i :: 0 <= i < |stills| ==> stills[i] in dir)
    && (forall s :: s in dir ==> s in stills)
  }

  function Seconds(ms: nat): real {
    ms as real / 1000.0
  }

  /** Half a millisecond. */
  const EPS := 0.0005

  /** The number of stills before the first one later than `t`. */
  function PartitionPoint(stills: seq<nat>, t: real): (n: nat)
    ensures n <= |stills|
    ensures forall i :: 0 <= i < n ==> Seconds(stills[i]) <= t + EPS
    ensures n < |stills| ==> Seconds(stills[n]) > t + EPS
  {
    if stills == [] || Seconds(stills[0]) > t + EPS then 0 else 1 + PartitionPoint(stills[1..], t)
  }

  /** The reader's pick: the last still not later than `t`, and the first one before them all. */
  function Showing(stills: seq<nat>, t: real): nat {
    var n := PartitionPoint(stills, t);
    if n == 0 then 0 else n - 1
  }

  lemma Rounding(a: nat, b: nat)
    ensures Seconds(a) <= Seconds(b) + EPS <==> a <= b
  {
  }

  /** At a time in whole milliseconds the comparison is exact. */
  lemma PartitionMs(stills: seq<nat>, ms: nat)
    ensures var n := PartitionPoint(stills, Seconds(ms));
      (forall i :: 0 <= i < n ==> stills[i] <= ms) && (n < |stills| ==> stills[n] > ms)
  {
    var n := PartitionPoint(stills, Seconds(ms));
    forall i | 0 <= i < n ensures stills[i] <= ms {
      Rounding(stills[i], ms);
    }
    if n < |stills| {
      Rounding(stills[n], ms);
    }
  }

  /** The reader picks the still that was last written by a time in whole milliseconds. */
  lemma ShowingShows(stills: seq<nat>, dir: Dir, ms: nat)
    requires Lists(stills, dir) && 0 in dir
    ensures Showing(stills, Seconds(ms)) < |stills| && Shows(dir, ms, stills[Showing(stills, Seconds(ms))])
  {
    var n := PartitionPoint(stills, Seconds(ms));
    PartitionMs(stills, ms);
    var zero :| 0 <= zero < |stills| && stills[zero] == 0;
    assert n > 0;
    LatestShows(stills, dir, ms, n);
  }

  lemma LatestShows(stills: seq<nat>, dir: Dir, ms: nat, n: nat)
    requires Lists(stills, dir) && 0 < n <= |stills|
    requires stills[n - 1] <= ms && (n < |stills| ==> stills[n] > ms)
    ensures Shows(dir, ms, stills[n - 1])
  {
    forall k | k in dir && k <= ms ensures k <= stills[n - 1] {
      var i :| 0 <= i < |stills| && stills[i] == k;
      assert i < n;
    }
  }

  /** A comparison's range: it begins at the reader's pick for `from`, ends with what was
      written by `to`, and always has one still. */
  function Window(stills: seq<nat>, from: real, to: real): (w: (nat, nat))
    requires stills != []
    ensures w.0 < w.1 <= |stills|
  {
    var first, last := Showing(stills, from), PartitionPoint(stills, to);
    (first, if last < first + 1 then first + 1 else last)
  }

  /** Exactly the stills on show at some time of the interval are compared. */
  lemma WindowShown(stills: seq<nat>, from: nat, to: nat, i: nat)
    requires (forall j, k :: 0 <= j < k < |stills| ==> stills[j] < stills[k])
    requires stills != [] && stills[0] == 0 && from <= to && i < |stills|
    ensures var w := Window(stills, Seconds(from), Seconds(to));
      w.0 <= i < w.1 <==> stills[i] <= to && (i + 1 < |stills| ==> stills[i + 1] > from)
  {
    PartitionMs(stills, from);
    PartitionMs(stills, to);
  }
}
