/** Splitting a byte stream (Annex B of ITU-T H.264) into NAL units. */
module AnnexB {
  import opened IsoBoxes

  predicate CodeAt(b: Bytes, i: nat) {
    i + 3 <= |b| && b[i] == 0 && b[i + 1] == 0 && b[i + 2] == 1
  }

  /** Where units start: behind each start code, scanned from `i`. */
  function Starts(b: Bytes, i: nat): seq<nat>
    decreases |b| - i
  {
    if i + 3 > |b| then []
    else if CodeAt(b, i) then [i + 3] + Starts(b, i + 3)
    else Starts(b, i + 1)
  }

  /** The end without zeros before it. */
  function Trim(b: Bytes, s: nat, e: nat): (t: nat)
    requires s <= e <= |b|
    ensures s <= t <= e && (t == s || b[t - 1] != 0) && forall k :: t <= k < e ==> b[k] == 0
  {
    if e > s && b[e - 1] == 0 then Trim(b, s, e - 1) else e
  }

  predicate StartsOk(b: Bytes, starts: seq<nat>) {
    && (forall k :: 0 <= k < |starts| ==> 3 <= starts[k] <= |b|)
    && (forall k :: 0 < k < |starts| ==> starts[k - 1] + 3 <= starts[k])
  }

  function UnitEnd(b: Bytes, starts: seq<nat>, k: nat): (e: nat)
    requires StartsOk(b, starts) && k < |starts|
    ensures starts[k] <= e <= |b|
  {
    Trim(b, starts[k], if k + 1 < |starts| then starts[k + 1] - 3 else |b|)
  }

  /** The first `n` units, empty ones left out. */
  function Units(b: Bytes, starts: seq<nat>, n: nat): seq<Bytes>
    requires StartsOk(b, starts) && n <= |starts|
  {
    if n == 0 then []
    else
      var s, e := starts[n - 1], UnitEnd(b, starts, n - 1);
      Units(b, starts, n - 1) + if e > s then [b[s..e]] else []
  }

  lemma OneMoreOk(b: Bytes, s: nat, starts: seq<nat>)
    requires StartsOk(b, starts) && 3 <= s <= |b| && (starts != [] ==> s + 3 <= starts[0])
    ensures StartsOk(b, [s] + starts)
  {
  }

  lemma {:induction false} StartsAreOk(b: Bytes, i: nat)
    ensures StartsOk(b, Starts(b, i))
    ensures Starts(b, i) != [] ==> Starts(b, i)[0] >= i + 3
    decreases |b| - i
  {
    if i + 3 <= |b| {
      if CodeAt(b, i) {
        StartsAreOk(b, i + 3);
        OneMoreOk(b, i + 3, Starts(b, i + 3));
      } else {
        StartsAreOk(b, i + 1);
      }
    }
  }

  ghost function NalUnits(b: Bytes): seq<Bytes> {
    StartsAreOk(b, 0);
    Units(b, Starts(b, 0), |Starts(b, 0)|)
  }

  method FindStarts(b: Bytes) returns (starts: seq<nat>)
    ensures starts == Starts(b, 0)
  {
    starts := [];
    var i := 0;
    while i + 3 <= |b|
      invariant starts + Starts(b, i) == Starts(b, 0)
      decreases |b| - i
    {
      if b[i] == 0 && b[i + 1] == 0 && b[i + 2] == 1 {
        Assoc(starts, [i + 3], Starts(b, i + 3));
        starts := starts + [i + 3];
        i := i + 3;
      } else {
        i := i + 1;
      }
    }
  }

  /** The scan: one pass over the buffer, a unit cut at each start code. */
  method SplitNals(b: Bytes) returns (out: seq<Bytes>)
    ensures out == NalUnits(b)
  {
    var starts := FindStarts(b);
    StartsAreOk(b, 0);
    out := [];
    for k := 0 to |starts|
      invariant out == Units(b, starts, k)
    {
      var s := starts[k];
      var stop := if k + 1 < |starts| then starts[k + 1] - 3 else |b|;
      var e := stop;
      while e > s && b[e - 1] == 0
        invariant s <= e <= stop && Trim(b, s, e) == Trim(b, s, stop)
      {
        e := e - 1;
      }
      UnitsStep(b, starts, k, s, e);
      if e > s {
        out := out + [b[s..e]];
      }
    }
  }

  lemma UnitsStep(b: Bytes, starts: seq<nat>, k: nat, s: nat, e: nat)
    requires StartsOk(b, starts) && k < |starts| && s == starts[k] && e == UnitEnd(b, starts, k)
    ensures Units(b, starts, k + 1) == Units(b, starts, k) + if e > s then [b[s..e]] else []
  {
  }

  // ---------- joining and splitting ----------

  /** What a NAL unit looks like: not empty, no start code inside, no zero at the end. */
  predicate Proper(nal: Bytes) {
    nal != [] && nal[|nal| - 1] != 0 && forall i :: 0 <= i < |nal| ==> !CodeAt(nal, i)
  }

  function Zeros(n: nat): Bytes {
    seq(n, _ => 0)
  }

  /** A start code of 3 bytes behind any number of zeros. */
  function StartCode(zeros: nat): Bytes {
    Zeros(zeros) + [0, 0, 1]
  }

  /** Units behind start codes, and zeros at the end. */
  function Join(nals: seq<Bytes>, zeros: seq<nat>, tail: nat): Bytes
    requires |zeros| == |nals|
  {
    if nals == [] then Zeros(tail) else StartCode(zeros[0]) + nals[0] + Join(nals[1..], zeros[1..], tail)
  }

  /** Where the units of a join that begins at `at` start. */
  function StartList(at: nat, nals: seq<Bytes>, zeros: seq<nat>): (l: seq<nat>)
    requires |zeros| == |nals|
    ensures |l| == |nals|
    decreases |nals|
  {
    if nals == [] then []
    else [at + zeros[0] + 3] + StartList(at + zeros[0] + 3 + |nals[0]|, nals[1..], zeros[1..])
  }

  lemma {:induction false} Skip(b: Bytes, i: nat, j: nat)
    requires i <= j <= |b| && forall k :: i <= k < j ==> !CodeAt(b, k)
    ensures Starts(b, i) == Starts(b, j)
    decreases j - i
  {
    if i < j && i + 3 <= |b| {
      Skip(b, i + 1, j);
    }
  }

  /** `part` lies in `b` at `i`. */
  predicate Has(b: Bytes, i: nat, part: Bytes) {
    i + |part| <= |b| && b[i..i + |part|] == part
  }

  lemma Peek(b: Bytes, i: nat, part: Bytes, k: nat)
    requires Has(b, i, part) && i <= k < i + |part|
    ensures b[k] == part[k - i]
  {
    assert b[i..i + |part|][k - i] == b[k];
  }

  lemma NoCodeInZeros(b: Bytes, i: nat, z: nat, k: nat)
    requires Has(b, i, StartCode(z)) && i <= k < i + z
    ensures !CodeAt(b, k)
  {
    Peek(b, i, StartCode(z), k + 2);
  }

  lemma CodeBehindZeros(b: Bytes, i: nat, z: nat)
    requires Has(b, i, StartCode(z))
    ensures CodeAt(b, i + z)
  {
    Peek(b, i, StartCode(z), i + z);
    Peek(b, i, StartCode(z), i + z + 1);
    Peek(b, i, StartCode(z), i + z + 2);
  }

  lemma TakeCode(b: Bytes, i: nat)
    requires CodeAt(b, i)
    ensures Starts(b, i) == [i + 3] + Starts(b, i + 3)
  {
  }

  lemma SkipCode(b: Bytes, i: nat, z: nat)
    requires Has(b, i, StartCode(z))
    ensures Starts(b, i) == [i + z + 3] + Starts(b, i + z + 3)
  {
    forall k | i <= k < i + z ensures !CodeAt(b, k) {
      NoCodeInZeros(b, i, z, k);
    }
    Skip(b, i, i + z);
    CodeBehindZeros(b, i, z);
    TakeCode(b, i + z);
  }

  lemma NoCodeInNal(b: Bytes, i: nat, nal: Bytes, k: nat)
    requires Has(b, i, nal) && Proper(nal) && i <= k < i + |nal|
    ensures !CodeAt(b, k)
  {
    assert !CodeAt(nal, k - i);
    Peek(b, i, nal, k);
    if k + 1 < i + |nal| {
      Peek(b, i, nal, k + 1);
    }
    if k + 2 < i + |nal| {
      Peek(b, i, nal, k + 2);
    }
  }

  lemma SkipNal(b: Bytes, i: nat, nal: Bytes)
    requires Has(b, i, nal) && Proper(nal)
    ensures Starts(b, i) == Starts(b, i + |nal|)
  {
    forall k | i <= k < i + |nal| ensures !CodeAt(b, k) {
      NoCodeInNal(b, i, nal, k);
    }
    Skip(b, i, i + |nal|);
  }

  lemma SkipTail(b: Bytes, i: nat, tail: nat)
    requires i <= |b| && b[i..] == Zeros(tail)
    ensures Starts(b, i) == []
  {
    forall k | i <= k < |b| ensures !CodeAt(b, k) {
      if k + 3 <= |b| {
        assert b[i..][k - i + 2] == 0;
      }
    }
    Skip(b, i, |b|);
  }

  predicate AllProper(nals: seq<Bytes>) {
    forall k :: 0 <= k < |nals| ==> Proper(nals[k])
  }

  lemma Peel(b: Bytes, i: nat, code: Bytes, nal: Bytes, rest: Bytes)
    requires i <= |b| && b[i..] == code + nal + rest
    ensures Has(b, i, code) && Has(b, i + |code|, nal) && b[i + |code| + |nal|..] == rest
  {
    assert b[i..][..|code|] == code && b[i..][|code|..|code| + |nal|] == nal && b[i..][|code| + |nal|..] == rest;
  }

  lemma PeelJoin(b: Bytes, i: nat, nals: seq<Bytes>, zeros: seq<nat>, tail: nat, j: nat)
    requires |zeros| == |nals| && nals != [] && i <= |b| && b[i..] == Join(nals, zeros, tail)
    requires j == i + zeros[0] + 3 + |nals[0]|
    ensures Has(b, i, StartCode(zeros[0])) && Has(b, i + zeros[0] + 3, nals[0])
    ensures j <= |b| && b[j..] == Join(nals[1..], zeros[1..], tail)
  {
    Peel(b, i, StartCode(zeros[0]), nals[0], Join(nals[1..], zeros[1..], tail));
  }

  /** The first unit of a join, and what is behind it. */
  lemma JoinStep(b: Bytes, i: nat, nal: Bytes, z: nat, j: nat)
    requires Has(b, i, StartCode(z)) && Has(b, i + z + 3, nal) && Proper(nal) && j == i + z + 3 + |nal|
    ensures Starts(b, i) == [i + z + 3] + Starts(b, j)
  {
    SkipCode(b, i, z);
    SkipNal(b, i + z + 3, nal);
  }

  lemma StartsStep(b: Bytes, i: nat, nals: seq<Bytes>, zeros: seq<nat>, j: nat)
    requires |zeros| == |nals| && nals != [] && Proper(nals[0]) && j == i + zeros[0] + 3 + |nals[0]|
    requires Has(b, i, StartCode(zeros[0])) && Has(b, i + zeros[0] + 3, nals[0])
    requires Starts(b, j) == StartList(j, nals[1..], zeros[1..])
    ensures Starts(b, i) == StartList(i, nals, zeros)
  {
    JoinStep(b, i, nals[0], zeros[0], j);
  }

  lemma {:induction false} StartsOfJoin(b: Bytes, i: nat, nals: seq<Bytes>, zeros: seq<nat>, tail: nat)
    requires |zeros| == |nals| && AllProper(nals) && i <= |b| && b[i..] == Join(nals, zeros, tail)
    ensures Starts(b, i) == StartList(i, nals, zeros)
    decreases |nals|
  {
    if nals == [] {
      SkipTail(b, i, tail);
    } else {
      var j := i + zeros[0] + 3 + |nals[0]|;
      PeelJoin(b, i, nals, zeros, tail, j);
      StartsOfJoin(b, j, nals[1..], zeros[1..], tail);
      StartsStep(b, i, nals, zeros, j);
    }
  }

  /** Unit `k` of a join is there, and only zeros come between it and the next code. */
  predicate Placed(b: Bytes, starts: seq<nat>, nals: seq<Bytes>, k: nat) {
    && k < |starts| == |nals|
    && starts[k] + |nals[k]| <= (if k + 1 < |starts| then starts[k + 1] - 3 else |b|) <= |b|
    && b[starts[k]..starts[k] + |nals[k]|] == nals[k]
    && forall i :: starts[k] + |nals[k]| <= i < (if k + 1 < |starts| then starts[k + 1] - 3 else |b|) ==> b[i] == 0
  }

  lemma PlacedFirst(b: Bytes, i: nat, nals: seq<Bytes>, zeros: seq<nat>, tail: nat)
    requires |zeros| == |nals| > 0 && i <= |b| && b[i..] == Join(nals, zeros, tail)
    ensures Placed(b, StartList(i, nals, zeros), nals, 0)
  {
    var code, nal, rest := StartCode(zeros[0]), nals[0], Join(nals[1..], zeros[1..], tail);
    Peel(b, i, code, nal, rest);
    var e := i + |code| + |nal|;
    LeadingZeros(nals[1..], zeros[1..], tail);
    var stop := if |nals| == 1 then |b| else e + zeros[1];
    forall k | e <= k < stop ensures b[k] == 0 {
      assert b[k] == rest[k - e];
    }
  }

  lemma LeadingZeros(nals: seq<Bytes>, zeros: seq<nat>, tail: nat)
    requires |zeros| == |nals|
    ensures var j, z := Join(nals, zeros, tail), if nals == [] then tail else zeros[0];
      && (if nals == [] then |j| == z else |j| >= z + 3)
      && forall k :: 0 <= k < z ==> j[k] == 0
  {
    if nals != [] {
      var code := StartCode(zeros[0]);
      assert forall k :: 0 <= k < zeros[0] ==> code[k] == 0;
    }
  }

  lemma {:induction false} PlacedAll(b: Bytes, i: nat, nals: seq<Bytes>, zeros: seq<nat>, tail: nat, k: nat)
    requires |zeros| == |nals| && k < |nals| && i <= |b| && b[i..] == Join(nals, zeros, tail)
    ensures Placed(b, StartList(i, nals, zeros), nals, k)
    decreases |nals|
  {
    if k == 0 {
      PlacedFirst(b, i, nals, zeros, tail);
    } else {
      var code, nal := StartCode(zeros[0]), nals[0];
      Peel(b, i, code, nal, Join(nals[1..], zeros[1..], tail));
      PlacedAll(b, i + |code| + |nal|, nals[1..], zeros[1..], tail, k - 1);
    }
  }

  lemma UnitPlaced(b: Bytes, starts: seq<nat>, nals: seq<Bytes>, k: nat)
    requires StartsOk(b, starts) && Placed(b, starts, nals, k) && Proper(nals[k])
    ensures UnitEnd(b, starts, k) == starts[k] + |nals[k]|
  {
    Peek(b, starts[k], nals[k], starts[k] + |nals[k]| - 1);
  }

  lemma PlacedUnit(b: Bytes, starts: seq<nat>, nals: seq<Bytes>, k: nat)
    requires StartsOk(b, starts) && Placed(b, starts, nals, k) && Proper(nals[k])
    ensures Units(b, starts, k + 1) == Units(b, starts, k) + [nals[k]]
  {
    UnitPlaced(b, starts, nals, k);
    UnitsStep(b, starts, k, starts[k], starts[k] + |nals[k]|);
  }

  predicate AllPlaced(b: Bytes, starts: seq<nat>, nals: seq<Bytes>) {
    forall k :: 0 <= k < |nals| ==> Placed(b, starts, nals, k)
  }

  lemma {:induction false} UnitsPlaced(b: Bytes, starts: seq<nat>, nals: seq<Bytes>, n: nat)
    requires StartsOk(b, starts) && AllProper(nals) && n <= |starts| == |nals| && AllPlaced(b, starts, nals)
    ensures Units(b, starts, n) == nals[..n]
  {
    if n > 0 {
      UnitsPlaced(b, starts, nals, n - 1);
      PlacedUnit(b, starts, nals, n - 1);
      assert nals[..n] == nals[..n - 1] + [nals[n - 1]];
    }
  }

  /** Splitting undoes joining, whatever zeros lead the start codes or trail the stream. */
  lemma SplitOfJoin(nals: seq<Bytes>, zeros: seq<nat>, tail: nat)
    requires |zeros| == |nals| && AllProper(nals)
    ensures NalUnits(Join(nals, zeros, tail)) == nals
  {
    var b := Join(nals, zeros, tail);
    assert b[0..] == b;
    StartsOfJoin(b, 0, nals, zeros, tail);
    StartsAreOk(b, 0);
    forall k | 0 <= k < |nals| ensures Placed(b, Starts(b, 0), nals, k) {
      PlacedAll(b, 0, nals, zeros, tail, k);
    }
    UnitsPlaced(b, Starts(b, 0), nals, |nals|);
    assert nals[..|nals|] == nals;
  }

  /** The scan misses no start code. */
  lemma {:induction false} AllFound(b: Bytes, i: nat, p: nat) returns (k: nat)
    requires CodeAt(b, p) && i <= p
    ensures k < |Starts(b, i)| && Starts(b, i)[k] == p + 3
    decreases |b| - i
  {
    if i == p {
      k := 0;
    } else if CodeAt(b, i) {
      k := AllFound(b, i + 3, p);
      k := k + 1;
    } else {
      k := AllFound(b, i + 1, p);
    }
  }

  lemma {:induction false} Sorted(b: Bytes, starts: seq<nat>, j: nat, k: nat)
    requires StartsOk(b, starts) && j < k < |starts|
    ensures starts[j] + 3 <= starts[k]
  {
    if j + 1 < k {
      Sorted(b, starts, j, k - 1);
    }
  }

  lemma NoCodeInUnit(b: Bytes, starts: seq<nat>, n: nat, p: nat)
    requires starts == Starts(b, 0) && StartsOk(b, starts) && n < |starts|
    requires starts[n] <= p && p + 3 <= UnitEnd(b, starts, n)
    ensures !CodeAt(b, p)
  {
    if CodeAt(b, p) {
      var k := AllFound(b, 0, p);
      if k < n {
        Sorted(b, starts, k, n);
      } else if n < k && n + 1 < k {
        Sorted(b, starts, n + 1, k);
      }
    }
  }

  /** Unit `n`, if it is not empty, is a NAL unit. */
  predicate UnitProper(b: Bytes, starts: seq<nat>, n: nat)
    requires StartsOk(b, starts) && n < |starts|
  {
    starts[n] < UnitEnd(b, starts, n) ==> Proper(b[starts[n]..UnitEnd(b, starts, n)])
  }

  lemma UnitIsProper(b: Bytes, starts: seq<nat>, n: nat)
    requires starts == Starts(b, 0) && StartsOk(b, starts) && n < |starts|
    ensures UnitProper(b, starts, n)
  {
    var s, e := starts[n], UnitEnd(b, starts, n);
    forall i | 0 <= i < e - s ensures !CodeAt(b[s..e], i) {
      if i + 3 <= e - s {
        NoCodeInUnit(b, starts, n, s + i);
      }
    }
  }

  lemma ProperMore(nals: seq<Bytes>, nal: Bytes)
    requires AllProper(nals) && Proper(nal)
    ensures AllProper(nals + [nal])
  {
  }

  lemma {:induction false} UnitsProper(b: Bytes, starts: seq<nat>, n: nat)
    requires StartsOk(b, starts) && n <= |starts| && forall k :: 0 <= k < |starts| ==> UnitProper(b, starts, k)
    ensures AllProper(Units(b, starts, n))
  {
    if n > 0 {
      var before, s, e := Units(b, starts, n - 1), starts[n - 1], UnitEnd(b, starts, n - 1);
      UnitsProper(b, starts, n - 1);
      UnitsStep(b, starts, n - 1, s, e);
      assert UnitProper(b, starts, n - 1);
      if e > s {
        ProperMore(before, b[s..e]);
      } else {
        assert Units(b, starts, n) == before;
      }
    }
  }

  lemma NalUnitsProper(b: Bytes)
    ensures AllProper(NalUnits(b))
  {
    StartsAreOk(b, 0);
    forall k | 0 <= k < |Starts(b, 0)| ensures UnitProper(b, Starts(b, 0), k) {
      UnitIsProper(b, Starts(b, 0), k);
    }
    UnitsProper(b, Starts(b, 0), |Starts(b, 0)|);
  }

  /** Whatever is split, its units are NAL units, and joining them again loses nothing. */
  lemma JoinOfSplit(b: Bytes, zeros: seq<nat>, tail: nat)
    requires |zeros| == |NalUnits(b)|
    ensures AllProper(NalUnits(b)) && NalUnits(Join(NalUnits(b), zeros, tail)) == NalUnits(b)
  {
    NalUnitsProper(b);
    SplitOfJoin(NalUnits(b), zeros, tail);
  }
}
