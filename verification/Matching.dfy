/** What a layout plan means, said of the displays and monitors alone: who is paired with
    whom, which layouts are refused and why, and which display is the primary. */
module Matching {
  import opened Wrappers
  import opened Layout

  // ---------- who is paired with whom ----------

  /** `m` is the first monitor with display `i`'s key. */
  predicate Keyed(heads: seq<HeadMode>, monitors: seq<Monitor>, i: nat, m: nat)
    requires i < |heads|
  {
    && m < |monitors| && monitors[m].key == heads[i].key
    && forall k :: 0 <= k < m ==> monitors[k].key != heads[i].key
  }

  /** No monitor has display `i`'s key. */
  predicate Keyless(heads: seq<HeadMode>, monitors: seq<Monitor>, i: nat)
    requires i < |heads|
  {
    forall m :: 0 <= m < |monitors| ==> monitors[m].key != heads[i].key
  }

  /** No display has monitor `m` by its key. */
  predicate Unclaimed(heads: seq<HeadMode>, monitors: seq<Monitor>, m: nat) {
    forall i :: 0 <= i < |heads| ==> !Keyed(heads, monitors, i, m)
  }

  /** `i` is the only display that no monitor has the key of, and `m` the only monitor that
      no display claims. */
  predicate LeftOver(heads: seq<HeadMode>, monitors: seq<Monitor>, i: nat, m: nat)
    requires i < |heads|
  {
    && m < |monitors|
    && (forall j :: 0 <= j < |heads| ==> (Keyless(heads, monitors, j) <==> j == i))
    && (forall k :: 0 <= k < |monitors| ==> (Unclaimed(heads, monitors, k) <==> k == m))
  }

  predicate Paired(heads: seq<HeadMode>, monitors: seq<Monitor>, i: nat, m: nat)
    requires i < |heads|
  {
    Keyed(heads, monitors, i, m) || LeftOver(heads, monitors, i, m)
  }

  lemma KeyedIs(heads: seq<HeadMode>, monitors: seq<Monitor>, i: nat, m: nat)
    requires i < |heads|
    ensures ByKey(heads, monitors)[i] == Some(m) <==> Keyed(heads, monitors, i, m)
    ensures ByKey(heads, monitors)[i] == None <==> Keyless(heads, monitors, i)
  {
    FirstIs(monitors, heads[i].key, 0, m);
  }

  lemma {:induction false} FirstIs(monitors: seq<Monitor>, key: string, from: nat, m: nat)
    requires from <= |monitors|
    ensures Position(monitors, key, from) == Some(m) <==>
      from <= m < |monitors| && monitors[m].key == key && forall k :: from <= k < m ==> monitors[k].key != key
    decreases |monitors| - from
  {
    if from < |monitors| && monitors[from].key != key {
      FirstIs(monitors, key, from + 1, m);
    }
  }

  lemma UnclaimedIs(heads: seq<HeadMode>, monitors: seq<Monitor>, m: nat)
    ensures Taken(ByKey(heads, monitors), m) <==> !Unclaimed(heads, monitors, m)
  {
    var pair := ByKey(heads, monitors);
    if Some(m) in pair {
      var i :| 0 <= i < |pair| && pair[i] == Some(m);
      KeyedIs(heads, monitors, i, m);
    }
    if i :| 0 <= i < |heads| && Keyed(heads, monitors, i, m) {
      KeyedIs(heads, monitors, i, m);
      assert pair[i] in pair;
    }
  }

  /** The only free head is what is listed. */
  lemma {:induction false} OneFreeHead(pair: seq<Option<nat>>, n: nat, i: nat)
    requires n <= |pair| && forall j :: 0 <= j < n ==> (pair[j].None? <==> j == i)
    ensures FreeHeads(pair, n) == if i < n then [i] else []
  {
    if n > 0 {
      OneFreeHead(pair, n - 1, i);
    }
  }

  lemma {:induction false} OneFreeMonitor(pair: seq<Option<nat>>, n: nat, m: nat)
    requires forall k :: 0 <= k < n ==> (Taken(pair, k) <==> k != m)
    ensures FreeMonitors(pair, n) == if m < n then [m] else []
  {
    if n > 0 {
      OneFreeMonitor(pair, n - 1, m);
    }
  }

  /** Every free head is listed. */
  lemma {:induction false} FreeHeadListed(pair: seq<Option<nat>>, n: nat, i: nat)
    requires i < n <= |pair| && pair[i].None?
    ensures i in FreeHeads(pair, n)
  {
    if i < n - 1 {
      FreeHeadListed(pair, n - 1, i);
    }
  }

  lemma {:induction false} FreeMonitorListed(pair: seq<Option<nat>>, n: nat, m: nat)
    requires m < n && !Taken(pair, m)
    ensures m in FreeMonitors(pair, n)
  {
    if m < n - 1 {
      FreeMonitorListed(pair, n - 1, m);
    }
  }

  /** A single listed head is the only free one. */
  lemma OnlyHead(pair: seq<Option<nat>>, i: nat)
    ensures FreeHeads(pair, |pair|) == [i] <==> i < |pair| && forall j :: 0 <= j < |pair| ==> (pair[j].None? <==> j == i)
  {
    if FreeHeads(pair, |pair|) == [i] {
      FreeHeadsAre(pair, |pair|, 0);
      forall j | 0 <= j < |pair| && pair[j].None? ensures j == i {
        FreeHeadListed(pair, |pair|, j);
      }
    }
    if i < |pair| && forall j :: 0 <= j < |pair| ==> (pair[j].None? <==> j == i) {
      OneFreeHead(pair, |pair|, i);
    }
  }

  lemma OnlyMonitor(pair: seq<Option<nat>>, n: nat, m: nat)
    ensures FreeMonitors(pair, n) == [m] <==> m < n && forall k :: 0 <= k < n ==> (Taken(pair, k) <==> k != m)
  {
    if FreeMonitors(pair, n) == [m] {
      FreeMonitorsAre(pair, n, 0);
      forall k | 0 <= k < n && !Taken(pair, k) ensures k == m {
        FreeMonitorListed(pair, n, k);
      }
    }
    if m < n && forall k :: 0 <= k < n ==> (Taken(pair, k) <==> k != m) {
      OneFreeMonitor(pair, n, m);
    }
  }

  /** What is left over is what the two lists of free ones hold. */
  lemma LeftOverIs(heads: seq<HeadMode>, monitors: seq<Monitor>, i: nat, m: nat)
    requires i < |heads|
    ensures var pair := ByKey(heads, monitors);
      LeftOver(heads, monitors, i, m) <==> FreeHeads(pair, |heads|) == [i] && FreeMonitors(pair, |monitors|) == [m]
  {
    var pair := ByKey(heads, monitors);
    OnlyHead(pair, i);
    OnlyMonitor(pair, |monitors|, m);
    forall j | 0 <= j < |heads| ensures Keyless(heads, monitors, j) <==> pair[j].None? {
      KeyedIs(heads, monitors, j, 0);
    }
    forall k | 0 <= k < |monitors| ensures Taken(pair, k) <==> !Unclaimed(heads, monitors, k) {
      UnclaimedIs(heads, monitors, k);
    }
  }

  /** Displays are paired with the first monitor of their key; and when one display and one
      monitor are left over, with each other. Nothing else is paired. */
  lemma PairingMeans(heads: seq<HeadMode>, monitors: seq<Monitor>, i: nat, m: nat)
    requires i < |heads|
    ensures Pairing(heads, monitors)[i] == Some(m) <==> Paired(heads, monitors, i, m)
  {
    KeyedIs(heads, monitors, i, m);
    LeftOverIs(heads, monitors, i, m);
    var pair := ByKey(heads, monitors);
    var fh, fm := FreeHeads(pair, |heads|), FreeMonitors(pair, |monitors|);
    if |fh| == 1 && |fm| == 1 {
      FreeHeadsAre(pair, |heads|, 0);
      assert fh == [fh[0]] && fm == [fm[0]];
    }
  }

  // ---------- which layouts are refused ----------

  /** Display `i` has a monitor that is not empty and, to 2 %, of the display's aspect; or it
      has none. */
  predicate Fine(heads: seq<HeadMode>, monitors: seq<Monitor>, i: nat)
    requires i < |heads|
  {
    forall m :: 0 <= m < |monitors| && Paired(heads, monitors, i, m) ==> Sound(heads[i], monitors[m])
  }

  predicate Sound(h: HeadMode, m: Monitor) {
    && m.width > 0 && m.height > 0
    && 50 * (h.width * m.height - h.height * m.width) <= h.height * m.width
    && 50 * (h.height * m.width - h.width * m.height) <= h.height * m.width
  }

  /** All displays before `i` are fine, and `i` is not, because of monitor `m`. */
  predicate FirstBad(heads: seq<HeadMode>, monitors: seq<Monitor>, i: nat, m: nat)
    requires i < |heads|
  {
    && m < |monitors| && Paired(heads, monitors, i, m) && !Sound(heads[i], monitors[m])
    && forall j :: 0 <= j < i ==> Fine(heads, monitors, j)
  }

  predicate NonePairs(heads: seq<HeadMode>, monitors: seq<Monitor>) {
    forall i, m :: 0 <= i < |heads| && 0 <= m < |monitors| ==> !Paired(heads, monitors, i, m)
  }

  predicate Empty(m: Monitor) {
    m.width == 0 || m.height == 0
  }

  lemma FaultIs(heads: seq<HeadMode>, monitors: seq<Monitor>, pair: seq<Option<nat>>, i: nat)
    requires pair == Pairing(heads, monitors) && PairingOk(pair, heads, monitors) && i < |heads|
    ensures Fault(heads, monitors, pair, i) == None <==> Fine(heads, monitors, i)
    ensures forall m :: 0 <= m < |monitors| && Paired(heads, monitors, i, m) ==> pair[i] == Some(m)
    ensures pair[i] != None ==> Paired(heads, monitors, i, pair[i].value)
  {
    forall m | 0 <= m < |monitors| ensures Paired(heads, monitors, i, m) <==> pair[i] == Some(m) {
      PairingMeans(heads, monitors, i, m);
    }
  }

  lemma {:induction false} AllFine(heads: seq<HeadMode>, monitors: seq<Monitor>, pair: seq<Option<nat>>, from: nat)
    requires pair == Pairing(heads, monitors) && PairingOk(pair, heads, monitors) && from <= |heads|
    ensures FirstFault(heads, monitors, pair, from) == None <==> forall i :: from <= i < |heads| ==> Fine(heads, monitors, i)
    decreases |heads| - from
  {
    if from < |heads| {
      FaultIs(heads, monitors, pair, from);
      AllFine(heads, monitors, pair, from + 1);
    }
  }

  lemma {:induction false} FaultOfMonitor(heads: seq<HeadMode>, monitors: seq<Monitor>, pair: seq<Option<nat>>, from: nat)
    requires PairingOk(pair, heads, monitors) && from <= |pair|
    ensures var fault := FirstFault(heads, monitors, pair, from);
      fault != Some(NoDisplay) && fault != Some(NoMatch)
    decreases |pair| - from
  {
    if from < |pair| {
      FaultOfMonitor(heads, monitors, pair, from + 1);
    }
  }

  lemma {:induction false} FirstBadIs(heads: seq<HeadMode>, monitors: seq<Monitor>, pair: seq<Option<nat>>, from: nat, i: nat)
    requires pair == Pairing(heads, monitors) && PairingOk(pair, heads, monitors) && from <= i < |heads|
    requires Fault(heads, monitors, pair, i) != None && forall j :: from <= j < i ==> Fine(heads, monitors, j)
    ensures FirstFault(heads, monitors, pair, from) == Fault(heads, monitors, pair, i)
    decreases i - from
  {
    if from < i {
      FaultIs(heads, monitors, pair, from);
      FirstBadIs(heads, monitors, pair, from + 1, i);
    }
  }

  lemma NonePairsIs(heads: seq<HeadMode>, monitors: seq<Monitor>, pair: seq<Option<nat>>)
    requires pair == Pairing(heads, monitors) && PairingOk(pair, heads, monitors)
    ensures PrimaryOf(monitors, pair) == None <==> NonePairs(heads, monitors)
  {
    NonePaired(monitors, pair);
    forall i, m | 0 <= i < |heads| && 0 <= m < |monitors| ensures Paired(heads, monitors, i, m) <==> pair[i] == Some(m) {
      PairingMeans(heads, monitors, i, m);
    }
  }

  /** A layout is accepted exactly when some display has a monitor and every display's is
      fine; with none, or without displays, it is refused as such. */
  lemma AcceptedWhen(heads: seq<HeadMode>, monitors: seq<Monitor>)
    ensures PlanOf(heads, monitors).Ok? <==>
      heads != [] && !NonePairs(heads, monitors) && forall i :: 0 <= i < |heads| ==> Fine(heads, monitors, i)
    ensures PlanOf(heads, monitors) == Err(NoDisplay) <==> heads == []
    ensures PlanOf(heads, monitors) == Err(NoMatch) <==> heads != [] && NonePairs(heads, monitors)
  {
    PairingIsOk(heads, monitors);
    var pair := Pairing(heads, monitors);
    NonePairsIs(heads, monitors, pair);
    AllFine(heads, monitors, pair, 0);
    FaultOfMonitor(heads, monitors, pair, 0);
  }

  /** Otherwise the first display that is not fine is told of: its monitor if that is empty,
      else the display. */
  lemma RefusedFor(heads: seq<HeadMode>, monitors: seq<Monitor>, i: nat, m: nat)
    requires i < |heads| && FirstBad(heads, monitors, i, m)
    ensures PlanOf(heads, monitors) == Err(if Empty(monitors[m]) then EmptyMonitor(m) else Rotated(i))
  {
    PairingIsOk(heads, monitors);
    var pair := Pairing(heads, monitors);
    assert PrimaryOf(monitors, pair) != None by {
      NonePairsIs(heads, monitors, pair);
    }
    PairingMeans(heads, monitors, i, m);
    FirstBadIs(heads, monitors, pair, 0, i);
  }

  // ---------- the plan ----------

  /** Display `i` has a monitor, which is marked primary. */
  predicate Marked(heads: seq<HeadMode>, monitors: seq<Monitor>, i: nat)
    requires i < |heads|
  {
    exists m :: 0 <= m < |monitors| && Paired(heads, monitors, i, m) && monitors[m].primary
  }

  predicate HasMonitor(heads: seq<HeadMode>, monitors: seq<Monitor>, i: nat)
    requires i < |heads|
  {
    exists m :: 0 <= m < |monitors| && Paired(heads, monitors, i, m)
  }

  lemma CandidateIs(heads: seq<HeadMode>, monitors: seq<Monitor>, pair: seq<Option<nat>>, i: nat)
    requires pair == Pairing(heads, monitors) && PairingOk(pair, heads, monitors) && i < |heads|
    ensures Candidate(monitors, pair, false, i) <==> Marked(heads, monitors, i)
    ensures Candidate(monitors, pair, true, i) <==> HasMonitor(heads, monitors, i)
    ensures pair[i] != None <==> HasMonitor(heads, monitors, i)
  {
    forall m | 0 <= m < |monitors| ensures Paired(heads, monitors, i, m) <==> pair[i] == Some(m) {
      PairingMeans(heads, monitors, i, m);
    }
    if pair[i] != None {
      assert Paired(heads, monitors, i, pair[i].value);
    }
  }

  /** The primary display is the first on a monitor marked primary; without one, the first
      that has a monitor. Exactly the displays without a monitor are not placed. */
  lemma PlanMeans(heads: seq<HeadMode>, monitors: seq<Monitor>, i: nat)
    requires PlanOf(heads, monitors).Ok? && i < |heads|
    ensures var plan := PlanOf(heads, monitors).value;
      && |plan.placement| == |heads|
      && (plan.placement[i] == None <==> !HasMonitor(heads, monitors, i))
      && (plan.primary == i <==>
            if exists k :: 0 <= k < |heads| && Marked(heads, monitors, k)
            then Marked(heads, monitors, i) && forall j :: 0 <= j < i ==> !Marked(heads, monitors, j)
            else HasMonitor(heads, monitors, i) && forall j :: 0 <= j < i ==> !HasMonitor(heads, monitors, j))
  {
    PairingIsOk(heads, monitors);
    var pair := Pairing(heads, monitors);
    forall k | 0 <= k < |heads|
      ensures Candidate(monitors, pair, false, k) <==> Marked(heads, monitors, k)
      ensures Candidate(monitors, pair, true, k) <==> HasMonitor(heads, monitors, k)
    {
      CandidateIs(heads, monitors, pair, k);
    }
    CandidateIs(heads, monitors, pair, i);
    PrimaryMeans(heads, monitors, pair, i);
  }

  lemma PrimaryMeans(heads: seq<HeadMode>, monitors: seq<Monitor>, pair: seq<Option<nat>>, i: nat)
    requires PairingOk(pair, heads, monitors) && i < |heads| && PrimaryOf(monitors, pair) != None
    ensures PrimaryOf(monitors, pair) == Some(i) <==>
      if exists k :: 0 <= k < |heads| && Candidate(monitors, pair, false, k)
      then Candidate(monitors, pair, false, i) && forall j :: 0 <= j < i ==> !Candidate(monitors, pair, false, j)
      else Candidate(monitors, pair, true, i) && forall j :: 0 <= j < i ==> !Candidate(monitors, pair, true, j)
  {
  }
}
