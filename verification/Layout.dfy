/** Planning the desktop: compositor monitors matched to displays, scaled so that the
    primary display is 1:1. */
module Layout {
  import opened Wrappers
  import opened Arith
  import opened Geometry

  /** A display's connector key and mode. */
  datatype HeadMode = HeadMode(key: string, width: nat, height: nat)

  datatype Monitor = Monitor(key: string, x: int, y: int, width: nat, height: nat, primary: bool)

  datatype Plan = Plan(primary: nat, placement: seq<Option<Rect>>)

  datatype LayoutError = NoDisplay | NoMatch | EmptyMonitor(monitor: nat) | Rotated(head: nat)

  // ---------- matching ----------

  /** The first monitor with a key. */
  function Position(monitors: seq<Monitor>, key: string, from: nat): (p: Option<nat>)
    requires from <= |monitors|
    ensures p.Some? ==> from <= p.value < |monitors| && monitors[p.value].key == key
    ensures p.None? ==> forall i :: from <= i < |monitors| ==> monitors[i].key != key
    decreases |monitors| - from
  {
    if from == |monitors| then None
    else if monitors[from].key == key then Some(from)
    else Position(monitors, key, from + 1)
  }

  function ByKey(heads: seq<HeadMode>, monitors: seq<Monitor>): (pair: seq<Option<nat>>)
    ensures |pair| == |heads|
  {
    seq(|heads|, i requires 0 <= i < |heads| => Position(monitors, heads[i].key, 0))
  }

  predicate Taken(pair: seq<Option<nat>>, m: nat) {
    Some(m) in pair
  }

  /** The heads without a monitor, among the first `n`. */
  function FreeHeads(pair: seq<Option<nat>>, n: nat): seq<nat>
    requires n <= |pair|
  {
    if n == 0 then [] else FreeHeads(pair, n - 1) + if pair[n - 1].None? then [n - 1] else []
  }

  /** The monitors without a head, among the first `n`. */
  function FreeMonitors(pair: seq<Option<nat>>, n: nat): seq<nat> {
    if n == 0 then [] else FreeMonitors(pair, n - 1) + if Taken(pair, n - 1) then [] else [n - 1]
  }

  /** What keys leave unpaired on both sides is paired if it is one and one. */
  function Pairing(heads: seq<HeadMode>, monitors: seq<Monitor>): (pair: seq<Option<nat>>)
    ensures |pair| == |heads|
  {
    var pair := ByKey(heads, monitors);
    var fh, fm := FreeHeads(pair, |heads|), FreeMonitors(pair, |monitors|);
    if |fh| == 1 && |fm| == 1 && fh[0] < |pair| then pair[fh[0] := Some(fm[0])] else pair
  }

  predicate PairingOk(pair: seq<Option<nat>>, heads: seq<HeadMode>, monitors: seq<Monitor>) {
    && |pair| == |heads|
    && (forall i :: 0 <= i < |pair| && pair[i].Some? ==> pair[i].value < |monitors|)
  }

  predicate DistinctKeys(heads: seq<HeadMode>) {
    forall i, j :: 0 <= i < j < |heads| ==> heads[i].key != heads[j].key
  }

  lemma {:induction false} FreeHeadsAre(pair: seq<Option<nat>>, n: nat, k: nat)
    requires n <= |pair| && k < |FreeHeads(pair, n)|
    ensures FreeHeads(pair, n)[k] < n && pair[FreeHeads(pair, n)[k]].None?
  {
    if k < |FreeHeads(pair, n - 1)| {
      FreeHeadsAre(pair, n - 1, k);
    }
  }

  lemma {:induction false} FreeMonitorsAre(pair: seq<Option<nat>>, n: nat, k: nat)
    requires k < |FreeMonitors(pair, n)|
    ensures FreeMonitors(pair, n)[k] < n && !Taken(pair, FreeMonitors(pair, n)[k])
  {
    if k < |FreeMonitors(pair, n - 1)| {
      FreeMonitorsAre(pair, n - 1, k);
    }
  }

  /** The matching is one to one when the displays' keys differ, and follows the keys. */
  lemma PairingInjective(heads: seq<HeadMode>, monitors: seq<Monitor>, i: nat, j: nat)
    requires DistinctKeys(heads) && i < |heads| && j < |heads| && i != j
    ensures var pair := Pairing(heads, monitors); pair[i].None? || pair[i] != pair[j]
  {
    var pair := ByKey(heads, monitors);
    var fh, fm := FreeHeads(pair, |heads|), FreeMonitors(pair, |monitors|);
    if |fh| == 1 && |fm| == 1 {
      FreeHeadsAre(pair, |heads|, 0);
      FreeMonitorsAre(pair, |monitors|, 0);
      assert pair[i] in pair && pair[j] in pair;
    }
  }

  /** A display whose key a monitor has gets the first such monitor. */
  lemma PairingByKey(heads: seq<HeadMode>, monitors: seq<Monitor>, i: nat)
    requires i < |heads|
    ensures var pair := Pairing(heads, monitors);
      && (pair[i].Some? ==> pair[i].value < |monitors|)
      && (Position(monitors, heads[i].key, 0).Some? ==> pair[i] == Position(monitors, heads[i].key, 0))
  {
    var pair := ByKey(heads, monitors);
    var fh, fm := FreeHeads(pair, |heads|), FreeMonitors(pair, |monitors|);
    if |fh| == 1 && |fm| == 1 {
      FreeHeadsAre(pair, |heads|, 0);
      FreeMonitorsAre(pair, |monitors|, 0);
    }
  }

  // ---------- scaling ----------

  /** `n / d` to the nearest integer, halves away from zero. */
  function Round(n: int, d: nat): int
    requires d > 0
  {
    if n >= 0 then (2 * n + d) / (2 * d) else -((-2 * n + d) / (2 * d))
  }

  /** The aspects differ by more than 2 %. */
  predicate Transformed(h: HeadMode, m: Monitor) {
    50 * Abs(h.width * m.height - h.height * m.width) > h.height * m.width
  }

  /** One aspect over the other, less one. */
  function AspectError(h: HeadMode, m: Monitor): real
    requires h.width > 0 && h.height > 0 && m.width > 0 && m.height > 0
  {
    (h.width as real / h.height as real) / (m.width as real / m.height as real) - 1.0
  }

  lemma RatioOfRatios(x: real, y: real, z: real, w: real, q: real)
    requires x > 0.0 && y > 0.0 && z > 0.0 && w > 0.0 && q == (x / y) / (z / w)
    ensures q * (y * z) == x * w
  {
    var u, v := x / y, z / w;
    assert u * y == x && v * w == z && q * v == u;
    assert q * (y * z) == q * v * (y * w);
    assert u * (y * w) == u * y * w;
  }

  lemma ScaleCompare(e: real, b: real, t: real)
    requires b > 0.0
    ensures e * b > t * b <==> e > t
  {
    if e > t {
      assert (e - t) * b > 0.0;
    } else {
      assert (t - e) * b >= 0.0;
    }
  }

  lemma Distribute(e: real, b: real)
    ensures (e + 1.0) * b == e * b + b && (-e) * b == -(e * b)
  {
  }

  /** A quotient is away from 1 as far as its numerator is from its denominator. */
  lemma ApartAs(e: real, num: real, b: real)
    requires b > 0.0 && (e + 1.0) * b == num
    ensures e > 0.02 || -e > 0.02 <==> num - b > 0.02 * b || b - num > 0.02 * b
  {
    Distribute(e, b);
    ScaleCompare(e, b, 0.02);
    ScaleCompare(-e, b, 0.02);
  }

  /** The test on whole numbers is the one on aspects. */
  lemma TransformedIsAspect(h: HeadMode, m: Monitor)
    requires h.width > 0 && h.height > 0 && m.width > 0 && m.height > 0
    ensures Transformed(h, m) <==> AspectError(h, m) > 0.02 || -AspectError(h, m) > 0.02
  {
    AspectTest(h.width, h.height, m.width, m.height, AspectError(h, m));
  }

  lemma AspectTest(x: nat, y: nat, z: nat, w: nat, e: real)
    requires x > 0 && y > 0 && z > 0 && w > 0 && e == (x as real / y as real) / (z as real / w as real) - 1.0
    ensures 50 * Abs(x * w - y * z) > y * z <==> e > 0.02 || -e > 0.02
  {
    RatioOfRatios(x as real, y as real, z as real, w as real, e + 1.0);
    CastProduct(x, w);
    CastProduct(y, z);
    PositiveProduct(y, z);
    ApartAs(e, (x * w) as real, (y * z) as real);
    FiftiethApart(x * w, y * z, (x * w) as real - (y * z) as real);
  }

  lemma PositiveProduct(i: nat, j: nat)
    requires i > 0 && j > 0
    ensures i * j > 0
  {
  }

  lemma CastProduct(i: nat, j: nat)
    ensures (i * j) as real == i as real * j as real
  {
  }

  lemma FiftiethApart(a: nat, b: nat, diff: real)
    requires diff == a as real - b as real
    ensures 50 * Abs(a - b) > b <==> diff > 0.02 * b as real || -diff > 0.02 * b as real
  {
  }

  /** What is wrong with a head's monitor, if anything. */
  function Fault(heads: seq<HeadMode>, monitors: seq<Monitor>, pair: seq<Option<nat>>, i: nat): Option<LayoutError>
    requires PairingOk(pair, heads, monitors) && i < |pair|
  {
    if pair[i].None? then None
    else
      var m := monitors[pair[i].value];
      if m.width == 0 || m.height == 0 then Some(EmptyMonitor(pair[i].value))
      else if Transformed(heads[i], m) then Some(Rotated(i))
      else None
  }

  /** The first fault among the heads from `i` on. */
  function FirstFault(heads: seq<HeadMode>, monitors: seq<Monitor>, pair: seq<Option<nat>>, i: nat): Option<LayoutError>
    requires PairingOk(pair, heads, monitors) && i <= |pair|
    decreases |pair| - i
  {
    if i == |pair| then None
    else if Fault(heads, monitors, pair, i).Some? then Fault(heads, monitors, pair, i)
    else FirstFault(heads, monitors, pair, i + 1)
  }

  /** A head with a monitor (`any`), or with a primary one. */
  predicate Candidate(monitors: seq<Monitor>, pair: seq<Option<nat>>, any: bool, i: nat) {
    i < |pair| && pair[i].Some? && pair[i].value < |monitors| && (any || monitors[pair[i].value].primary)
  }

  /** The first such head from `i` on. */
  function FirstPaired(monitors: seq<Monitor>, pair: seq<Option<nat>>, any: bool, i: nat): (p: Option<nat>)
    requires (forall k :: 0 <= k < |pair| && pair[k].Some? ==> pair[k].value < |monitors|) && i <= |pair|
    ensures p.Some? ==> i <= p.value < |pair| && Candidate(monitors, pair, any, p.value)
    ensures forall k :: i <= k < (if p.Some? then p.value else |pair|) ==> !Candidate(monitors, pair, any, k)
    decreases |pair| - i
  {
    if i == |pair| then None
    else if Candidate(monitors, pair, any, i) then Some(i)
    else FirstPaired(monitors, pair, any, i + 1)
  }

  /** A monitor's rectangle in the primary display's pixels. */
  function Place(h: HeadMode, m: Monitor, isPrimary: bool, width: nat, pm: Monitor): Rect
    requires pm.width > 0
  {
    var x, y := Round(m.x * width, pm.width), Round(m.y * width, pm.width);
    if isPrimary then Rect(x, y, h.width, h.height)
    else Rect(x, y, Max(Round(m.width * width, pm.width), 1), Max(Round(m.height * width, pm.width), 1))
  }

  function Placed(heads: seq<HeadMode>, monitors: seq<Monitor>, pair: seq<Option<nat>>, primary: nat): seq<Option<Rect>>
    requires PairingOk(pair, heads, monitors) && primary < |pair| && pair[primary].Some?
    requires monitors[pair[primary].value].width > 0
  {
    seq(|pair|, i requires 0 <= i < |pair| =>
      if pair[i].None? then None
      else Some(Place(heads[i], monitors[pair[i].value], i == primary, heads[primary].width, monitors[pair[primary].value])))
  }

  function PrimaryOf(monitors: seq<Monitor>, pair: seq<Option<nat>>): Option<nat>
    requires forall k :: 0 <= k < |pair| && pair[k].Some? ==> pair[k].value < |monitors|
  {
    var marked := FirstPaired(monitors, pair, false, 0);
    if marked.Some? then marked else FirstPaired(monitors, pair, true, 0)
  }

  lemma NonePaired(monitors: seq<Monitor>, pair: seq<Option<nat>>)
    requires forall k :: 0 <= k < |pair| && pair[k].Some? ==> pair[k].value < |monitors|
    ensures PrimaryOf(monitors, pair).None? <==> forall i :: 0 <= i < |pair| ==> pair[i].None?
  {
    forall i | 0 <= i < |pair| && pair[i].Some? ensures Candidate(monitors, pair, true, i) {
    }
  }

  /** What the planner answers. */
  function PlanOf(heads: seq<HeadMode>, monitors: seq<Monitor>): Result<Plan, LayoutError> {
    if heads == [] then Err(NoDisplay)
    else
      var pair := Pairing(heads, monitors);
      PairingIsOk(heads, monitors);
      var primary := PrimaryOf(monitors, pair);
      var fault := FirstFault(heads, monitors, pair, 0);
      if primary.None? then Err(NoMatch)
      else if fault.Some? then Err(fault.value)
      else
        NoFault(heads, monitors, pair, 0, primary.value);
        Ok(Plan(primary.value, Placed(heads, monitors, pair, primary.value)))
  }

  lemma PairingIsOk(heads: seq<HeadMode>, monitors: seq<Monitor>)
    ensures PairingOk(Pairing(heads, monitors), heads, monitors)
  {
    forall i | 0 <= i < |heads| ensures var p := Pairing(heads, monitors); p[i].Some? ==> p[i].value < |monitors| {
      PairingByKey(heads, monitors, i);
    }
  }

  lemma {:induction false} NoFault(heads: seq<HeadMode>, monitors: seq<Monitor>, pair: seq<Option<nat>>, from: nat, i: nat)
    requires PairingOk(pair, heads, monitors) && from <= i < |pair| && pair[i].Some?
    requires FirstFault(heads, monitors, pair, from).None?
    ensures monitors[pair[i].value].width > 0 && monitors[pair[i].value].height > 0
    ensures !Transformed(heads[i], monitors[pair[i].value])
    decreases |pair| - from
  {
    if from < i {
      NoFault(heads, monitors, pair, from + 1, i);
    }
  }

  // ---------- the planner ----------

  /** Heads matched by key, and which monitors that used. */
  method MatchKeys(heads: seq<HeadMode>, monitors: seq<Monitor>) returns (pair: seq<Option<nat>>, used: seq<bool>)
    ensures pair == ByKey(heads, monitors) && |used| == |monitors|
    ensures forall m :: 0 <= m < |monitors| ==> (used[m] <==> Taken(pair, m))
  {
    pair := [];
    used := seq(|monitors|, _ => false);
    for hi := 0 to |heads|
      invariant |pair| == hi && |used| == |monitors|
      invariant forall i :: 0 <= i < hi ==> pair[i] == Position(monitors, heads[i].key, 0)
      invariant forall m :: 0 <= m < |monitors| ==> (used[m] <==> Taken(pair, m))
    {
      var mi := 0;
      while mi < |monitors| && monitors[mi].key != heads[hi].key
        invariant mi <= |monitors|
        invariant Position(monitors, heads[hi].key, mi) == Position(monitors, heads[hi].key, 0)
      {
        mi := mi + 1;
      }
      if mi < |monitors| {
        pair := pair + [Some(mi)];
        used := used[mi := true];
      } else {
        pair := pair + [None];
      }
    }
  }

  /** The pair left over by elimination, if there is just one. */
  method Eliminate(heads: seq<HeadMode>, monitors: seq<Monitor>, pair: seq<Option<nat>>, used: seq<bool>)
    returns (paired: seq<Option<nat>>)
    requires pair == ByKey(heads, monitors) && |used| == |monitors|
    requires forall m :: 0 <= m < |monitors| ==> (used[m] <==> Taken(pair, m))
    ensures paired == Pairing(heads, monitors)
  {
    var freeHeads, freeMons := [], [];
    for i := 0 to |heads|
      invariant freeHeads == FreeHeads(pair, i)
    {
      if pair[i].None? {
        freeHeads := freeHeads + [i];
      }
    }
    for i := 0 to |monitors|
      invariant freeMons == FreeMonitors(pair, i)
    {
      if !used[i] {
        freeMons := freeMons + [i];
      }
    }
    paired := pair;
    if |freeHeads| == 1 && |freeMons| == 1 {
      FreeHeadsAre(pair, |heads|, 0);
      paired := paired[freeHeads[0] := Some(freeMons[0])];
    }
  }

  /** Match, check, choose the primary and place. */
  method PlanLayout(heads: seq<HeadMode>, monitors: seq<Monitor>) returns (r: Result<Plan, LayoutError>)
    ensures r == PlanOf(heads, monitors)
  {
    if heads == [] {
      return Err(NoDisplay);
    }
    var matched, used := MatchKeys(heads, monitors);
    var pair := Eliminate(heads, monitors, matched, used);
    PairingIsOk(heads, monitors);
    NonePaired(monitors, pair);
    if forall i :: 0 <= i < |pair| ==> pair[i].None? {
      return Err(NoMatch);
    }
    for hi := 0 to |heads|
      invariant FirstFault(heads, monitors, pair, hi) == FirstFault(heads, monitors, pair, 0)
    {
      var fault := Fault(heads, monitors, pair, hi);
      if fault.Some? {
        return Err(fault.value);
      }
    }
    var primary := PrimaryOf(monitors, pair);
    NoFault(heads, monitors, pair, 0, primary.value);
    r := Ok(Plan(primary.value, Placed(heads, monitors, pair, primary.value)));
  }

  // ---------- what a plan promises ----------

  /** The primary display is placed at its mode's size. */
  lemma PrimaryAtModeSize(heads: seq<HeadMode>, monitors: seq<Monitor>)
    requires PlanOf(heads, monitors).Ok?
    ensures var plan := PlanOf(heads, monitors).value;
      && plan.primary < |plan.placement| == |heads| && plan.placement[plan.primary].Some?
      && var r := plan.placement[plan.primary].value;
         r.width == heads[plan.primary].width && r.height == heads[plan.primary].height
  {
  }

  function ScaledMonitor(m: Monitor, c: nat): Monitor {
    m.(x := c * m.x, y := c * m.y, width := c * m.width, height := c * m.height)
  }

  function Scaled(monitors: seq<Monitor>, c: nat): (s: seq<Monitor>)
    ensures |s| == |monitors| && forall i :: 0 <= i < |s| ==> s[i] == ScaledMonitor(monitors[i], c)
  {
    seq(|monitors|, i requires 0 <= i < |monitors| => ScaledMonitor(monitors[i], c))
  }

  lemma Cancel(n: nat, d: nat, c: nat)
    requires d > 0 && c > 0
    ensures c * d > 0 && c * n / (c * d) == n / d
  {
    var q, r := n / d, n % d;
    assert n == d * q + r;
    assert c * d > 0;
    MulMono(c, r + 1, d);
    assert c * n == c * d * q + c * r;
    Quotient(c * n, c * d, q, c * r);
  }

  lemma Doubled(n: int, d: nat, c: nat)
    ensures 2 * (c * n) + c * d == c * (2 * n + d) && -2 * (c * n) + c * d == c * (-2 * n + d)
    ensures 2 * (c * d) == c * (2 * d)
  {
  }

  lemma SignScaled(n: int, d: nat, c: nat)
    requires c > 0 && d > 0
    ensures (c * n >= 0 <==> n >= 0) && c * d > 0
  {
    MulMono(c, 1, d);
    if n >= 0 {
      MulMono(c, 0, n);
    } else {
      MulMono(c, n, -1);
    }
  }

  /** Rounding does not see a common factor. */
  lemma RoundScaled(n: int, d: nat, c: nat)
    requires d > 0 && c > 0
    ensures c * d > 0 && Round(c * n, c * d) == Round(n, d)
  {
    SignScaled(n, d, c);
    Doubled(n, d, c);
    if n >= 0 {
      Cancel(2 * n + d, 2 * d, c);
    } else {
      Cancel(-2 * n + d, 2 * d, c);
    }
  }

  lemma {:induction false} PositionScaled(monitors: seq<Monitor>, key: string, from: nat, c: nat)
    requires from <= |monitors|
    ensures Position(Scaled(monitors, c), key, from) == Position(monitors, key, from)
    decreases |monitors| - from
  {
    if from < |monitors| {
      PositionScaled(monitors, key, from + 1, c);
    }
  }

  lemma PairingScaled(heads: seq<HeadMode>, monitors: seq<Monitor>, c: nat)
    ensures Pairing(heads, Scaled(monitors, c)) == Pairing(heads, monitors)
  {
    forall i | 0 <= i < |heads| ensures ByKey(heads, Scaled(monitors, c))[i] == ByKey(heads, monitors)[i] {
      PositionScaled(monitors, heads[i].key, 0, c);
    }
    assert ByKey(heads, Scaled(monitors, c)) == ByKey(heads, monitors);
  }

  lemma TransformedScaled(h: HeadMode, m: Monitor, c: nat)
    requires c > 0
    ensures Transformed(h, ScaledMonitor(m, c)) <==> Transformed(h, m)
  {
    var a, b := h.width * m.height, h.height * m.width;
    assert h.width * (c * m.height) == c * a && h.height * (c * m.width) == c * b;
    AbsScaled(a - b, c);
    assert c * a - c * b == c * (a - b);
    var e := 50 * Abs(a - b);
    assert 50 * (c * Abs(a - b)) == c * e;
    if e > b {
      MulMono(c, b + 1, e);
    } else {
      MulMono(c, e, b);
    }
  }

  lemma AbsScaled(a: int, c: nat)
    ensures Abs(c * a) == c * Abs(a)
  {
    if a >= 0 {
      MulMono(c, 0, a);
    } else {
      MulMono(c, a, 0);
    }
  }

  lemma FaultScaled(heads: seq<HeadMode>, monitors: seq<Monitor>, pair: seq<Option<nat>>, i: nat, c: nat)
    requires PairingOk(pair, heads, monitors) && i < |pair| && c > 0
    ensures Fault(heads, Scaled(monitors, c), pair, i) == Fault(heads, monitors, pair, i)
  {
    if pair[i].Some? {
      var m := monitors[pair[i].value];
      TransformedScaled(heads[i], m, c);
      MulMono(c, 1, Max(m.width, 1));
      MulMono(c, 1, Max(m.height, 1));
    }
  }

  lemma {:induction false} FirstFaultScaled(heads: seq<HeadMode>, monitors: seq<Monitor>, pair: seq<Option<nat>>, i: nat, c: nat)
    requires PairingOk(pair, heads, monitors) && i <= |pair| && c > 0
    ensures FirstFault(heads, Scaled(monitors, c), pair, i) == FirstFault(heads, monitors, pair, i)
    decreases |pair| - i
  {
    if i < |pair| {
      FaultScaled(heads, monitors, pair, i, c);
      FirstFaultScaled(heads, monitors, pair, i + 1, c);
    }
  }

  lemma {:induction false} FirstPairedScaled(monitors: seq<Monitor>, pair: seq<Option<nat>>, any: bool, i: nat, c: nat)
    requires (forall k :: 0 <= k < |pair| && pair[k].Some? ==> pair[k].value < |monitors|) && i <= |pair|
    ensures FirstPaired(Scaled(monitors, c), pair, any, i) == FirstPaired(monitors, pair, any, i)
    decreases |pair| - i
  {
    if i < |pair| {
      FirstPairedScaled(monitors, pair, any, i + 1, c);
    }
  }

  lemma RoundProduct(v: int, w: nat, d: nat, c: nat)
    requires d > 0 && c > 0
    ensures c * d > 0 && Round(c * v * w, c * d) == Round(v * w, d)
  {
    RoundScaled(v * w, d, c);
    assert c * v * w == c * (v * w);
  }

  lemma PlaceScaled(h: HeadMode, m: Monitor, isPrimary: bool, width: nat, pm: Monitor, c: nat)
    requires pm.width > 0 && c > 0
    ensures c * pm.width > 0
    ensures Place(h, ScaledMonitor(m, c), isPrimary, width, ScaledMonitor(pm, c)) == Place(h, m, isPrimary, width, pm)
  {
    RoundProduct(m.x, width, pm.width, c);
    RoundProduct(m.y, width, pm.width, c);
    RoundProduct(m.width, width, pm.width, c);
    RoundProduct(m.height, width, pm.width, c);
  }

  lemma PlacedScaled(heads: seq<HeadMode>, monitors: seq<Monitor>, pair: seq<Option<nat>>, primary: nat, c: nat)
    requires PairingOk(pair, heads, monitors) && primary < |pair| && pair[primary].Some? && c > 0
    requires monitors[pair[primary].value].width > 0
    ensures Scaled(monitors, c)[pair[primary].value].width > 0
    ensures Placed(heads, Scaled(monitors, c), pair, primary) == Placed(heads, monitors, pair, primary)
  {
    var pm := monitors[pair[primary].value];
    MulMono(c, 1, pm.width);
    forall i | 0 <= i < |pair| && pair[i].Some?
      ensures Placed(heads, Scaled(monitors, c), pair, primary)[i] == Placed(heads, monitors, pair, primary)[i]
    {
      PlaceScaled(heads[i], monitors[pair[i].value], i == primary, heads[primary].width, pm, c);
    }
  }

  /** Only the ratios of a layout matter: scaling every rectangle changes nothing, errors
      included. */
  lemma ScaleInvariant(heads: seq<HeadMode>, monitors: seq<Monitor>, c: nat)
    requires c > 0
    ensures PlanOf(heads, Scaled(monitors, c)) == PlanOf(heads, monitors)
  {
    if heads != [] {
      var pair := Pairing(heads, monitors);
      PairingScaled(heads, monitors, c);
      PairingIsOk(heads, monitors);
      FirstPairedScaled(monitors, pair, false, 0, c);
      FirstPairedScaled(monitors, pair, true, 0, c);
      FirstFaultScaled(heads, monitors, pair, 0, c);
      if PlanOf(heads, monitors).Ok? {
        NoFault(heads, monitors, pair, 0, PrimaryOf(monitors, pair).value);
        PlacedScaled(heads, monitors, pair, PrimaryOf(monitors, pair).value, c);
      }
    }
  }

  // ---------- abutting monitors ----------

  lemma HalfNear(a: int, d: nat, q: int)
    requires d > 0 && q == a / (2 * d)
    ensures 2 * (d * q) <= a < 2 * (d * q) + 2 * d
  {
    assert a == 2 * d * q + a % (2 * d);
    assert 2 * d * q == 2 * (d * q);
  }

  lemma RoundNear(n: int, d: nat)
    requires d > 0
    ensures Abs(2 * (d * Round(n, d) - n)) <= d
  {
    var a := if n >= 0 then 2 * n + d else -2 * n + d;
    var q := a / (2 * d);
    HalfNear(a, d, q);
    assert d * -q == -(d * q);
  }

  lemma NearInteger(d: nat, k: int, bound: nat)
    requires d > 0 && Abs(2 * (d * k)) <= bound && bound < 4 * d
    ensures Abs(k) <= 1
  {
    if k >= 2 {
      MulMono(d, 2, k);
    } else if k <= -2 {
      MulMono(d, k, -2);
    }
  }

  lemma SumNear(d: nat, a: int, b: int, x: int, y: int, z: int)
    requires d > 0 && Abs(2 * (d * x - a)) <= d && Abs(2 * (d * y - b)) <= d && Abs(2 * (d * z - (a + b))) <= d
    ensures Abs(x + y - z) <= 1
  {
    assert d * (x + y - z) == d * x + d * y - d * z;
    NearInteger(d, x + y - z, 3 * d);
  }

  /** Rounding the parts or the sum differs by at most one. */
  lemma RoundSum(a: int, b: int, d: nat)
    requires d > 0
    ensures Abs(Round(a, d) + Round(b, d) - Round(a + b, d)) <= 1
  {
    RoundNear(a, d);
    RoundNear(b, d);
    RoundNear(a + b, d);
    SumNear(d, a, b, Round(a, d), Round(b, d), Round(a + b, d));
  }

  lemma DivMono(a: int, b: int, p: nat)
    requires p > 0 && a <= b
    ensures a / p <= b / p
  {
    if a / p > b / p {
      MulMono(p, b / p + 1, a / p);
    }
  }

  lemma RoundMono(a: int, b: int, d: nat)
    requires d > 0 && a <= b
    ensures Round(a, d) <= Round(b, d)
  {
    if a >= 0 {
      DivMono(2 * a + d, 2 * b + d, 2 * d);
    } else if b < 0 {
      DivMono(-2 * b + d, -2 * a + d, 2 * d);
    } else {
      DivMono(0, 2 * b + d, 2 * d);
      DivMono(0, -2 * a + d, 2 * d);
    }
  }

  lemma RoundWhole(w: nat, d: nat)
    requires d > 0
    ensures Round(w * d, d) == w
  {
    Quotient(2 * (w * d) + d, 2 * d, w, d);
  }

  /** A display's width on the desktop is its monitor's, rounded, but never nothing. */
  lemma WidthRounded(m: Monitor, w: nat, d: nat)
    requires d > 0
    ensures Round(m.width * w, d) >= 0
    ensures Abs(Round(m.x * w, d) + Max(Round(m.width * w, d), 1) - Round((m.x + m.width) * w, d)) <= 1
  {
    var a, b := m.x * w, m.width * w;
    assert (m.x + m.width) * w == a + b;
    RoundSum(a, b, d);
    RoundMono(0, b, d);
    RoundMono(a, a + b, d);
  }

  lemma PlaceAbuts(h: HeadMode, m: Monitor, isPrimary: bool, w: nat, pm: Monitor)
    requires pm.width > 0 && (isPrimary ==> m == pm && h.width == w)
    ensures var r := Place(h, m, isPrimary, w, pm);
      Abs(r.x + r.width - Round((m.x + m.width) * w, pm.width)) <= 1
  {
    if isPrimary {
      PrimaryAbuts(m.x, m.width, w);
    } else {
      WidthRounded(m, w, pm.width);
    }
  }

  lemma PrimaryAbuts(x: int, d: nat, w: nat)
    requires d > 0
    ensures Abs(Round(x * w, d) + w - Round((x + d) * w, d)) <= 1
  {
    RoundWhole(w, d);
    RoundSum(x * w, w * d, d);
    assert (x + d) * w == x * w + w * d;
  }

  /** Head `i`'s monitor, in an accepted layout. */
  function MonitorOf(heads: seq<HeadMode>, monitors: seq<Monitor>, i: nat): Option<Monitor>
    requires i < |heads|
  {
    PairingIsOk(heads, monitors);
    var p := Pairing(heads, monitors)[i];
    if p.None? then None else Some(monitors[p.value])
  }

  /** An accepted layout places every matched head in the primary's scale. */
  lemma PlacedAt(heads: seq<HeadMode>, monitors: seq<Monitor>, i: nat)
    requires PlanOf(heads, monitors).Ok? && i < |heads| && MonitorOf(heads, monitors, i).Some?
    ensures var plan := PlanOf(heads, monitors).value;
      && plan.primary < |heads| == |plan.placement| && MonitorOf(heads, monitors, plan.primary).Some?
      && var pm := MonitorOf(heads, monitors, plan.primary).value;
         && pm.width > 0
         && plan.placement[i]
           == Some(Place(heads[i], MonitorOf(heads, monitors, i).value, i == plan.primary, heads[plan.primary].width, pm))
  {
    PairingIsOk(heads, monitors);
    NoFault(heads, monitors, Pairing(heads, monitors), 0, PlanOf(heads, monitors).value.primary);
  }

  /** `v` is within half a pixel of `n` monitor pixels in the primary's scale. */
  predicate Near(v: int, n: int, w: nat, d: nat) {
    Abs(2 * (d * v - n * w)) <= d
  }

  /** Every placement is the scaled rectangle, each coordinate to the nearest pixel; sizes are
      at least one pixel, and the primary's is its mode's. */
  lemma PlacedNearExact(heads: seq<HeadMode>, monitors: seq<Monitor>, i: nat)
    requires PlanOf(heads, monitors).Ok? && i < |heads| && MonitorOf(heads, monitors, i).Some?
    ensures var plan, m := PlanOf(heads, monitors).value, MonitorOf(heads, monitors, i).value;
      && plan.primary < |heads| == |plan.placement| && plan.placement[i].Some?
      && MonitorOf(heads, monitors, plan.primary).Some?
      && var r, w, d := plan.placement[i].value, heads[plan.primary].width, MonitorOf(heads, monitors, plan.primary).value.width;
         && Near(r.x, m.x, w, d) && Near(r.y, m.y, w, d)
         && (i != plan.primary ==> r.width >= 1 && r.height >= 1)
         && (i != plan.primary ==> (r.width == 1 || Near(r.width, m.width, w, d)) && (r.height == 1 || Near(r.height, m.height, w, d)))
  {
    PlacedAt(heads, monitors, i);
    var plan, m := PlanOf(heads, monitors).value, MonitorOf(heads, monitors, i).value;
    var w, d := heads[plan.primary].width, MonitorOf(heads, monitors, plan.primary).value.width;
    RoundNear(m.x * w, d);
    RoundNear(m.y * w, d);
    RoundNear(m.width * w, d);
    RoundNear(m.height * w, d);
  }

  lemma TwoAbut(h: HeadMode, m: Monitor, isPrimary: bool, h2: HeadMode, m2: Monitor, isPrimary2: bool, w: nat, pm: Monitor)
    requires pm.width > 0 && (isPrimary ==> m == pm && h.width == w) && m.x + m.width == m2.x
    ensures var r, r2 := Place(h, m, isPrimary, w, pm), Place(h2, m2, isPrimary2, w, pm);
      Abs(r.x + r.width - r2.x) <= 1
  {
    PlaceAbuts(h, m, isPrimary, w, pm);
  }

  /** Monitors that abut stay abutting within one pixel. */
  lemma AbuttingWithinOne(heads: seq<HeadMode>, monitors: seq<Monitor>, i: nat, j: nat)
    requires PlanOf(heads, monitors).Ok? && i < |heads| && j < |heads|
    requires MonitorOf(heads, monitors, i).Some? && MonitorOf(heads, monitors, j).Some?
    requires var m := MonitorOf(heads, monitors, i).value; m.x + m.width == MonitorOf(heads, monitors, j).value.x
    ensures var p := PlanOf(heads, monitors).value.placement;
      && |p| == |heads| && p[i].Some? && p[j].Some? && Abs(p[i].value.x + p[i].value.width - p[j].value.x) <= 1
  {
    var p := PlanOf(heads, monitors).value.primary;
    PlacedAt(heads, monitors, i);
    PlacedAt(heads, monitors, j);
    TwoAbut(heads[i], MonitorOf(heads, monitors, i).value, i == p, heads[j], MonitorOf(heads, monitors, j).value, j == p,
            heads[p].width, MonitorOf(heads, monitors, p).value);
  }

  lemma TwoStack(h: HeadMode, m: Monitor, h2: HeadMode, m2: Monitor, isPrimary2: bool, w: nat, pm: Monitor)
    requires pm.width > 0 && m.y + m.height == m2.y
    ensures var r, r2 := Place(h, m, false, w, pm), Place(h2, m2, isPrimary2, w, pm);
      Abs(r.y + r.height - r2.y) <= 1
  {
    WidthRounded(m.(x := m.y, width := m.height), w, pm.width);
  }

  /** So do monitors one above the other, the upper one not being the primary, whose height
      is its mode's. */
  lemma StackedWithinOne(heads: seq<HeadMode>, monitors: seq<Monitor>, i: nat, j: nat)
    requires PlanOf(heads, monitors).Ok? && i < |heads| && j < |heads| && i != PlanOf(heads, monitors).value.primary
    requires MonitorOf(heads, monitors, i).Some? && MonitorOf(heads, monitors, j).Some?
    requires var m := MonitorOf(heads, monitors, i).value; m.y + m.height == MonitorOf(heads, monitors, j).value.y
    ensures var p := PlanOf(heads, monitors).value.placement;
      && |p| == |heads| && p[i].Some? && p[j].Some? && Abs(p[i].value.y + p[i].value.height - p[j].value.y) <= 1
  {
    var p := PlanOf(heads, monitors).value.primary;
    PlacedAt(heads, monitors, i);
    PlacedAt(heads, monitors, j);
    TwoStack(heads[i], MonitorOf(heads, monitors, i).value, heads[j], MonitorOf(heads, monitors, j).value, j == p,
             heads[p].width, MonitorOf(heads, monitors, p).value);
  }

  lemma Times2(d: nat, q: int, w: int)
    ensures 2 * d * (q + w) == 2 * d * q + 2 * (w * d)
  {
  }

  lemma ShiftUp(a: int, d: nat, w: nat)
    requires d > 0 && a >= 0
    ensures Round(a + w * d, d) == Round(a, d) + w
  {
    MulNat(w, d);
    var q, r := (2 * a + d) / (2 * d), (2 * a + d) % (2 * d);
    Times2(d, q, w);
    Quotient(2 * (a + w * d) + d, 2 * d, q + w, r);
  }

  lemma ShiftDown(a: int, d: nat, w: nat)
    requires d > 0 && a < 0 && a + w * d < 0
    ensures Round(a + w * d, d) == Round(a, d) + w
  {
    var q, r := (-2 * a + d) / (2 * d), (-2 * a + d) % (2 * d);
    var v: int := w;
    Times2(d, q, -v);
    assert -v * d == -(v * d);
    Quotient(-2 * (a + w * d) + d, 2 * d, q - w, r);
  }

  lemma ShiftAcross(a: int, d: nat, w: nat)
    requires d > 0 && a < 0 <= a + w * d
    ensures Round(a + w * d, d) == Round(a, d) + w + if (-2 * a + d) % (2 * d) == 0 then 1 else 0
  {
    var q, r := (-2 * a + d) / (2 * d), (-2 * a + d) % (2 * d);
    Times2(d, w - q, 0);
    Times2(d, -q, w);
    Times2(d, w - q, 1);
    assert 2 * d * -q == -(2 * d * q);
    if r == 0 {
      Quotient(2 * (a + w * d) + d, 2 * d, w - q + 1, 0);
    } else {
      Quotient(2 * (a + w * d) + d, 2 * d, w - q, 2 * d - r);
    }
  }

  /** A monitor's left edge lies a whole number and a half of the primary's pixels left of
      the origin. */
  predicate NegativeHalf(x: int, w: nat, d: nat)
    requires d > 0
  {
    x * w < 0 && (-2 * (x * w) + d) % (2 * d) == 0
  }

  /** A monitor that abuts the primary's right edge is placed at it exactly, except when the
      primary's left edge rounds away from zero to the left and its right edge to the right. */
  lemma ExactAtPrimary(heads: seq<HeadMode>, monitors: seq<Monitor>, j: nat)
    requires PlanOf(heads, monitors).Ok? && j < |heads| && MonitorOf(heads, monitors, j).Some?
    requires var p := PlanOf(heads, monitors).value.primary;
      p < |heads| && p != j && MonitorOf(heads, monitors, p).Some?
      && MonitorOf(heads, monitors, p).value.width > 0
    requires var m := MonitorOf(heads, monitors, PlanOf(heads, monitors).value.primary).value;
      m.x + m.width == MonitorOf(heads, monitors, j).value.x
    ensures var plan := PlanOf(heads, monitors).value;
      var p, m, w := plan.placement, MonitorOf(heads, monitors, plan.primary).value, heads[plan.primary].width;
      && |p| == |heads| && p[plan.primary].Some? && p[j].Some?
      && ((p[plan.primary].value.x + p[plan.primary].value.width == p[j].value.x)
          <==> !(NegativeHalf(m.x, w, m.width) && m.x + m.width > 0))
  {
    var plan := PlanOf(heads, monitors).value;
    PlacedAt(heads, monitors, plan.primary);
    PlacedAt(heads, monitors, j);
    PrimaryEdge(heads[plan.primary], MonitorOf(heads, monitors, plan.primary).value, heads[plan.primary].width,
                heads[j], MonitorOf(heads, monitors, j).value);
  }

  lemma PrimaryEdge(h: HeadMode, pm: Monitor, w: nat, h2: HeadMode, m2: Monitor)
    requires pm.width > 0 && h.width == w && pm.x + pm.width == m2.x
    ensures var r, r2 := Place(h, pm, true, w, pm), Place(h2, m2, false, w, pm);
      r.x + r.width == r2.x <==> !(NegativeHalf(pm.x, w, pm.width) && pm.x + pm.width > 0)
  {
    RightEdge(pm.x, pm.width, w);
  }

  lemma RightEdge(x: int, d: nat, w: nat)
    requires d > 0
    ensures Round((x + d) * w, d) == Round(x * w, d) + w <==> !(NegativeHalf(x, w, d) && x + d > 0)
  {
    var a := x * w;
    assert (x + d) * w == a + w * d;
    if a >= 0 {
      ShiftUp(a, d, w);
    } else if a + w * d < 0 {
      ShiftDown(a, d, w);
      SignOf(x + d, w);
    } else {
      ShiftAcross(a, d, w);
      SignOf(x + d, w);
      if x + d == 0 {
        WholeIsNoHalf(a, d, w);
      }
    }
  }

  lemma SignOf(v: int, w: nat)
    ensures v > 0 ==> v * w >= 0
    ensures v <= 0 ==> v * w <= 0
    ensures v < 0 && w > 0 ==> v * w < 0
  {
    if v > 0 {
      MulMono(w, 0, v);
    } else {
      MulMono(w, v, 0);
    }
    if v < 0 && w > 0 {
      MulMono(w, v, -1);
    }
  }

  lemma WholeIsNoHalf(a: int, d: nat, w: nat)
    requires d > 0 && a + w * d == 0
    ensures (-2 * a + d) % (2 * d) != 0
  {
    Times2(d, 0, w);
    Quotient(-2 * a + d, 2 * d, w, d);
  }

  /** A primary of 2560 logical pixels at -1 on a 3840 pixel display: a gap of one pixel. */
  lemma GapAtPrimary()
    ensures var heads := [HeadMode("A", 3840, 2160), HeadMode("B", 3840, 2160)];
      var monitors := [Monitor("A", -1, 0, 2560, 1440, true), Monitor("B", 2559, 0, 2560, 1440, false)];
      PlanOf(heads, monitors) == Ok(Plan(0, [Some(Rect(-2, 0, 3840, 2160)), Some(Rect(3839, 0, 3840, 2160))]))
  {
    var heads := [HeadMode("A", 3840, 2160), HeadMode("B", 3840, 2160)];
    var monitors := [Monitor("A", -1, 0, 2560, 1440, true), Monitor("B", 2559, 0, 2560, 1440, false)];
    assert "A"[0] != "B"[0];
    var pair := ByKey(heads, monitors);
    assert Position(monitors, "B", 0) == Position(monitors, "B", 1) == Some(1);
    assert pair == [Some(0), Some(1)];
    assert FreeHeads(pair, 1) == [] && FreeHeads(pair, 2) == [];
    assert Pairing(heads, monitors) == pair;
    assert FirstPaired(monitors, pair, false, 0) == Some(0);
    assert Fault(heads, monitors, pair, 0).None? && Fault(heads, monitors, pair, 1).None?;
    assert FirstFault(heads, monitors, pair, 1) == FirstFault(heads, monitors, pair, 2) == None;
    assert Placed(heads, monitors, pair, 0)[0] == Some(Rect(-2, 0, 3840, 2160));
    assert Placed(heads, monitors, pair, 0)[1] == Some(Rect(3839, 0, 3840, 2160));
    assert FirstFault(heads, monitors, pair, 0) == None && PrimaryOf(monitors, pair) == Some(0);
    assert Placed(heads, monitors, pair, 0) == [Some(Rect(-2, 0, 3840, 2160)), Some(Rect(3839, 0, 3840, 2160))];
  }
}
