/** What the messages of a request mean on the screen and the keyboard, by their fields. */
module Sent {
  import opened Wrappers
  import opened Arith
  import opened Keysym
  import opened XServer
  import opened Requests

  // ---------- the pointer ----------

  /** A coordinate asked for, kept on the screen: itself, or the border pixel it is beyond. */
  predicate Kept(got: int, asked: int, size: nat) {
    && 0 <= got < size
    && (0 <= asked < size ==> got == asked)
    && (asked < 0 ==> got == 0)
    && (asked >= size ==> got == size - 1)
  }

  /** A motion to (`x`, `y`), each coordinate kept on its own axis. */
  predicate LandsAt(m: Msg, x: int, y: int, w: nat, h: nat) {
    m.MotionMsg? && Kept(m.x, x, w) && Kept(m.y, y, h)
  }

  lemma MotionLands(x: int, y: int, w: nat, h: nat)
    requires 0 < w && 0 < h
    ensures LandsAt(MotionTo(x, y, w, h), x, y, w, h)
  {
  }

  /** `n` presses and releases of a button, from message `at` on. */
  predicate Pressed(sent: seq<Msg>, at: nat, button: nat, n: nat) {
    && at + 2 * n <= |sent|
    && forall i :: 0 <= i < n ==>
         sent[at + 2 * i] == ButtonMsg(button, true) && sent[at + 2 * i + 1] == ButtonMsg(button, false)
  }

  lemma ClicksPress(before: seq<Msg>, button: nat, n: nat, after: seq<Msg>)
    ensures Pressed(before + Clicks(button, n) + after, |before|, button, n)
  {
    var sent, clicks := before + Clicks(button, n) + after, Clicks(button, n);
    forall i | 0 <= i < n
      ensures sent[|before| + 2 * i] == ButtonMsg(button, true) && sent[|before| + 2 * i + 1] == ButtonMsg(button, false)
    {
      assert sent[|before| + 2 * i] == clicks[2 * i] && sent[|before| + 2 * i + 1] == clicks[2 * i + 1];
    }
  }

  /** A point of a coordinate's way after step `i` of `n`: within a pixel of the straight
      line, and not beyond either end. */
  predicate OnWay(p: int, from: int, to: int, i: nat, n: nat) {
    && Abs(n * (p - from) - (to - from) * i) < n
    && (from <= p <= to || to <= p <= from)
  }

  lemma TruncNear(a: int, n: nat)
    requires 0 < n
    ensures Abs(n * TruncDiv(a, n) - a) < n
    ensures a >= 0 ==> 0 <= n * TruncDiv(a, n) <= a
    ensures a <= 0 ==> a <= n * TruncDiv(a, n) <= 0
  {
    if a >= 0 {
      assert a == n * (a / n) + a % n;
      NotNegative(a, n);
    } else {
      assert -a == n * ((-a) / n) + (-a) % n;
      NotNegative(-a, n);
      assert n * -((-a) / n) == -(n * ((-a) / n));
    }
  }

  lemma NotNegative(a: nat, n: nat)
    requires 0 < n
    ensures 0 <= n * (a / n)
  {
    MulNat(n, a / n);
  }

  lemma Cancel(n: nat, a: int, b: int)
    requires 0 < n && n * a <= n * b
    ensures a <= b
  {
    if a > b {
      MulMono(n, b + 1, a);
    }
  }

  /** A share of a distance is not more than it. */
  lemma Share(d: nat, i: nat, n: nat)
    requires i <= n
    ensures 0 <= d * i <= n * d
  {
    MulNat(d, i);
    MulMono(d, i, n);
    assert n * d == d * n;
  }

  lemma Within(n: nat, t: int, d: int)
    requires 0 < n && (0 <= n * t <= n * d || n * d <= n * t <= 0)
    ensures 0 <= t <= d || d <= t <= 0
  {
    assert n * 0 == 0;
    if 0 <= n * t <= n * d {
      Cancel(n, 0, t);
      Cancel(n, t, d);
    } else {
      Cancel(n, t, 0);
      Cancel(n, d, t);
    }
  }

  lemma StepWithin(d: int, i: nat, n: nat)
    requires 0 < n && i <= n
    ensures var t := TruncDiv(d * i, n); 0 <= t <= d || d <= t <= 0
  {
    TruncNear(d * i, n);
    Share(Abs(d), i, n);
    if d < 0 {
      Minus(d, i, n);
    }
    Within(n, TruncDiv(d * i, n), d);
  }

  lemma Minus(d: int, i: nat, n: nat)
    ensures -d * i == -(d * i) && n * -d == -(n * d)
  {
  }

  lemma StepOnWay(from: int, to: int, i: nat, n: nat)
    requires 0 < n && i <= n
    ensures OnWay(from + TruncDiv((to - from) * i, n), from, to, i, n)
    ensures i == n ==> from + TruncDiv((to - from) * i, n) == to
  {
    TruncNear((to - from) * i, n);
    StepWithin(to - from, i, n);
    if i == n {
      Whole(to - from, TruncDiv((to - from) * i, n), n);
    }
  }

  lemma Whole(d: int, t: int, n: nat)
    requires 0 < n && Abs(n * t - d * n) < n
    ensures t == d
  {
    Product(n, t, d);
    if t > d {
      MulMono(n, 1, t - d);
    } else if t < d {
      MulMono(n, 1, d - t);
    }
  }

  lemma Product(n: nat, t: int, d: int)
    ensures n * t - d * n == n * (t - d) == -(n * (d - t)) && n * 1 == n
  {
  }

  /** A motion of a drag: where it asks for is on the way of both coordinates. */
  predicate DragStep(m: Msg, a: Action, i: nat, n: nat, w: nat, h: nat, x: int, y: int)
    requires a.Drag?
  {
    LandsAt(m, x, y, w, h) && OnWay(x, a.fromX, a.toX, i, n) && OnWay(y, a.fromY, a.toY, i, n)
  }

  ghost predicate OnLine(m: Msg, a: Action, i: nat, n: nat, w: nat, h: nat)
    requires a.Drag?
  {
    exists x, y :: DragStep(m, a, i, n, w, h, x, y)
  }

  // ---------- what an action does ----------

  predicate ClickMeans(a: Action, sent: seq<Msg>, w: nat, h: nat)
    requires a.Click?
  {
    var n := if a.count == 0 then 1 else a.count;
    |sent| == 1 + 2 * n && LandsAt(sent[0], a.x, a.y, w, h) && Pressed(sent, 1, a.button, n)
  }

  /** At the start, button down, along the line with the button held, at the end, button up. */
  ghost predicate DragMeans(a: Action, sent: seq<Msg>, w: nat, h: nat)
    requires a.Drag?
  {
    var n := |sent| - 3;
    && (if 1 <= a.steps <= 200 then n == a.steps else n == if a.steps == 0 then 1 else 200)
    && LandsAt(sent[0], a.fromX, a.fromY, w, h) && sent[1] == ButtonMsg(a.button, true)
    && (forall k :: 2 <= k < 2 + n ==> OnLine(sent[k], a, k - 1, n, w, h))
    && LandsAt(sent[1 + n], a.toX, a.toY, w, h) && sent[2 + n] == ButtonMsg(a.button, false)
  }

  function AtMost50(n: nat): nat {
    if n <= 50 then n else 50
  }

  /** Buttons 6 and 7 are the wheel's left and right, 4 and 5 its up and down. */
  predicate ScrollMeans(a: Action, sent: seq<Msg>, w: nat, h: nat)
    requires a.Scroll?
  {
    var across, along := AtMost50(Abs(a.dx)), AtMost50(Abs(a.dy));
    && |sent| == 1 + 2 * across + 2 * along && LandsAt(sent[0], a.x, a.y, w, h)
    && (a.dx > 0 ==> Pressed(sent, 1, 7, across)) && (a.dx < 0 ==> Pressed(sent, 1, 6, across))
    && (a.dy > 0 ==> Pressed(sent, 1 + 2 * across, 5, along)) && (a.dy < 0 ==> Pressed(sent, 1 + 2 * across, 4, along))
  }

  ghost predicate ActionMeans(a: Action, sent: seq<Msg>, w: nat, h: nat) {
    match a
    case Tap => sent == []
    case Wait => sent == []
    case Click(_, _, _, _) => ClickMeans(a, sent, w, h)
    case Drag(_, _, _, _, _, _) => DragMeans(a, sent, w, h)
    case Scroll(_, _, _, _) => ScrollMeans(a, sent, w, h)
  }

  lemma ClickDoes(a: Action, w: nat, h: nat)
    requires a.Click? && 0 < w && 0 < h
    ensures ClickMeans(a, ActionMsgs(a, w, h), w, h)
  {
    var first, n := [MotionTo(a.x, a.y, w, h)], Max(a.count, 1);
    MotionLands(a.x, a.y, w, h);
    ClicksPress(first, a.button, n, []);
    assert first + Clicks(a.button, n) + [] == ActionMsgs(a, w, h);
  }

  lemma DragDoes(a: Action, w: nat, h: nat)
    requires a.Drag? && 0 < w && 0 < h
    ensures DragMeans(a, ActionMsgs(a, w, h), w, h)
  {
    var sent, n := ActionMsgs(a, w, h), StepsOf(a.steps);
    MotionLands(a.fromX, a.fromY, w, h);
    forall k | 2 <= k < 2 + n ensures OnLine(sent[k], a, k - 1, n, w, h) {
      assert sent[k] == DragPath(a, n, w, h)[k - 2];
      DragStepDoes(a, k - 1, n, w, h);
    }
    DragArrives(a, w, h);
  }

  lemma DragStepDoes(a: Action, i: nat, n: nat, w: nat, h: nat)
    requires a.Drag? && 0 < w && 0 < h && n == StepsOf(a.steps) && 1 <= i <= n
    ensures DragStep(MotionTo(DragX(a, i), DragY(a, i), w, h), a, i, n, w, h, DragX(a, i), DragY(a, i))
  {
    MotionLands(DragX(a, i), DragY(a, i), w, h);
    StepOnWay(a.fromX, a.toX, i, n);
    StepOnWay(a.fromY, a.toY, i, n);
  }

  /** The last motion of a drag is to its target, whatever truncation does on the way. */
  lemma DragArrives(a: Action, w: nat, h: nat)
    requires a.Drag? && 0 < w && 0 < h
    ensures var sent := ActionMsgs(a, w, h);
      && |sent| >= 4 && LandsAt(sent[|sent| - 2], a.toX, a.toY, w, h)
      && (0 <= a.toX < w && 0 <= a.toY < h ==> sent[|sent| - 2] == MotionMsg(a.toX, a.toY))
  {
    var sent, n := ActionMsgs(a, w, h), StepsOf(a.steps);
    StepOnWay(a.fromX, a.toX, n, n);
    StepOnWay(a.fromY, a.toY, n, n);
    MotionLands(a.toX, a.toY, w, h);
    assert sent[|sent| - 2] == DragPath(a, n, w, h)[n - 1];
  }

  lemma TwoClicks(motion: Msg, b: nat, n: nat, c: nat, k: nat, sent: seq<Msg>)
    requires sent == [motion] + (Clicks(b, n) + Clicks(c, k))
    ensures |sent| == 1 + 2 * n + 2 * k && sent[0] == motion
    ensures Pressed(sent, 1, b, n) && Pressed(sent, 1 + 2 * n, c, k)
  {
    var first := [motion];
    ClicksPress(first, b, n, Clicks(c, k));
    assert first + Clicks(b, n) + Clicks(c, k) == sent;
    ClicksPress(first + Clicks(b, n), c, k, []);
    assert first + Clicks(b, n) + Clicks(c, k) + [] == sent;
  }

  lemma ScrollDoes(a: Action, w: nat, h: nat)
    requires a.Scroll? && 0 < w && 0 < h
    ensures ScrollMeans(a, ActionMsgs(a, w, h), w, h)
  {
    var motion, sent := MotionTo(a.x, a.y, w, h), ActionMsgs(a, w, h);
    MotionLands(a.x, a.y, w, h);
    WheelIs(a.dx, a.dy);
    TwoClicks(motion, if a.dx > 0 then 7 else 6, AtMost50(Abs(a.dx)), if a.dy > 0 then 5 else 4, AtMost50(Abs(a.dy)), sent);
  }

  lemma WheelIs(dx: int, dy: int)
    ensures Wheel(dx, dy)
      == Clicks(if dx > 0 then 7 else 6, AtMost50(Abs(dx))) + Clicks(if dy > 0 then 5 else 4, AtMost50(Abs(dy)))
  {
  }

  lemma ActionDoes(a: Action, w: nat, h: nat)
    requires 0 < w && 0 < h
    ensures ActionMeans(a, ActionMsgs(a, w, h), w, h)
  {
    match a {
      case Tap =>
      case Wait =>
      case Click(_, _, _, _) => ClickDoes(a, w, h);
      case Drag(_, _, _, _, _, _) => DragDoes(a, w, h);
      case Scroll(_, _, _, _) => ScrollDoes(a, w, h);
    }
  }

  // ---------- what a request does ----------

  /** The key for a chord's symbol: the one the map has, or a spare keycode. */
  predicate ChordKey(m: KeyMap, sym: nat, code: nat) {
    if m.KeyFor(sym).Some? then code == m.KeyFor(sym).value.kc else m.IsSpare(code)
  }

  /** The chord's keys go down in its order, and up again the other way round behind what
      is done under them. */
  ghost predicate Under(m: KeyMap, syms: seq<nat>, sent: seq<Msg>, body: seq<Msg>) {
    var n := |syms|;
    && |sent| == n + |body| + n && sent[n..n + |body|] == body
    && (forall i :: 0 <= i < n ==>
          && sent[i].KeyMsg? && sent[i].down && ChordKey(m, syms[i], sent[i].kc)
          && sent[|sent| - 1 - i] == KeyMsg(sent[i].kc, false))
    && (forall i, j :: 0 <= i < j < n && syms[i] != syms[j] && m.KeyFor(syms[i]).None? && m.KeyFor(syms[j]).None? ==>
          sent[i].kc != sent[j].kc)
  }

  ghost predicate Means(m: KeyMap, r: Request, sent: seq<Msg>, w: nat, h: nat) {
    match r
    case Move(x, y) => |sent| == 1 && LandsAt(sent[0], x, y, w, h)
    case PointerButton(button, down) => sent == [ButtonMsg(button, down)]
    case Act(chord, a) =>
      exists body :: ActionMeans(a, body, w, h) && Under(m, if chord.Chord? then chord.syms else [], sent, body)
    case Key(code, down) => sent == [KeyMsg(code + 8, down)]
    case Wake(x, y) => |sent| == 2 && LandsAt(sent[0], x + 1, y, w, h) && LandsAt(sent[1], x, y, w, h)
    case Type(_) => sent == []
  }

  lemma IndexWithin(list: seq<nat>, s: nat)
    requires s in list
    ensures IndexOf(list, s) < |list| && list[IndexOf(list, s)] == s
  {
  }

  /** A chord's symbol the map lacks has the spare keycode of its rank among those. */
  lemma MissingCode(m: KeyMap, syms: seq<nat>, i: nat)
    requires m.Valid() && i < |syms| && m.KeyFor(syms[i]).None? && |Missing(m, syms)| <= |m.Spare()|
    ensures var k := IndexOf(Missing(m, syms), syms[i]);
      k < |Missing(m, syms)| && Missing(m, syms)[k] == syms[i] && CodeOf(m, syms, syms[i]) == m.Spare()[k]
    ensures m.IsSpare(CodeOf(m, syms, syms[i]))
  {
    MissingHas(m, syms);
    IndexWithin(Missing(m, syms), syms[i]);
    assert m.Spare()[IndexOf(Missing(m, syms), syms[i])] in m.Spare();
  }

  lemma ChordKeys(m: KeyMap, syms: seq<nat>, i: nat, j: nat)
    requires m.Valid() && |Missing(m, syms)| <= |m.Spare()| && i < |syms| && j < |syms|
    ensures ChordKey(m, syms[i], ChordCodes(m, syms)[i])
    ensures syms[i] != syms[j] && m.KeyFor(syms[i]).None? && m.KeyFor(syms[j]).None? ==>
      ChordCodes(m, syms)[i] != ChordCodes(m, syms)[j]
  {
    if m.KeyFor(syms[i]).None? {
      MissingCode(m, syms, i);
    }
    if m.KeyFor(syms[j]).None? {
      MissingCode(m, syms, j);
    }
  }

  /** Where the presses, the body and the releases of a chord lie. */
  lemma ChordParts(codes: seq<nat>, body: seq<Msg>, sent: seq<Msg>)
    requires sent == KeyDowns(codes) + body + KeyUps(codes)
    ensures |sent| == |codes| + |body| + |codes| && sent[|codes|..|codes| + |body|] == body
    ensures forall i :: 0 <= i < |codes| ==> sent[i] == KeyMsg(codes[i], true) && sent[|sent| - 1 - i] == KeyMsg(codes[i], false)
  {
  }

  lemma ChordUnder(m: KeyMap, syms: seq<nat>, codes: seq<nat>, body: seq<Msg>)
    requires m.Valid() && |Missing(m, syms)| <= |m.Spare()| && codes == ChordCodes(m, syms)
    ensures Under(m, syms, KeyDowns(codes) + body + KeyUps(codes), body)
  {
    ChordParts(codes, body, KeyDowns(codes) + body + KeyUps(codes));
    forall i, j | 0 <= i < |syms| && 0 <= j < |syms|
      ensures ChordKey(m, syms[i], codes[i])
      ensures syms[i] != syms[j] && m.KeyFor(syms[i]).None? && m.KeyFor(syms[j]).None? ==> codes[i] != codes[j]
    {
      ChordKeys(m, syms, i, j);
    }
  }

  /** What a successful request sends means what was asked for. A chord succeeds only where
      the spare keycodes are enough for its unmapped symbols. */
  lemma RequestMeans(m: KeyMap, r: Request, w: nat, h: nat)
    requires m.Valid() && 0 < w && 0 < h
    requires r.Act? && r.chord.Chord? ==> |Missing(m, r.chord.syms)| <= |m.Spare()|
    ensures Means(m, r, RequestMsgs(m, r, w, h), w, h)
  {
    match r {
      case Move(x, y) => MotionLands(x, y, w, h);
      case PointerButton(_, _) =>
      case Act(chord, a) =>
        ActionDoes(a, w, h);
        ChordUnder(m, if chord.Chord? then chord.syms else [], CodesFor(m, chord), ActionMsgs(a, w, h));
      case Key(_, _) =>
      case Wake(x, y) =>
        MotionLands(x + 1, y, w, h);
        MotionLands(x, y, w, h);
      case Type(_) =>
    }
  }
}
