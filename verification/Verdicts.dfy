/** What a recording's timeline says, entry by entry: why a frame was lost, when a tick ran,
    what the disk was spared, and why the loop ended. */
module Verdicts {
  import opened Wrappers
  import opened Stills
  import opened Timeline

  // ---------- one tick ----------

  /** A grab unlike the last still. */
  predicate Moved(s: State, tick: Tick) {
    tick.grab.Some? && !Same(s.last, tick.grab.value)
  }

  /** The disk has the floor free, as far as that can be told. */
  predicate AboveFloor(c: Settings, tick: Tick) {
    tick.free.Some? ==> tick.free.value >= c.minFree
  }

  /** The frame became a JPEG that the budget has room for. */
  predicate InBudget(c: Settings, s: State, tick: Tick) {
    tick.jpeg.Some? && s.bytes + tick.jpeg.value <= c.maxBytes
  }

  /** Up to 4 levels in every channel are the same picture, in either order; 5 are not. */
  lemma SameIsFourLevels(a: Image, b: Image)
    ensures Same(a, b) <==> Same(b, a)
    ensures Same(a, b) ==> a.width == b.width && a.height == b.height && |a.raw| == |b.raw|
    ensures |a.raw| == |b.raw| && a.width == b.width && a.height == b.height ==>
      (Same(a, b) <==> forall i :: 0 <= i < |a.raw| ==> b.raw[i] - 5 < a.raw[i] < b.raw[i] + 5)
  {
  }

  /** Each fate has its own cause, and the first of them decides: the floor, the encoder, the
      budget, the write. A grab is on show when it has not moved or nothing refused it. */
  lemma FateMeans(c: Settings, s: State, turn: Turn)
    ensures var t, fate := turn.tick, EntryOf(c, s, turn).fate;
      && EntryOf(c, s, turn).tick == t
      && (fate == NoGrab <==> t.grab == None)
      && (fate == OnShow <==> t.grab.Some? && (Moved(s, t) ==> AboveFloor(c, t) && InBudget(c, s, t) && t.put == Written))
      && (fate == Lost(UnderFloor) <==> Moved(s, t) && !AboveFloor(c, t))
      && (fate == Lost(EncodeFailed) <==> Moved(s, t) && AboveFloor(c, t) && t.jpeg == None)
      && (fate == Lost(OverBudget) <==> Moved(s, t) && AboveFloor(c, t) && t.jpeg.Some? && !InBudget(c, s, t))
      && (fate == Lost(DiskFull) <==> Moved(s, t) && AboveFloor(c, t) && InBudget(c, s, t) && t.put == Full)
      && (fate == Lost(DirGone) <==> Moved(s, t) && AboveFloor(c, t) && InBudget(c, s, t) && t.put == Missing)
      && (fate == Lost(WriteFailed) <==> Moved(s, t) && AboveFloor(c, t) && InBudget(c, s, t) && t.put == OtherFailure)
  {
  }

  /** The last picture and the bytes change only by a moved frame that came on show. */
  lemma SpendsOnStills(c: Settings, s: State, turn: Turn)
    requires c.period > 0
    ensures var after, t := Advance(c, s, turn), turn.tick;
      if Moved(s, t) && EntryOf(c, s, turn).fate == OnShow then
        && after.last == t.grab.value
        && t.jpeg.Some? && after.bytes == s.bytes + t.jpeg.value
      else after.last == s.last && after.bytes == s.bytes
  {
  }

  /** No tick runs before its deadline, and none is filed under another millisecond. */
  lemma FiledWhen(c: Settings, s: State, turn: Turn)
    ensures var at, ms := WakeTime(s, turn), EntryOf(c, s, turn).ms;
      && s.now <= at && turn.wake <= at && (!turn.stopped ==> s.next <= at)
      && (at == s.now || at == turn.wake || (!turn.stopped && at == s.next))
      && 1_000_000 * ms <= at - c.started < 1_000_000 * (ms + 1)
  {
  }

  /** Deadlines are dropped only when the loop is more than a period late, and then up to the
      last one not after the time. */
  lemma DropsWhatWentBy(c: Settings, now: int, next: int)
    requires c.period > 0
    ensures Gone(c, now, next) == 0 <==> now <= next + c.period
    ensures Gone(c, now, next) > 0 ==>
      next + c.period * Gone(c, now, next) <= now < next + c.period * Gone(c, now, next) + c.period
  {
    if now > next + c.period {
      var late := now - next;
      assert late == c.period * (late / c.period) + late % c.period;
      AtLeastOne(late, c.period);
    }
  }

  lemma AtLeastOne(late: int, period: nat)
    requires late >= period > 0
    ensures late / period >= 1
  {
  }

  // ---------- a whole run ----------

  /** However long a recording runs, its stills stay within the budget, or within the first
      still alone if that was over it. */
  lemma {:induction false} BudgetKept(c: Settings, s: State, script: Script, n: nat)
    requires c.period > 0
    ensures s.bytes <= StateAt(c, s, script, n).bytes <= Max(s.bytes, c.maxBytes)
  {
    if n > 0 {
      BudgetKept(c, s, script, n - 1);
      var before, turn := StateAt(c, s, script, n - 1), script(n - 1);
      SpendsOnStills(c, before, turn);
      FateMeans(c, before, turn);
    }
  }

  /** The loop ends when it is stopped, at the limit, or by one of four losses, and not before. */
  lemma EndsOnlyThen(c: Settings, s: State, script: Script, last: nat, j: nat)
    requires c.period > 0 && EndsFirstAt(c, s, script, last) && j <= last
    ensures var at, turn := StateAt(c, s, script, j), script(j);
      var fate := EntryOf(c, at, turn).fate;
      j == last <==> (turn.stopped || WakeTime(at, turn) >= c.started + c.limit
        || fate == Lost(UnderFloor) || fate == Lost(OverBudget) || fate == Lost(DiskFull) || fate == Lost(DirGone))
  {
    if j < last {
      assert !Ends(c, StateAt(c, s, script, j), script(j));
    }
  }

  /** What is reported is the newest trouble: that of the last tick whose grab did not come
      on show, and none if all did. */
  lemma {:induction false} NewestTrouble(ledger: seq<Entry>, i: nat)
    requires i <= |ledger| && forall j :: i <= j < |ledger| ==> ledger[j].fate == OnShow
    ensures i == 0 ==> LastTrouble(ledger) == None
    ensures i > 0 && ledger[i - 1].fate == NoGrab ==> LastTrouble(ledger) == Some(GrabFailed)
    ensures i > 0 && ledger[i - 1].fate.Lost? ==> LastTrouble(ledger) == Some(ledger[i - 1].fate.why)
  {
    if i < |ledger| {
      NewestTrouble(ledger[..|ledger| - 1], i);
    }
  }

  /** The ticks without a grab. */
  function Grabless(ledger: seq<Entry>): set<nat> {
    set i | 0 <= i < |ledger| && ledger[i].fate == NoGrab
  }

  /** Each tick without a grab is counted, once. */
  lemma {:induction false} NoGrabsCount(ledger: seq<Entry>)
    ensures NoGrabs(ledger) == |Grabless(ledger)|
  {
    if ledger != [] {
      var n := |ledger| - 1;
      NoGrabsCount(ledger[..n]);
      GrablessMore(ledger[..n], ledger[n]);
      assert ledger == ledger[..n] + [ledger[n]];
    }
  }

  lemma GrablessMore(ledger: seq<Entry>, e: Entry)
    ensures Grabless(ledger + [e]) == Grabless(ledger) + if e.fate == NoGrab then {|ledger|} else {}
  {
  }

  /** The reader's seconds are a thousand milliseconds. */
  lemma ThousandMs(ms: nat)
    ensures Seconds(1000 * ms) == ms as real
  {
  }
}
