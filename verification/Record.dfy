/** The recorder's loop: ticks on a grid of deadlines, stills only where the picture moved. */
module Record {
  import opened Wrappers
  import opened Arith
  import opened Stills
  import opened Timeline

  // ---------- pictures and stills ----------

  /** What is shown at a time is a picture, within the tolerance. */
  ghost predicate Shown(dir: Dir, ms: int, image: Image) {
    forall s: nat :: ms >= 0 && Shows(dir, ms, s) ==> Same(dir[s], image)
  }

  /** Every grab on show is shown at its time. */
  ghost predicate AllShown(dir: Dir, ledger: seq<Entry>) {
    forall i :: 0 <= i < |ledger| && ledger[i].fate.OnShow? && ledger[i].tick.grab.Some? ==>
      Shown(dir, ledger[i].ms, ledger[i].tick.grab.value)
  }

  predicate NoneLater(ledger: seq<Entry>, ms: int) {
    forall i :: 0 <= i < |ledger| ==> ledger[i].ms <= ms
  }

  /** The newest still is the last picture written. */
  predicate Newest(dir: Dir, lastMs: nat, last: Image) {
    0 in dir && lastMs in dir && dir[lastMs] == last && forall k :: k in dir ==> k <= lastMs
  }

  lemma ShowsBack(dir: Dir, ms: nat, image: Image, t: nat, s: nat)
    requires Shows(dir[ms := image], t, s) && s != ms
    ensures Shows(dir, t, s) && dir[ms := image][s] == dir[s]
  {
    forall k | k in dir && k <= t ensures k <= s {
      assert k in dir[ms := image];
    }
  }

  /** A frame like the last still is shown by it. */
  lemma SameShown(dir: Dir, lastMs: nat, last: Image, ms: nat, image: Image)
    requires Newest(dir, lastMs, last) && lastMs <= ms && Same(last, image)
    ensures Shown(dir, ms, image)
  {
  }

  /** A new still shows its frame. */
  lemma NewShown(dir: Dir, ms: nat, image: Image)
    ensures Shown(dir[ms := image], ms, image)
  {
    var d := dir[ms := image];
    forall s: nat | Shows(d, ms, s) ensures Same(d[s], image) {
      assert ms in d;
    }
  }

  /** A later still hides no earlier picture. */
  lemma StillShown(dir: Dir, t: int, shown: Image, ms: nat, image: Image)
    requires Shown(dir, t, shown) && t < ms
    ensures Shown(dir[ms := image], t, shown)
  {
    var d := dir[ms := image];
    forall s: nat | t >= 0 && Shows(d, t, s) ensures Same(d[s], shown) {
      ShowsBack(dir, ms, image, t, s);
    }
  }

  /** The closing still shows what the last one showed. */
  lemma ClosedShown(dir: Dir, t: int, shown: Image, lastMs: nat, last: Image, end: nat)
    requires Shown(dir, t, shown) && Newest(dir, lastMs, last) && lastMs < end
    ensures Shown(dir[end := last], t, shown)
  {
    var d := dir[end := last];
    forall s: nat | t >= 0 && Shows(d, t, s) ensures Same(d[s], shown) {
      if s == end {
        assert Shows(dir, t, lastMs);
      } else {
        ShowsBack(dir, end, last, t, s);
      }
    }
  }

  /** At no time does the closing still change what is shown. */
  lemma ClosingChangesNothing(dir: Dir, lastMs: nat, last: Image, end: nat, t: nat, s: nat, s': nat)
    requires Newest(dir, lastMs, last) && lastMs < end
    requires Shows(dir, t, s) && Shows(dir[end := last], t, s')
    ensures dir[end := last][s'] == dir[s]
  {
    if s' == end {
      assert lastMs in dir;
    } else {
      assert s in dir[end := last];
    }
  }

  /** The stills, and what they owe the ticks so far. */
  ghost predicate PicturesOk(dir: Dir, lastMs: nat, last: Image, frames: nat, ledger: seq<Entry>) {
    && Newest(dir, lastMs, last) && lastMs <= LastTickMs(ledger) && NoneLater(ledger, LastTickMs(ledger))
    && (Increasing(ledger) ==> AllShown(dir, ledger) && frames == |dir|)
  }

  /** A tick that writes nothing: its grab is like the last still, lost, or failed. */
  lemma QuietOk(dir: Dir, lastMs: nat, last: Image, frames: nat, ledger: seq<Entry>, e: Entry)
    requires PicturesOk(dir, lastMs, last, frames, ledger) && LastTickMs(ledger) <= e.ms
    requires e.fate.OnShow? && e.tick.grab.Some? ==> Same(last, e.tick.grab.value)
    ensures PicturesOk(dir, lastMs, last, frames, ledger + [e])
  {
    IncreasingMore(ledger, e);
    if e.fate.OnShow? && e.tick.grab.Some? {
      SameShown(dir, lastMs, last, e.ms, e.tick.grab.value);
    }
  }

  /** A tick that writes its frame. */
  lemma WrittenOk(dir: Dir, lastMs: nat, last: Image, frames: nat, ledger: seq<Entry>, e: Entry, image: Image)
    requires PicturesOk(dir, lastMs, last, frames, ledger) && LastTickMs(ledger) <= e.ms && e.tick.grab == Some(image)
    ensures PicturesOk(dir[e.ms := image], e.ms, image, frames + 1, ledger + [e])
  {
    IncreasingMore(ledger, e);
    if Increasing(ledger + [e]) {
      WrittenShown(dir, ledger, e, image);
      assert dir[e.ms := image].Keys == dir.Keys + {e.ms};
    }
  }

  lemma WrittenShown(dir: Dir, ledger: seq<Entry>, e: Entry, image: Image)
    requires AllShown(dir, ledger) && NoneLater(ledger, LastTickMs(ledger))
    requires 0 <= LastTickMs(ledger) < e.ms && e.tick.grab == Some(image)
    ensures AllShown(dir[e.ms := image], ledger + [e])
  {
    var l := ledger + [e];
    NewShown(dir, e.ms, image);
    forall i | 0 <= i < |l| && l[i].fate.OnShow? && l[i].tick.grab.Some?
      ensures Shown(dir[e.ms := image], l[i].ms, l[i].tick.grab.value)
    {
      if i < |ledger| {
        StillShown(dir, ledger[i].ms, ledger[i].tick.grab.value, e.ms, image);
      }
    }
  }

  lemma ClosedOk(dir: Dir, lastMs: nat, last: Image, frames: nat, ledger: seq<Entry>, end: nat)
    requires PicturesOk(dir, lastMs, last, frames, ledger) && lastMs < end
    ensures Newest(dir[end := last], end, last)
    ensures Increasing(ledger) ==> AllShown(dir[end := last], ledger) && frames + 1 == |dir[end := last]|
  {
    if Increasing(ledger) {
      forall i | 0 <= i < |ledger| && ledger[i].fate.OnShow? && ledger[i].tick.grab.Some?
        ensures Shown(dir[end := last], ledger[i].ms, ledger[i].tick.grab.value)
      {
        ClosedShown(dir, ledger[i].ms, ledger[i].tick.grab.value, lastMs, last, end);
      }
      assert dir[end := last].Keys == dir.Keys + {end};
    }
  }

  // ---------- the loop ----------

  class Loop {
    const c: Settings
    var now: int
    var dir: Dir
    var last: Image
    var lastMs: nat
    var bytes: nat
    var frames: nat
    var dropped: nat
    var error: Option<Trouble>
    var stopReason: Option<Trouble>
    /** The ticks so far. */
    ghost var ledger: seq<Entry>

    /** The time a tick is filed under. */
    function Elapsed(): int
      reads this`now
    {
      (now - c.started) / MS
    }

    /** The trouble to report: what ended the recording, or the newest. */
    function Reported(): Option<Trouble>
      reads this`stopReason, this`error
    {
      if stopReason.Some? then stopReason else error
    }

    ghost predicate Valid()
      reads this
    {
      && c.period > 0 && c.started <= now && LastTickMs(ledger) <= Elapsed()
      && PicturesOk(dir, lastMs, last, frames, ledger)
    }

    /** The recorder as `Recorder::start` leaves it: the first still is written. */
    constructor (c: Settings, first: Image, firstBytes: nat, now: int)
      requires c.period > 0 && c.started <= now
      ensures Valid() && dir == map[0 := first] && ledger == [] && dropped == 0 && error.None? && stopReason.None?
      ensures this.c == c && this.now == now && last == first && bytes == firstBytes
    {
      this.c, this.now := c, now;
      dir, last, lastMs, bytes, frames, dropped := map[0 := first], first, 0, firstBytes, 1, 0;
      error, stopReason, ledger := None, None, [];
    }

    /** Time goes on. */
    method Pass(until: int)
      requires Valid()
      modifies this`now
      ensures Valid() && now == Max(old(now), until)
    {
      if until > now {
        now := until;
        LaterMs(old(now) - c.started, now - c.started);
      }
    }

    /** A still written under its milliseconds. */
    method PutStill(ms: nat, image: Image, tick: Tick)
      requires Valid() && ms == Elapsed() && tick.grab == Some(image) && Writes(c, last, bytes, tick)
      modifies this`dir, this`last, this`lastMs, this`bytes, this`frames, this`ledger
      ensures Valid() && ledger == old(ledger) + [Entry(ms, tick, OnShow)]
      ensures dir == old(dir)[ms := image] && last == image && bytes == old(bytes) + tick.jpeg.value
    {
      WrittenOk(dir, lastMs, last, frames, ledger, Entry(ms, tick, OnShow), image);
      dir := dir[ms := image];
      bytes := bytes + tick.jpeg.value;
      last, lastMs := image, ms;
      frames := frames + 1;
      ledger := ledger + [Entry(ms, tick, OnShow)];
    }

    /** A tick that writes nothing, in the ledger. */
    ghost method Note(ms: nat, tick: Tick, fate: Fate)
      requires Valid() && ms == Elapsed()
      requires fate.OnShow? && tick.grab.Some? ==> Same(last, tick.grab.value)
      modifies this`ledger
      ensures Valid() && ledger == old(ledger) + [Entry(ms, tick, fate)]
    {
      QuietOk(dir, lastMs, last, frames, ledger, Entry(ms, tick, fate));
      ledger := ledger + [Entry(ms, tick, fate)];
    }

    /** A moved frame: write it, within the floor and the budget. */
    method Moved(ms: nat, image: Image, tick: Tick)
      requires Valid() && ms == Elapsed() && stopReason.None? && tick.grab == Some(image) && !Same(last, image)
      modifies this`dir, this`last, this`lastMs, this`bytes, this`frames, this`error, this`stopReason, this`ledger
      ensures Valid() && ledger == old(ledger) + [Entry(ms, tick, Judge(c, old(last), old(bytes), tick))]
      ensures last == LastAfter(c, old(last), old(bytes), tick) && bytes == BytesAfter(c, old(last), old(bytes), tick)
      ensures var fate := Judge(c, old(last), old(bytes), tick);
        && stopReason == (if Fatal(fate) then Some(fate.why) else None)
        && error == (if fate.Lost? && !Fatal(fate) then Some(fate.why) else old(error))
    {
      if tick.free.Some? && tick.free.value < c.minFree {
        stopReason := Some(UnderFloor);
      } else if tick.jpeg.None? {
        error := Some(EncodeFailed);
      } else if bytes + tick.jpeg.value > c.maxBytes {
        stopReason := Some(OverBudget);
      } else {
        match tick.put {
          case Written =>
            PutStill(ms, image, tick);
            return;
          case Full => stopReason := Some(DiskFull);
          case Missing => stopReason := Some(DirGone);
          case OtherFailure => error := Some(WriteFailed);
        }
      }
      Note(ms, tick, Judge(c, last, bytes, tick));
    }

    /** One tick, now. */
    method DoTick(tick: Tick)
      requires Valid() && stopReason.None?
      modifies this`dir, this`last, this`lastMs, this`bytes, this`frames, this`error, this`stopReason, this`dropped, this`ledger
      ensures Valid() && ledger == old(ledger) + [Entry(Elapsed(), tick, Judge(c, old(last), old(bytes), tick))]
      ensures last == LastAfter(c, old(last), old(bytes), tick) && bytes == BytesAfter(c, old(last), old(bytes), tick)
      ensures dropped == old(dropped) + if tick.grab.None? then 1 else 0
      ensures var e := Entry(Elapsed(), tick, Judge(c, old(last), old(bytes), tick));
        && stopReason == (if Fatal(e.fate) then Some(e.fate.why) else None)
        && Reported() == Troubled(old(error), e)
    {
      match tick.grab {
        case None =>
          dropped := dropped + 1;
          error := Some(GrabFailed);
          Note(Elapsed(), tick, NoGrab);
        case Some(image) =>
          if Same(last, image) {
            Note(Elapsed(), tick, OnShow);
          } else {
            Moved(Elapsed(), image, tick);
          }
      }
    }

    /** The deadline after a tick: those that went by are dropped, not burst. */
    method CatchUp(next: int) returns (next': int)
      requires Valid()
      modifies this`dropped
      ensures Valid() && next' == next + c.period * Gone(c, now, next) && dropped == old(dropped) + Gone(c, now, next)
    {
      next' := next;
      if now > next + c.period {
        var gone := (now - next) / c.period;
        next' := next + c.period * gone;
        dropped := dropped + gone;
      }
    }

    /** Wait for the deadline, or for being stopped. */
    method Await(turn: Turn, next: int)
      requires Valid()
      modifies this`now
      ensures Valid() && now == WakeTime(State(old(now), next, last, bytes), turn)
    {
      Pass(turn.wake);
      if !turn.stopped {
        Pass(next);
      }
    }

    /** One turn: wait for the deadline, tick, and catch up; or the end. */
    method TakeTurn(turn: Turn, next: int, ghost s: State) returns (on: bool, next': int)
      requires Valid() && stopReason.None? && s == State(now, next, last, bytes)
      modifies this
      ensures Valid() && on == !Ends(c, s, turn)
      ensures ledger == if Ticks(c, s, turn) then old(ledger) + [EntryOf(c, s, turn)] else old(ledger)
      ensures on ==> stopReason.None? && State(now, next', last, bytes) == Advance(c, s, turn)
      ensures !on ==> now == WakeTime(s, turn)
      ensures !on ==> stopReason == if Ticks(c, s, turn) then Some(EntryOf(c, s, turn).fate.why) else None
      ensures Reported() == if Ticks(c, s, turn) then Troubled(old(error), EntryOf(c, s, turn)) else old(error)
      ensures dropped == old(dropped) + (if on then MissedIn(c, s, turn) else 0)
        + if Ticks(c, s, turn) && turn.tick.grab.None? then 1 else 0
    {
      Await(turn, next);
      if turn.stopped || now - c.started >= c.limit {
        return false, next;
      }
      next' := next + c.period;
      DoTick(turn.tick);
      on := stopReason.None?;
      if on {
        Pass(turn.done);
        next' := CatchUp(next');
      }
    }

    /** The end: the newest picture is put once more, under the time the recording stopped. */
    method Finish(link: bool)
      requires Valid()
      modifies this`dir, this`frames, this`error
      ensures var end := Min(now - c.started, c.limit) / MS;
        && dir == (if end > lastMs && link then old(dir)[end := last] else old(dir))
        && error == (if stopReason.Some? then stopReason else if end > lastMs && !link then Some(LinkFailed) else old(error))
      ensures error == old(Reported()) || (error == Some(LinkFailed) && !link && stopReason.None?)
      ensures 0 in dir && (Increasing(ledger) ==> AllShown(dir, ledger) && frames == |dir|)
    {
      var end := Min(now - c.started, c.limit) / MS;
      var failed := false;
      if end > lastMs {
        if link {
          ClosedOk(dir, lastMs, last, frames, ledger, end);
          dir := dir[end := last];
          frames := frames + 1;
        } else {
          failed := true;
        }
      }
      if stopReason.Some? {
        error := stopReason;
      } else if failed {
        error := Some(LinkFailed);
      }
    }

    /** Ticks until stopped, out of time or out of room; then the closing still. `turns` is
        the number of turns before the one that ended it. */
    method Run(script: Script, link: bool, ghost s: State) returns (ghost turns: nat)
      requires s == State(now, c.started + c.period, last, bytes)
      requires Valid() && stopReason.None? && error.None? && ledger == [] && dropped == 0
      modifies this
      ensures Ended(c, s, script, turns, ledger, dropped)
      ensures error == LastTrouble(ledger) || (error == Some(LinkFailed) && !link && stopReason.None?)
      ensures 0 in dir && (Increasing(ledger) ==> AllShown(dir, ledger) && frames == |dir|)
    {
      var next := c.started + c.period;
      var k, on := 0, true;
      turns := 0;
      while on
        invariant Valid() && (on ==> stopReason.None?) && Reported() == LastTrouble(ledger)
        invariant on ==> Underway(c, s, script, k, State(now, next, last, bytes), ledger, dropped)
        invariant !on ==> Ended(c, s, script, turns, ledger, dropped)
        decreases on, c.limit - (next - c.started)
      {
        ghost var here := State(now, next, last, bytes);
        turns := k;
        if !Ticks(c, here, script(k)) {
          StoppedHere(c, s, script, k, here, ledger, dropped);
        } else if Ends(c, here, script(k)) {
          FatalHere(c, s, script, k, here, ledger, dropped, EntryOf(c, here, script(k)));
        } else {
          TurnTaken(c, s, script, k, here, ledger, dropped, EntryOf(c, here, script(k)));
          NextLater(c, here, script(k));
        }
        on, next := TakeTurn(script(k), next, here);
        k := k + 1;
      }
      Finish(link);
    }
  }

  /** `k` turns have been taken, none of which ended the loop. */
  ghost predicate Underway(c: Settings, s: State, script: Script, k: nat, here: State, ledger: seq<Entry>, dropped: nat) {
    && c.period > 0 && here == StateAt(c, s, script, k)
    && ledger == LedgerOf(c, s, script, k) && dropped == MissedBy(c, s, script, k) + NoGrabs(ledger)
    && forall j :: 0 <= j < k ==> !Ends(c, StateAt(c, s, script, j), script(j))
  }

  ghost predicate Ended(c: Settings, s: State, script: Script, turns: nat, ledger: seq<Entry>, dropped: nat) {
    && c.period > 0 && EndsFirstAt(c, s, script, turns)
    && ledger == LedgerOf(c, s, script, TicksBy(c, s, script, turns))
    && dropped == MissedBy(c, s, script, turns) + NoGrabs(ledger)
  }

  lemma NoneEnds(c: Settings, s: State, script: Script, k: nat)
    requires c.period > 0 && !Ends(c, StateAt(c, s, script, k), script(k))
    requires forall j :: 0 <= j < k ==> !Ends(c, StateAt(c, s, script, j), script(j))
    ensures forall j :: 0 <= j < k + 1 ==> !Ends(c, StateAt(c, s, script, j), script(j))
  {
  }

  lemma OneMoreTurn(c: Settings, s: State, script: Script, k: nat, here: State)
    requires c.period > 0 && here == StateAt(c, s, script, k)
    ensures StateAt(c, s, script, k + 1) == Advance(c, here, script(k))
    ensures LedgerOf(c, s, script, k + 1) == LedgerOf(c, s, script, k) + [EntryOf(c, here, script(k))]
    ensures MissedBy(c, s, script, k + 1) == MissedBy(c, s, script, k) + MissedIn(c, here, script(k))
  {
  }

  lemma TurnTaken(c: Settings, s: State, script: Script, k: nat, here: State, ledger: seq<Entry>, dropped: nat, e: Entry)
    requires Underway(c, s, script, k, here, ledger, dropped) && !Ends(c, here, script(k)) && e == EntryOf(c, here, script(k))
    ensures Underway(c, s, script, k + 1, Advance(c, here, script(k)), ledger + [e],
                     dropped + MissedIn(c, here, script(k)) + if e.fate.NoGrab? then 1 else 0)
  {
    TalliesMore(ledger, e);
    OneMoreTurn(c, s, script, k, here);
    NoneEnds(c, s, script, k);
  }

  /** A turn that does not end the loop moves the deadline on, by a period at least. */
  lemma NextLater(c: Settings, here: State, turn: Turn)
    requires c.period > 0 && !Ends(c, here, turn)
    ensures here.next + c.period <= Advance(c, here, turn).next && here.next < c.started + c.limit
  {
    MulNat(c.period, MissedIn(c, here, turn));
  }

  lemma EndsHere(c: Settings, s: State, script: Script, k: nat)
    requires c.period > 0 && Ends(c, StateAt(c, s, script, k), script(k))
    requires forall j :: 0 <= j < k ==> !Ends(c, StateAt(c, s, script, j), script(j))
    ensures EndsFirstAt(c, s, script, k)
  {
  }

  /** The loop was stopped or out of time. */
  lemma StoppedHere(c: Settings, s: State, script: Script, k: nat, here: State, ledger: seq<Entry>, dropped: nat)
    requires Underway(c, s, script, k, here, ledger, dropped) && !Ticks(c, here, script(k))
    ensures Ended(c, s, script, k, ledger, dropped)
  {
    EndsHere(c, s, script, k);
    assert TicksBy(c, s, script, k) == k;
  }

  /** The tick was fatal. */
  lemma FatalHere(c: Settings, s: State, script: Script, k: nat, here: State, ledger: seq<Entry>, dropped: nat, e: Entry)
    requires Underway(c, s, script, k, here, ledger, dropped) && Ticks(c, here, script(k))
    requires e == EntryOf(c, here, script(k)) && Fatal(e.fate)
    ensures Ended(c, s, script, k, ledger + [e], dropped)
  {
    EndsHere(c, s, script, k);
    LastTick(c, s, script, k);
    TalliesMore(ledger, e);
  }

  lemma LastTick(c: Settings, s: State, script: Script, k: nat)
    requires c.period > 0 && Ticks(c, StateAt(c, s, script, k), script(k))
    ensures LedgerOf(c, s, script, TicksBy(c, s, script, k))
      == LedgerOf(c, s, script, k) + [EntryOf(c, StateAt(c, s, script, k), script(k))]
  {
    OneMoreTurn(c, s, script, k, StateAt(c, s, script, k));
  }

  // ---------- a whole recording ----------

  /** The reader picks the picture at a time, within the tolerance. */
  predicate Plays(stills: seq<nat>, dir: Dir, ms: int, image: Image) {
    && ms >= 0
    && var k := Showing(stills, Seconds(ms)); k < |stills| && stills[k] in dir && Same(dir[stills[k]], image)
  }

  /** However the reader lists the directory, every grab on show plays at its tick's time. */
  ghost predicate AllPlay(dir: Dir, ledger: seq<Entry>) {
    forall j, stills :: 0 <= j < |ledger| && ledger[j].fate.OnShow? && ledger[j].tick.grab.Some? && Lists(stills, dir) ==>
      Plays(stills, dir, ledger[j].ms, ledger[j].tick.grab.value)
  }

  lemma {:induction false} PositiveMs(ledger: seq<Entry>, j: nat)
    requires Increasing(ledger) && j < |ledger|
    ensures ledger[j].ms > 0
  {
    assert MsBefore(ledger, j) < ledger[j].ms;
    if j > 0 {
      PositiveMs(ledger, j - 1);
    }
  }

  /** Writer and reader together. */
  lemma EndToEnd(dir: Dir, ledger: seq<Entry>)
    requires Increasing(ledger) && AllShown(dir, ledger) && 0 in dir
    ensures AllPlay(dir, ledger)
  {
    forall j, stills | 0 <= j < |ledger| && ledger[j].fate.OnShow? && ledger[j].tick.grab.Some? && Lists(stills, dir)
      ensures Plays(stills, dir, ledger[j].ms, ledger[j].tick.grab.value)
    {
      PositiveMs(ledger, j);
      ShowingShows(stills, dir, ledger[j].ms);
      assert Shown(dir, ledger[j].ms, ledger[j].tick.grab.value);
    }
  }

  /** A recording from its first still to its closing one, whatever the clock, the display
      and the disk do: `turns` is where it ended, `ledger` what became of `script`'s ticks. */
  method RecordAll(c: Settings, first: Image, firstBytes: nat, now: int, script: Script, link: bool)
    returns (dir: Dir, frames: nat, dropped: nat, error: Option<Trouble>, ghost turns: nat, ghost ledger: seq<Entry>)
    requires c.period > 0 && c.started <= now
    ensures Ended(c, State(now, c.started + c.period, first, firstBytes), script, turns, ledger, dropped)
    ensures Increasing(ledger) ==> AllPlay(dir, ledger) && frames == |dir|
    ensures error == LastTrouble(ledger) || (error == Some(LinkFailed) && !link)
  {
    var recording := new Loop(c, first, firstBytes, now);
    turns := recording.Run(script, link, State(now, c.started + c.period, first, firstBytes));
    dir, frames, dropped, error := recording.dir, recording.frames, recording.dropped, recording.error;
    ledger := recording.ledger;
    if Increasing(ledger) {
      EndToEnd(dir, ledger);
    }
  }

  lemma LaterMs(a: int, b: int)
    requires a <= b
    ensures a / MS <= b / MS
  {
  }
}
