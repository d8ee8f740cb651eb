/** What a recording's ticks come to: when they run, what becomes of each grab, and how many
    deadlines go by, as functions of what the outside does. `Record` carries it out. */
module Timeline {
  import opened Wrappers
  import opened Stills

  const MS := 1_000_000

  datatype Trouble = GrabFailed | EncodeFailed | WriteFailed | UnderFloor | OverBudget | DiskFull | DirGone | LinkFailed

  datatype Put = Written | Full | Missing | OtherFailure

  /** What the outside does in one tick: the grabbed frame at the recording's size, free
      space if it can be told, the JPEG's length, the write. */
  datatype Tick = Tick(grab: Option<Image>, free: Option<nat>, jpeg: Option<nat>, put: Put)

  /** One turn of the loop: whether it was stopped, when it woke, its tick, and when that
      was done. Times are nanoseconds and never run backwards. */
  datatype Turn = Turn(stopped: bool, wake: int, tick: Tick, done: int)

  type Script = nat -> Turn

  datatype Settings = Settings(period: nat, limit: nat, started: int, maxBytes: nat, minFree: nat)

  /** The loop between two turns: the time, the next deadline, the last picture written and
      the bytes used. */
  datatype State = State(now: int, next: int, last: Image, bytes: nat)

  /** A grab is on show at its time, lost for a reason, or there was none. */
  datatype Fate = OnShow | Lost(why: Trouble) | NoGrab

  /** One tick: its milliseconds, what came, and what became of it. */
  datatype Entry = Entry(ms: int, tick: Tick, fate: Fate)

  // ---------- one tick ----------

  /** What keeps a moved frame from the disk, if anything. */
  function Refusal(c: Settings, bytes: nat, tick: Tick): Option<Trouble> {
    if tick.free.Some? && tick.free.value < c.minFree then Some(UnderFloor)
    else if tick.jpeg.None? then Some(EncodeFailed)
    else if bytes + tick.jpeg.value > c.maxBytes then Some(OverBudget)
    else
      match tick.put
      case Written => None
      case Full => Some(DiskFull)
      case Missing => Some(DirGone)
      case OtherFailure => Some(WriteFailed)
  }

  /** A frame unlike the last still, which is written. */
  predicate Writes(c: Settings, last: Image, bytes: nat, tick: Tick) {
    tick.grab.Some? && !Same(last, tick.grab.value) && Refusal(c, bytes, tick).None?
  }

  function Judge(c: Settings, last: Image, bytes: nat, tick: Tick): Fate {
    if tick.grab.None? then NoGrab
    else if Same(last, tick.grab.value) || Refusal(c, bytes, tick).None? then OnShow
    else Lost(Refusal(c, bytes, tick).value)
  }

  function LastAfter(c: Settings, last: Image, bytes: nat, tick: Tick): Image {
    if Writes(c, last, bytes, tick) then tick.grab.value else last
  }

  function BytesAfter(c: Settings, last: Image, bytes: nat, tick: Tick): nat {
    if Writes(c, last, bytes, tick) && tick.jpeg.Some? then bytes + tick.jpeg.value else bytes
  }

  /** A loss that ends the recording. */
  predicate Fatal(f: Fate) {
    f.Lost? && f.why in {UnderFloor, OverBudget, DiskFull, DirGone}
  }

  // ---------- one turn ----------

  /** When a turn's wait is over. */
  function WakeTime(s: State, turn: Turn): int {
    var woken := Max(s.now, turn.wake);
    if turn.stopped then woken else Max(woken, s.next)
  }

  predicate Ticks(c: Settings, s: State, turn: Turn) {
    !turn.stopped && WakeTime(s, turn) - c.started < c.limit
  }

  function EntryOf(c: Settings, s: State, turn: Turn): Entry {
    Entry((WakeTime(s, turn) - c.started) / MS, turn.tick, Judge(c, s.last, s.bytes, turn.tick))
  }

  /** The loop ends in this turn: it was stopped, is out of time, or its tick was fatal. */
  predicate Ends(c: Settings, s: State, turn: Turn) {
    !Ticks(c, s, turn) || Fatal(EntryOf(c, s, turn).fate)
  }

  /** The deadlines that went by between the next one and a time. */
  function Gone(c: Settings, now: int, next: int): nat
    requires c.period > 0
  {
    if now > next + c.period then (now - next) / c.period else 0
  }

  function MissedIn(c: Settings, s: State, turn: Turn): nat
    requires c.period > 0
  {
    Gone(c, Max(WakeTime(s, turn), turn.done), s.next + c.period)
  }

  function Advance(c: Settings, s: State, turn: Turn): State
    requires c.period > 0
  {
    var now := Max(WakeTime(s, turn), turn.done);
    State(now, s.next + c.period + c.period * MissedIn(c, s, turn),
          LastAfter(c, s.last, s.bytes, turn.tick), BytesAfter(c, s.last, s.bytes, turn.tick))
  }

  // ---------- a whole run ----------

  function StateAt(c: Settings, s: State, script: Script, n: nat): State
    requires c.period > 0
  {
    if n == 0 then s else Advance(c, StateAt(c, s, script, n - 1), script(n - 1))
  }

  /** The first `n` ticks. */
  function LedgerOf(c: Settings, s: State, script: Script, n: nat): (l: seq<Entry>)
    requires c.period > 0
    ensures |l| == n
  {
    if n == 0 then [] else LedgerOf(c, s, script, n - 1) + [EntryOf(c, StateAt(c, s, script, n - 1), script(n - 1))]
  }

  /** The deadlines missed in the first `n` turns. */
  function MissedBy(c: Settings, s: State, script: Script, n: nat): nat
    requires c.period > 0
  {
    if n == 0 then 0 else MissedBy(c, s, script, n - 1) + MissedIn(c, StateAt(c, s, script, n - 1), script(n - 1))
  }

  function NoGrabs(ledger: seq<Entry>): nat {
    if ledger == [] then 0
    else NoGrabs(ledger[..|ledger| - 1]) + if ledger[|ledger| - 1].fate.NoGrab? then 1 else 0
  }

  /** The trouble to report after a tick. */
  function Troubled(before: Option<Trouble>, e: Entry): Option<Trouble> {
    match e.fate
    case NoGrab => Some(GrabFailed)
    case Lost(why) => Some(why)
    case OnShow => before
  }

  /** The newest trouble of all ticks. */
  function LastTrouble(ledger: seq<Entry>): Option<Trouble> {
    if ledger == [] then None
    else Troubled(LastTrouble(ledger[..|ledger| - 1]), ledger[|ledger| - 1])
  }

  /** `last` is the turn that ends the loop: none before it does. */
  ghost predicate EndsFirstAt(c: Settings, s: State, script: Script, last: nat)
    requires c.period > 0
  {
    && (forall j :: 0 <= j < last ==> !Ends(c, StateAt(c, s, script, j), script(j)))
    && Ends(c, StateAt(c, s, script, last), script(last))
  }

  /** How many ticks ran when turn `last` ended the loop: its own too, if that was fatal. */
  function TicksBy(c: Settings, s: State, script: Script, last: nat): nat
    requires c.period > 0
  {
    last + if Ticks(c, StateAt(c, s, script, last), script(last)) then 1 else 0
  }

  /** The milliseconds of the tick before tick `i`; the first still is at 0. */
  function MsBefore(ledger: seq<Entry>, i: nat): int
    requires i <= |ledger|
  {
    if i == 0 then 0 else ledger[i - 1].ms
  }

  /** Ticks at ever later milliseconds, the first one after the first still. */
  predicate Increasing(ledger: seq<Entry>) {
    forall i :: 0 <= i < |ledger| ==> MsBefore(ledger, i) < ledger[i].ms
  }

  function LastTickMs(ledger: seq<Entry>): int {
    MsBefore(ledger, |ledger|)
  }

  lemma IncreasingMore(ledger: seq<Entry>, e: Entry)
    ensures Increasing(ledger + [e]) <==> Increasing(ledger) && LastTickMs(ledger) < e.ms
  {
    var l := ledger + [e];
    assert forall i :: 0 <= i <= |ledger| ==> MsBefore(l, i) == MsBefore(ledger, i);
    assert MsBefore(l, |ledger|) < l[|ledger|].ms <==> LastTickMs(ledger) < e.ms;
    if Increasing(l) {
      forall i | 0 <= i < |ledger| ensures MsBefore(ledger, i) < ledger[i].ms {
        assert MsBefore(l, i) < l[i].ms;
      }
    }
  }

  /** Every entry is its turn's: a tick without a grab is one whose grab failed, and a grab
      is on show, or lost for what refused it after the turns before. */
  lemma {:induction false} LedgerAt(c: Settings, s: State, script: Script, n: nat, j: nat)
    requires c.period > 0 && j < n
    ensures LedgerOf(c, s, script, n)[j] == EntryOf(c, StateAt(c, s, script, j), script(j))
    ensures LedgerOf(c, s, script, n)[j].fate.NoGrab? <==> script(j).tick.grab.None?
  {
    if j < n - 1 {
      LedgerAt(c, s, script, n - 1, j);
    }
  }

  /** The deadlines stay on their grid, and after a turn the loop is at most one period late. */
  lemma {:induction false} Grid(c: Settings, s: State, script: Script, n: nat)
    requires c.period > 0 && s.next == c.started + c.period
    ensures StateAt(c, s, script, n).next == c.started + c.period * (1 + n + MissedBy(c, s, script, n))
    ensures n > 0 ==> StateAt(c, s, script, n).now <= StateAt(c, s, script, n).next + c.period
  {
    if n > 0 {
      Grid(c, s, script, n - 1);
      var before, turn := StateAt(c, s, script, n - 1), script(n - 1);
      GridStep(c.started, c.period, n + MissedBy(c, s, script, n - 1), MissedIn(c, before, turn));
      NotLate(c, Max(WakeTime(before, turn), turn.done), before.next + c.period);
    }
  }

  lemma GridStep(started: int, period: nat, n: nat, gone: nat)
    ensures started + period * n + period + period * gone == started + period * (1 + n + gone)
  {
  }

  lemma NotLate(c: Settings, now: int, next: int)
    requires c.period > 0
    ensures now <= next + c.period * Gone(c, now, next) + c.period
  {
    if now > next + c.period {
      assert now - next == c.period * ((now - next) / c.period) + (now - next) % c.period;
    }
  }

  lemma TalliesMore(ledger: seq<Entry>, e: Entry)
    ensures NoGrabs(ledger + [e]) == NoGrabs(ledger) + if e.fate.NoGrab? then 1 else 0
    ensures LastTrouble(ledger + [e]) == Troubled(LastTrouble(ledger), e)
  {
    assert (ledger + [e])[..|ledger|] == ledger;
  }
}
