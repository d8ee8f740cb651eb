/** What each locked operation does to the machine, and what every run of them keeps. */
module XvfbSpec {
  import opened Wrappers
  import opened XvfbWorld

  // ---------- the steps ----------

  datatype Liveness = Live(display: nat, proc: Proc) | Silent(display: nat, proc: Proc) | Gone

  datatype Stopped = Yes | NotOurs | StillAnswering

  datatype Outcome = Attached(display: nat) | Reused(display: nat, pid: nat) | Started(display: nat, pid: nat) | Refused

  /** Polls between SIGTERM and giving up: the deadline over the pause between polls. */
  const XVFB_POLLS := 60
  const WM_POLLS := 40
  const BLIND_POLLS := 50

  /** The pidfile, if it names a pid that may be signalled. */
  function PidOf(dir: Dir): Option<Proc> {
    if dir.pidfile.Some? && ValidPid(dir.pidfile.value.pid) then dir.pidfile else None
  }

  function WmOf(dir: Dir): Option<Wm> {
    if dir.wm.Some? && ValidPid(dir.wm.value.proc.pid) then dir.wm else None
  }

  function Check(w: World, probe: nat -> Probe): Liveness {
    if w.dir.env.None? || PidOf(w.dir).None? then Gone
    else
      var display, p := w.dir.env.value, w.dir.pidfile.value;
      if w.dir.nonce.None? && !IsXvfb(w, p) then Gone
      else
        match probe(display)
        case Answered(n) => if w.dir.nonce.None? || n == w.dir.nonce then Live(display, p) else Gone
        case Absent => Gone
        case Mute => Silent(display, p)
  }

  function Clear(w: World): World {
    w.(dir := NO_DIR)
  }

  function Signalled(w: World, signal: Signal, pid: nat): World {
    w.(sent := w.sent + [Sent(signal, Actual(w, pid))])
  }

  /** The process at `pid` ends; another one may have taken the pid. */
  function Vacate(w: World, pid: nat, heir: Option<Kind>): World {
    w.(procs := if heir.Some? then w.procs[pid := Process(w.clock, heir.value, false)] else w.procs - {pid},
       clock := w.clock + 1)
  }

  predicate EndsInTime(w: World, pid: nat, term: AfterTerm, polls: nat) {
    term.Dies? && term.poll <= polls && !(pid in w.procs && w.procs[pid].halted)
  }

  /** Whether the wait after SIGTERM still finds the process. */
  predicate Remains(w: World, p: Proc, xvfb: bool) {
    if xvfb then IsXvfb(w, p) else IsSame(w, p)
  }

  function Waited(w: World, p: Proc, term: AfterTerm, polls: nat): World {
    var asked := Signalled(w, Term, p.pid);
    if EndsInTime(w, p.pid, term, polls) then Vacate(asked, p.pid, term.heir) else asked
  }

  /** SIGTERM, then SIGKILL to a process that outlasts the polls. */
  function Terminate(w: World, p: Proc, xvfb: bool, term: AfterTerm, polls: nat): World {
    var waited := Waited(w, p, term, polls);
    if Remains(waited, p, xvfb) then Vacate(Signalled(waited, Kill, p.pid), p.pid, None) else waited
  }

  function StopWm(w: World, env: Env): World {
    if WmOf(w.dir).None? then w
    else
      var p := w.dir.wm.value.proc;
      var forgotten := w.(dir := w.dir.(wm := None));
      if w.haveProc && IsSame(w, p) then Terminate(forgotten, p, false, env.wmTerm, WM_POLLS) else forgotten
  }

  function Stop(w: World, p: Proc, display: Option<nat>, nonce: Option<nat>, env: Env): (World, Stopped) {
    if !ValidPid(p.pid) then (w, NotOurs)
    else if w.haveProc then
      if IsXvfb(w, p) then (Terminate(w, p, true, env.xvfbTerm, XVFB_POLLS), Yes) else (w, NotOurs)
    else StopBlind(w, p, display, nonce, env)
  }

  /** Without `/proc`: the display must answer with the nonce, and SIGKILL is never sent. */
  function StopBlind(w: World, p: Proc, display: Option<nat>, nonce: Option<nat>, env: Env): (World, Stopped) {
    if display.None? || nonce.None? || p.pid !in w.procs || env.probe(display.value) != Answered(nonce) then (w, NotOurs)
    else
      var asked := Signalled(w, Term, p.pid);
      if EndsInTime(w, p.pid, env.xvfbTerm, BLIND_POLLS) then (Vacate(asked, p.pid, env.xvfbTerm.heir), Yes)
      else if env.xvfbTerm.GoesMute? then (asked, Yes)
      else (asked, StillAnswering)
  }

  function AddUser(w: World, me: nat, xvfb: Ident): World {
    w.(dir := w.dir.(users := w.dir.users[me := StartOf(w, me)]),
       past := w.past.(got := w.past.got[Actual(w, me) := xvfb]))
  }

  predicate StarterDead(w: World) {
    match w.dir.owner
    case Some(McpOwner(o)) => !(ValidPid(o) && o in w.procs)
    case Some(UpOwner) => false
    case None => true
  }

  function Adopt(w: World, xvfb: Ident): World {
    w.(dir := w.dir.(owner := Some(UpOwner)), past := w.past.(upOwned := w.past.upOwned + {xvfb}))
  }

  /** `up` takes the server over for good; an mcp becomes a user, and takes it over from
      a dead starter. */
  function Reuse(w: World, owner: Owner, p: Proc): World {
    match owner
    case UpOwner => Adopt(w, Actual(w, p.pid))
    case McpOwner(me) =>
      var joined := AddUser(w, me, Actual(w, p.pid));
      if StarterDead(w) then joined.(dir := joined.dir.(owner := Some(owner))) else joined
  }

  function StartWm(w: World, cmd: nat, env: Env): (World, bool) {
    if env.wmStart.None? then (w, false)
    else
      var pid := env.wmStart.value;
      var born := w.(procs := w.procs[pid := Process(w.clock, OtherKind, false)], clock := w.clock + 1);
      (born.(dir := w.dir.(wm := Some(Wm(cmd, Proc(pid, StartOf(born, pid))))),
             past := w.past.(wms := w.past.wms + {Ident(pid, w.clock)})), true)
  }

  function RunWm(w: World, cmd: nat, env: Env): (World, bool) {
    if WmOf(w.dir).Some? && w.dir.wm.value.cmd == cmd && IsSame(w, w.dir.wm.value.proc) then (w, true)
    else StartWm(StopWm(w, env), cmd, env)
  }

  function ApplyWm(w: World, want: WmWant, env: Env): (World, bool) {
    match want
    case Leave => (w, true)
    case NoWm => (StopWm(w, env), true)
    case Auto => if env.wmFound.None? then (w, true) else RunWm(w, env.wmFound.value, env)
    case Run(cmd) => RunWm(w, cmd, env)
  }

  function Registered(w: World, owner: Owner, xvfb: Ident): World {
    match owner
    case UpOwner => Adopt(w, xvfb)
    case McpOwner(me) => AddUser(w, me, xvfb)
  }

  /** A fresh Xvfb with a nonce on its root, written to the state dir. */
  function Born(w: World, s: Spawned, owner: Owner): World {
    var born := w.(procs := w.procs[s.pid := Process(w.clock, XvfbKind(s.display, Some(s.nonce)), false)], clock := w.clock + 1);
    var me := Ident(s.pid, w.clock);
    born.(dir := w.dir.(env := Some(s.display), pidfile := Some(Proc(s.pid, StartOf(born, s.pid))),
                        nonce := Some(s.nonce), owner := Some(owner)),
          past := w.past.(nonces := w.past.nonces[s.nonce := me], xvfbs := w.past.xvfbs + {me}))
  }

  function StartXvfb(w: World, owner: Owner, want: WmWant, env: Env): (World, Outcome) {
    if env.spawn.None? || !env.spawn.value.marked then (w, Refused)
    else
      var s := env.spawn.value;
      var (done, ok) := ApplyWm(Registered(Born(w, s, owner), owner, Ident(s.pid, w.clock)), want, env);
      (done, if ok then Started(s.display, s.pid) else Refused)
  }

  function Asks(want: WmWant): bool {
    want.Auto? || want.Run?
  }

  /** No server of xcua's answers any more: a recorded foreign display, or a new Xvfb. */
  function UpFresh(w: World, args: UpArgs, want: WmWant, env: Env): (World, Outcome) {
    if w.dir.pidfile.None? && w.dir.env.Some? && env.probe(w.dir.env.value).Answered? then
      (w, if args.restart || Asks(args.wm) then Refused else Attached(w.dir.env.value))
    else StartXvfb(Clear(StopWm(w, env)), args.owner, want, env)
  }

  function UpReuse(w: World, args: UpArgs, display: nat, p: Proc, env: Env): (World, Outcome) {
    if env.mismatch then (w, Refused)
    else
      var (done, ok) := ApplyWm(Reuse(w, args.owner, p), args.wm, env);
      (done, if ok then Reused(display, p.pid) else Refused)
  }

  /** Without a wish of its own, a restart wants the window manager of before. */
  function WantAgain(w: World, want: WmWant): WmWant {
    if want.Leave? && WmOf(w.dir).Some? && IsSame(w, w.dir.wm.value.proc) then Run(w.dir.wm.value.cmd) else want
  }

  function UpRestart(w: World, args: UpArgs, display: nat, p: Proc, env: Env): (World, Outcome) {
    var (stopped, how) := Stop(StopWm(w, env), p, Some(display), w.dir.nonce, env);
    if how.StillAnswering? then (stopped, Refused)
    else UpFresh(Clear(stopped), args, WantAgain(w, args.wm), env)
  }

  function UpSilent(w: World, args: UpArgs, p: Proc, env: Env): (World, Outcome) {
    if IsXvfb(w, p) && w.procs[p.pid].halted then UpFresh(Stop(w, p, None, None, env).0, args, args.wm, env)
    else (w, Refused)
  }

  function UpDisplay(w: World, args: UpArgs, d: nat, env: Env): (World, Outcome) {
    if args.restart || Asks(args.wm) then (w, Refused)
    else
      match Check(w, env.probe)
      case Live(own, p) => if own == d then (Reuse(w, args.owner, p), Reused(own, p.pid)) else (w, Refused)
      case Silent(_, _) => (w, Refused)
      case Gone =>
        if env.probe(d).Answered? then (Clear(w).(dir := NO_DIR.(env := Some(d))), Attached(d)) else (w, Refused)
  }

  function UpOwn(w: World, args: UpArgs, env: Env): (World, Outcome) {
    match Check(w, env.probe)
    case Live(d, p) => if args.restart then UpRestart(w, args, d, p, env) else UpReuse(w, args, d, p, env)
    case Silent(_, p) => UpSilent(w, args, p, env)
    case Gone => UpFresh(w, args, args.wm, env)
  }

  function UpSpec(w: World, args: UpArgs, env: Env): (World, Outcome) {
    if !env.locked then (w, Refused)
    else if args.display.Some? then UpDisplay(w, args, args.display.value, env)
    else UpOwn(w, args, env)
  }

  function DownSpec(w: World, env: Env): World {
    if !env.locked then w
    else
      var quiet := StopWm(w, env);
      if PidOf(w.dir).None? then Clear(quiet)
      else
        var (stopped, how) := Stop(quiet, w.dir.pidfile.value, w.dir.env, w.dir.nonce, env);
        if how.StillAnswering? then stopped else Clear(stopped)
  }

  predicate UserLives(w: World, pid: nat) {
    pid in w.dir.users && IsSame(w, Proc(pid, w.dir.users[pid]))
  }

  /** The users files without the dead. */
  function Pruned(w: World): World {
    w.(dir := w.dir.(users := map pid | pid in w.dir.users && UserLives(w, pid) :: w.dir.users[pid]))
  }

  function Left(w: World, me: nat): World {
    w.(dir := w.dir.(users := w.dir.users - {me}), past := w.past.(got := w.past.got - {Actual(w, me)}))
  }

  function StopForGood(w: World, p: Proc, env: Env): World {
    var (stopped, how) := Stop(StopWm(w, env), p, w.dir.env, w.dir.nonce, env);
    if how.StillAnswering? then stopped else Clear(stopped)
  }

  function ReleaseSpec(w: World, me: nat, env: Env): World {
    if !env.locked then w
    else
      var left := Left(w, me);
      if PidOf(left.dir).None? || left.dir.owner == Some(UpOwner) then left
      else
        var pruned := Pruned(left);
        if pruned.dir.users != map[] then pruned else StopForGood(pruned, w.dir.pidfile.value, env)
  }

  function Exec(w: World, op: Op, env: Env): World {
    match op
    case Up(args) => UpSpec(w, args, env).0
    case Release(me) => ReleaseSpec(w, me, env)
    case Down => DownSpec(w, env)
  }
}
