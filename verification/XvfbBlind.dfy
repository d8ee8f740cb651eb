/** What is lost track of where `/proc` is hidden: there the nonce on the display is all
    that vouches for a server, and silence is taken for its end. */
module XvfbBlind {
  import opened Wrappers
  import opened XvfbWorld
  import opened XvfbSpec
  import opened XvfbRuns

  /** A server that lives on without the state dir knowing. */
  predicate Lost(w: World, i: Ident) {
    Lives(w.procs, i) && !Records(w, i)
  }

  /** No server of xcua's lives but the recorded one. */
  predicate OnlyRecorded(w: World) {
    forall i :: i in w.past.xvfbs ==> !Lost(w, i)
  }

  predicate Serving(w: World) {
    w.dir.pidfile.Some? && Lives(w.procs, Named(w))
  }

  /** The display is silent, or falls silent after SIGTERM. */
  predicate FallsSilent(w: World, env: Env) {
    w.dir.env.Some? && (env.probe(w.dir.env.value) == Mute || env.xvfbTerm.GoesMute?)
  }

  predicate LastUser(w: World, me: nat) {
    forall pid :: pid in w.dir.users && pid != me ==> !UserLives(w, pid)
  }

  /** The operations that lose a server: `down` and the last user's leave when it is silent
      or falls silent, `up --restart` when it falls silent. */
  predicate Loses(w: World, op: Op, env: Env) {
    && env.locked && Serving(w)
    && match op
       case Down => FallsSilent(w, env)
       case Release(me) => w.dir.owner != Some(UpOwner) && LastUser(w, me) && FallsSilent(w, env)
       case Up(args) => args.display.None? && args.restart && Check(w, env.probe).Live? && env.xvfbTerm.GoesMute?
  }

  // ---------- the stop ----------

  /** The recorded server, while it lives, answers with its nonce or is silent. */
  lemma ServingAnswers(w: World, probe: nat -> Probe)
    requires Safe(w) && ProbesOk(w.procs, w.past.nonces, probe) && Serving(w)
    ensures w.dir.env.Some? && PidOf(w.dir).Some? && w.dir.nonce.Some? && Named(w) in w.past.xvfbs
    ensures w.dir.pidfile.value.pid == Named(w).pid && Named(w).pid in w.procs
    ensures probe(w.dir.env.value) in {Mute, Answered(w.dir.nonce)}
  {
  }

  /** A stop without `/proc`: it takes silence for the end. */
  lemma StopBlindIs(w: World, p: Proc, env: Env)
    requires Safe(w) && !w.haveProc && ProbesOk(w.procs, w.past.nonces, env.probe) && HeirOk(w, env, env.xvfbTerm)
    requires w.dir.pidfile == Some(p) && Serving(w)
    ensures var (v, how) := Stop(w, p, w.dir.env, w.dir.nonce, env);
      && v.dir == w.dir && v.past == w.past && !v.haveProc
      && (!how.StillAnswering? ==> (Lives(v.procs, Named(w)) <==> FallsSilent(w, env)))
      && (how.StillAnswering? ==> Lives(v.procs, Named(w)) && !FallsSilent(w, env))
  {
    ServingAnswers(w, env.probe);
  }

  /** No other server comes to life by a stop. */
  lemma StopBlindOthers(w: World, p: Proc, display: Option<nat>, nonce: Option<nat>, env: Env, i: Ident)
    requires Safe(w) && !w.haveProc && i in w.past.xvfbs && Lives(Stop(w, p, display, nonce, env).0.procs, i)
    ensures Lives(w.procs, i)
  {
  }

  /** Stopped for good, by `down` or the last leave. */
  lemma StopForGoodLoses(w: World, p: Proc, env: Env)
    requires Safe(w) && !w.haveProc && w.dir.pidfile == Some(p)
    requires ProbesOk(w.procs, w.past.nonces, env.probe) && Fits(w, env)
    ensures Serving(w) ==> (Lost(StopForGood(w, p, env), Named(w)) <==> FallsSilent(w, env))
    ensures OnlyRecorded(w) ==> (OnlyRecorded(StopForGood(w, p, env)) <==> !(Serving(w) && FallsSilent(w, env)))
  {
    var quiet, after := StopWm(w, env), StopForGood(w, p, env);
    StopWmKeeps(w, env);
    StopWmFrame(w, env);
    StopWmFits(w, env);
    StopFrame(quiet, p, w.dir.env, w.dir.nonce, env);
    if Serving(w) {
      StopBlindIs(quiet, p, env);
      ServingAnswers(w, env.probe);
    }
    forall i | OnlyRecorded(w) && i in after.past.xvfbs && Lives(after.procs, i) ensures Serving(w) && i == Named(w) {
      StopBlindOthers(quiet, p, w.dir.env, w.dir.nonce, env, i);
      assert !Lost(w, i);
    }
  }

  /** Without `/proc`, `down` loses track of a live server exactly when its display is
      silent, or falls silent after SIGTERM. */
  lemma DownLoses(w: World, env: Env)
    requires Safe(w) && !w.haveProc && EnvOk(w, Down, env) && env.locked && Serving(w)
    ensures Lost(DownSpec(w, env), Named(w)) <==> FallsSilent(w, env)
  {
    StopForGoodLoses(w, w.dir.pidfile.value, env);
  }

  lemma DownStep(w: World, env: Env)
    requires Safe(w) && !w.haveProc && OnlyRecorded(w) && EnvOk(w, Down, env)
    ensures OnlyRecorded(DownSpec(w, env)) <==> !Loses(w, Down, env)
  {
    if w.dir.pidfile.Some? {
      StopForGoodLoses(w, w.dir.pidfile.value, env);
    } else {
      StopWmFrame(w, env);
    }
  }

  lemma PrunedEmpty(w: World, me: nat)
    ensures Pruned(Left(w, me)).dir.users == map[] <==> LastUser(w, me)
  {
    var left := Left(w, me);
    assert forall pid :: pid in w.dir.users && pid != me ==> (UserLives(w, pid) <==> UserLives(left, pid));
    if !LastUser(w, me) {
      var pid :| pid in w.dir.users && pid != me && UserLives(w, pid);
      assert pid in Pruned(left).dir.users;
    }
  }

  lemma ReleaseStep(w: World, me: nat, env: Env)
    requires Safe(w) && !w.haveProc && EnvOk(w, Release(me), env)
    ensures OnlyRecorded(w) ==> (OnlyRecorded(ReleaseSpec(w, me, env)) <==> !Loses(w, Release(me), env))
    ensures env.locked && Serving(w) && w.dir.owner != Some(UpOwner) && LastUser(w, me) ==>
      (Lost(ReleaseSpec(w, me, env), Named(w)) <==> FallsSilent(w, env))
  {
    var pruned := Pruned(Left(w, me));
    LeftKeeps(w, me);
    PrunedKeeps(Left(w, me));
    PrunedEmpty(w, me);
    if w.dir.pidfile.Some? {
      StopForGoodLoses(pruned, w.dir.pidfile.value, env);
    }
  }

  /** And so does the leave of the last user. */
  lemma ReleaseLoses(w: World, me: nat, env: Env)
    requires Safe(w) && !w.haveProc && EnvOk(w, Release(me), env) && env.locked && Serving(w)
    requires w.dir.owner != Some(UpOwner) && LastUser(w, me)
    ensures Lost(ReleaseSpec(w, me, env), Named(w)) <==> FallsSilent(w, env)
  {
    ReleaseStep(w, me, env);
  }

  // ---------- up ----------

  /** The live servers in `v` are those in `w`, and the same one is recorded. */
  predicate SameServers(w: World, v: World) {
    && v.past.xvfbs == w.past.xvfbs && v.past.nonces == w.past.nonces
    && v.dir.pidfile == w.dir.pidfile && v.dir.nonce == w.dir.nonce
    && forall i :: i in w.past.xvfbs ==> (Lives(v.procs, i) <==> Lives(w.procs, i))
  }

  lemma RunWmSame(w: World, cmd: nat, env: Env)
    requires PastOk(w.past, w.clock) && !w.haveProc && WmFits(w, env)
    ensures SameServers(w, RunWm(w, cmd, env).0)
  {
    StopWmFrame(w, env);
  }

  lemma ApplyWmSame(w: World, want: WmWant, env: Env)
    requires PastOk(w.past, w.clock) && !w.haveProc && WmFits(w, env)
    ensures SameServers(w, ApplyWm(w, want, env).0)
  {
    match want {
      case Leave =>
      case NoWm => StopWmFrame(w, env);
      case Auto =>
        if env.wmFound.Some? {
          RunWmSame(w, env.wmFound.value, env);
        }
      case Run(cmd) => RunWmSame(w, cmd, env);
    }
  }

  lemma ReuseSame(w: World, owner: Owner, p: Proc)
    ensures SameServers(w, Reuse(w, owner, p)) && Reuse(w, owner, p).procs == w.procs
  {
  }

  /** In `v` there is one server more than in `w`, or none; it alone is recorded. */
  predicate OneMore(w: World, v: World) {
    && w.past.xvfbs <= v.past.xvfbs
    && (forall i :: i in w.past.xvfbs ==> (Lives(v.procs, i) <==> Lives(w.procs, i)) && !Records(v, i))
    && (forall i :: i in v.past.xvfbs && i !in w.past.xvfbs ==> Records(v, i))
  }

  lemma BornIs(w: World, s: Spawned, owner: Owner)
    requires Safe(w) && w.dir.pidfile.None? && FreshFor(w, s)
    ensures OneMore(w, Registered(Born(w, s, owner), owner, Ident(s.pid, w.clock)))
  {
  }

  lemma OneMoreSame(w: World, v: World, v': World)
    requires OneMore(w, v) && SameServers(v, v')
    ensures OneMore(w, v')
  {
  }

  lemma StartXvfbIs(w: World, owner: Owner, want: WmWant, env: Env)
    requires Safe(w) && !w.haveProc && w.dir.pidfile.None? && Fits(w, env) && CallerOk(owner)
    ensures OneMore(w, StartXvfb(w, owner, want, env).0)
  {
    if env.spawn.Some? && env.spawn.value.marked {
      var s := env.spawn.value;
      var ready := Registered(Born(w, s, owner), owner, Ident(s.pid, w.clock));
      BornIs(w, s, owner);
      BornRegisteredKeeps(w, s, owner);
      BornFits(w, s, owner, env);
      ApplyWmSame(ready, want, env);
      OneMoreSame(w, ready, ApplyWm(ready, want, env).0);
    }
  }

  /** A fresh start forgets what lived before it, and nothing else. */
  lemma UpFreshIs(w: World, args: UpArgs, want: WmWant, env: Env)
    requires Safe(w) && !w.haveProc && Fits(w, env) && CallerOk(args.owner)
    requires w.dir.pidfile.None? || !Serving(w)
    ensures var v := UpFresh(w, args, want, env).0;
      && (forall i :: i in w.past.xvfbs ==> (Lost(v, i) <==> Lives(w.procs, i)))
      && (OnlyRecorded(v) <==> NoneLives(w))
  {
    var quiet := StopWm(w, env);
    StopWmKeeps(w, env);
    StopWmFrame(w, env);
    StopWmFits(w, env);
    ClearKeeps(quiet);
    StartXvfbIs(Clear(quiet), args.owner, want, env);
  }

  /** `up --restart` takes a server that falls silent for one that ended, and starts the
      next one beside it. */
  lemma UpRestartStep(w: World, args: UpArgs, env: Env)
    requires Safe(w) && !w.haveProc && EnvOk(w, Up(args), env) && Check(w, env.probe).Live?
    ensures var seen := Check(w, env.probe);
      var v := UpRestart(w, args, seen.display, seen.proc, env).0;
      && (Lost(v, Named(w)) <==> env.xvfbTerm.GoesMute?)
      && (OnlyRecorded(w) ==> (OnlyRecorded(v) <==> !env.xvfbTerm.GoesMute?))
  {
    var seen := Check(w, env.probe);
    LiveIsOurs(w, env.probe);
    var quiet := StopWm(w, env);
    StopWmKeeps(w, env);
    StopWmFrame(w, env);
    StopWmFits(w, env);
    StopBlindIs(quiet, seen.proc, env);
    StopKeeps(quiet, seen.proc, w.dir.env, w.dir.nonce, env);
    StopFits(quiet, seen.proc, w.dir.env, w.dir.nonce, env);
    var (stopped, how) := Stop(quiet, seen.proc, w.dir.env, w.dir.nonce, env);
    forall i | OnlyRecorded(w) && i in w.past.xvfbs && Lives(stopped.procs, i) ensures i == Named(w) {
      StopBlindOthers(quiet, seen.proc, w.dir.env, w.dir.nonce, env, i);
      assert !Lost(w, i);
    }
    if !how.StillAnswering? {
      ClearKeeps(stopped);
      UpFreshIs(Clear(stopped), args, WantAgain(w, args.wm), env);
    }
  }

  /** `up --restart` loses a live server exactly when that falls silent after SIGTERM. */
  lemma RestartLoses(w: World, args: UpArgs, env: Env)
    requires Safe(w) && !w.haveProc && EnvOk(w, Up(args), env) && env.locked
    requires args.display.None? && args.restart && Check(w, env.probe).Live?
    ensures Lives(w.procs, Named(w))
    ensures Lost(UpSpec(w, args, env).0, Named(w)) <==> env.xvfbTerm.GoesMute?
  {
    LiveIsOurs(w, env.probe);
    UpRestartStep(w, args, env);
  }

  /** No answer and no silence: none of xcua's servers lives. */
  lemma GoneBlind(w: World, probe: nat -> Probe)
    requires Safe(w) && !w.haveProc && OnlyRecorded(w) && ProbesOk(w.procs, w.past.nonces, probe) && Check(w, probe).Gone?
    ensures NoneLives(w) && !Serving(w)
  {
    if Serving(w) {
      ServingAnswers(w, probe);
      assert false;
    }
    forall i | i in w.past.xvfbs ensures !Lives(w.procs, i) {
      assert !Lost(w, i);
    }
  }

  lemma UpReuseSame(w: World, args: UpArgs, display: nat, p: Proc, env: Env)
    requires Safe(w) && !w.haveProc && Actual(w, p.pid) in w.past.xvfbs && Fits(w, env) && CallerOk(args.owner)
    ensures SameServers(w, UpReuse(w, args, display, p, env).0)
  {
    var joined := Reuse(w, args.owner, p);
    ReuseSame(w, args.owner, p);
    ReuseKeeps(w, args.owner, p);
    ApplyWmSame(joined, args.wm, env);
  }

  lemma SameOnly(w: World, v: World)
    requires SameServers(w, v) && OnlyRecorded(w)
    ensures OnlyRecorded(v)
  {
    forall i | i in v.past.xvfbs ensures !Lost(v, i) {
      assert !Lost(w, i);
    }
  }

  lemma UpLiveStep(w: World, args: UpArgs, env: Env)
    requires Safe(w) && !w.haveProc && OnlyRecorded(w) && EnvOk(w, Up(args), env) && Check(w, env.probe).Live?
    ensures OnlyRecorded(UpSpec(w, args, env).0) <==> !Loses(w, Up(args), env)
  {
    var seen := Check(w, env.probe);
    LiveIsOurs(w, env.probe);
    if args.restart && args.display.None? {
      UpRestartStep(w, args, env);
    } else {
      ReuseSame(w, args.owner, seen.proc);
      SameOnly(w, Reuse(w, args.owner, seen.proc));
      UpReuseSame(w, args, seen.display, seen.proc, env);
      SameOnly(w, UpReuse(w, args, seen.display, seen.proc, env).0);
    }
  }

  lemma UpStep(w: World, args: UpArgs, env: Env)
    requires Safe(w) && !w.haveProc && OnlyRecorded(w) && EnvOk(w, Up(args), env)
    ensures OnlyRecorded(UpSpec(w, args, env).0) <==> !Loses(w, Up(args), env)
  {
    var seen := Check(w, env.probe);
    if seen.Gone? {
      GoneBlind(w, env.probe);
      UpFreshIs(w, args, args.wm, env);
    } else if seen.Live? {
      UpLiveStep(w, args, env);
    }
  }

  // ---------- all runs ----------

  /** An operation keeps track of every live server exactly when it is none of the three
      that lose one. */
  lemma StepLoses(w: World, op: Op, env: Env)
    requires Safe(w) && !w.haveProc && OnlyRecorded(w) && EnvOk(w, op, env)
    ensures OnlyRecorded(Exec(w, op, env)) <==> !Loses(w, op, env)
  {
    match op {
      case Up(args) => UpStep(w, args, env);
      case Release(me) => ReleaseStep(w, me, env);
      case Down => DownStep(w, env);
    }
  }

  lemma BetweenOnly(w: World, w': World)
    requires Safe(w) && OnlyRecorded(w) && Between(w, w')
    ensures OnlyRecorded(w')
  {
    forall i | i in w'.past.xvfbs ensures !Lost(w', i) {
      assert !Lost(w, i);
    }
  }

  ghost predicate StepSafely(w: World, w': World) {
    || Between(w, w')
    || exists op, env :: EnvOk(w, op, env) && !Loses(w, op, env) && w' == Exec(w, op, env)
  }

  ghost predicate SafelyTo(ws: seq<World>, k: nat)
    requires 0 < k < |ws|
  {
    StepSafely(ws[k - 1], ws[k])
  }

  /** No step of a run is one of the three that lose a server. */
  ghost predicate Careful(ws: seq<World>) {
    forall k :: 0 < k < |ws| ==> SafelyTo(ws, k)
  }

  lemma StepOnly(w: World, w': World)
    requires Safe(w) && !w.haveProc && OnlyRecorded(w) && Step(w, w')
    ensures OnlyRecorded(w') <==> StepSafely(w, w')
  {
    if Between(w, w') {
      BetweenOnly(w, w');
    } else {
      forall op, env | EnvOk(w, op, env) && w' == Exec(w, op, env) ensures OnlyRecorded(w') <==> !Loses(w, op, env) {
        StepLoses(w, op, env);
      }
    }
  }

  lemma {:induction false} CarefulKeeps(ws: seq<World>, k: nat)
    requires XvfbRuns.Run(ws) && !ws[0].haveProc && k < |ws| && Careful(ws)
    ensures OnlyRecorded(ws[k])
  {
    if k > 0 {
      CarefulKeeps(ws, k - 1);
      RunKeeps(ws, k - 1);
      assert StepTo(ws, k) && SafelyTo(ws, k);
      StepOnly(ws[k - 1], ws[k]);
    }
  }

  /** Without `/proc` a run keeps track of every live server exactly when no step of it is
      one of the three that lose one. */
  lemma KeepsTrackExactly(ws: seq<World>)
    requires XvfbRuns.Run(ws) && !ws[0].haveProc
    ensures (forall k :: 0 <= k < |ws| ==> OnlyRecorded(ws[k])) <==> Careful(ws)
  {
    if Careful(ws) {
      forall k | 0 <= k < |ws| ensures OnlyRecorded(ws[k]) {
        CarefulKeeps(ws, k);
      }
    }
    if forall k :: 0 <= k < |ws| ==> OnlyRecorded(ws[k]) {
      forall k | 0 < k < |ws| ensures SafelyTo(ws, k) {
        RunKeeps(ws, k - 1);
        assert StepTo(ws, k) && OnlyRecorded(ws[k - 1]) && OnlyRecorded(ws[k]);
        StepOnly(ws[k - 1], ws[k]);
      }
    }
  }

  /** So without `/proc`, too, at most one Xvfb that xcua started is alive, and the pidfile
      and the env file name it, until a step loses one. */
  lemma AtMostOneCareful(ws: seq<World>, k: nat, i: Ident, j: Ident)
    requires XvfbRuns.Run(ws) && !ws[0].haveProc && k < |ws| && Careful(ws)
    requires i in ws[k].past.xvfbs && Lives(ws[k].procs, i)
    requires j in ws[k].past.xvfbs && Lives(ws[k].procs, j)
    ensures i == j && ws[k].dir.pidfile == Some(Proc(i.pid, None))
    ensures ws[k].procs[i.pid].kind.XvfbKind? && ws[k].dir.env == Some(ws[k].procs[i.pid].kind.display)
  {
    RunKeeps(ws, k);
    CarefulKeeps(ws, k);
    assert !Lost(ws[k], i) && !Lost(ws[k], j);
  }

  // ---------- two servers ----------

  ghost predicate TwoLive(w: World) {
    exists i, j :: i in w.past.xvfbs && j in w.past.xvfbs && i != j && Lives(w.procs, i) && Lives(w.procs, j)
  }

  const BARE: World := World(NO_DIR, map[], false, 1, [], History(map[], {}, {}, {}, map[]))
  const FIRST := Ident(100, 1)
  const PLAIN_UP := UpArgs(None, UpOwner, false, Leave)

  function FirstServer(halted: bool): Process {
    Process(1, XvfbKind(1, Some(7)), halted)
  }

  /** One server, started by `up`. */
  function OneUp(halted: bool): World {
    World(Dir(Some(1), Some(Proc(100, None)), Some(7), Some(UpOwner), map[], None), map[100 := FirstServer(halted)],
          false, 2, [], History(map[7 := FIRST], {FIRST}, {}, {FIRST}, map[]))
  }

  /** What the outside answers: the first display says `probe`, and a start gets `spawn`. */
  function Says(probe: Probe, term: AfterTerm, spawn: Spawned): Env {
    Env(true, d => if d == 1 then probe else Absent, term, KeepsAnswering, false, Some(spawn), None, None)
  }

  const SPAWN1 := Spawned(100, 1, 7, true)
  const SPAWN2 := Spawned(101, 2, 8, true)

  lemma FirstUp()
    ensures Initial(BARE) && Step(BARE, OneUp(false))
  {
    var env := Says(Absent, KeepsAnswering, SPAWN1);
    assert EnvOk(BARE, Up(PLAIN_UP), env);
    assert Exec(BARE, Up(PLAIN_UP), env) == OneUp(false);
  }

  /** The second one beside it. */
  function TwoUp(halted: bool, sent: seq<Sent>): World {
    var second := Ident(101, 2);
    World(Dir(Some(2), Some(Proc(101, None)), Some(8), Some(UpOwner), map[], None),
          map[100 := FirstServer(halted), 101 := Process(2, XvfbKind(2, Some(8)), false)],
          false, 3, sent, History(map[7 := FIRST, 8 := second], {FIRST, second}, {}, {FIRST, second}, map[]))
  }

  lemma BothLive(halted: bool, sent: seq<Sent>)
    ensures TwoLive(TwoUp(halted, sent))
  {
    assert Lives(TwoUp(halted, sent).procs, FIRST) && Lives(TwoUp(halted, sent).procs, Ident(101, 2));
  }

  lemma Halts()
    ensures Step(OneUp(false), OneUp(true))
  {
    assert Between(OneUp(false), OneUp(true));
  }

  lemma HaltedDown()
    ensures Step(OneUp(true), OneUp(true).(dir := NO_DIR))
  {
    var env := Says(Mute, KeepsAnswering, SPAWN2);
    assert EnvOk(OneUp(true), Down, env);
    assert Exec(OneUp(true), Down, env) == OneUp(true).(dir := NO_DIR);
  }

  lemma SecondUp()
    ensures Step(OneUp(true).(dir := NO_DIR), TwoUp(true, []))
  {
    var env := Says(Mute, KeepsAnswering, SPAWN2);
    var w := OneUp(true).(dir := NO_DIR);
    assert EnvOk(w, Up(PLAIN_UP), env);
    assert Exec(w, Up(PLAIN_UP), env) == TwoUp(true, []);
  }

  lemma SecondRestart()
    ensures Step(OneUp(false), TwoUp(false, [Sent(Term, FIRST)]))
  {
    var env := Says(Answered(Some(7)), GoesMute, SPAWN2);
    var again := PLAIN_UP.(restart := true);
    assert 100 in OneUp(false).procs && OneUp(false).procs[100].kind == XvfbKind(1, env.probe(1).nonce);
    assert EnvOk(OneUp(false), Up(again), env);
    assert Exec(OneUp(false), Up(again), env) == TwoUp(false, [Sent(Term, FIRST)]);
  }

  lemma RunMore(ws: seq<World>, w: World) returns (more: seq<World>)
    requires XvfbRuns.Run(ws) && Step(ws[|ws| - 1], w)
    ensures XvfbRuns.Run(more) && more[0] == ws[0] && more[|more| - 1] == w
  {
    more := ws + [w];
    forall k | 0 < k < |more| ensures StepTo(more, k) {
      assert k < |ws| ==> StepTo(ws, k);
    }
  }

  lemma FirstRun() returns (ws: seq<World>)
    ensures XvfbRuns.Run(ws) && !ws[0].haveProc && ws[|ws| - 1] == OneUp(false)
  {
    FirstUp();
    ws := RunMore([BARE], OneUp(false));
  }

  /** A run whose last world has two live servers: a halted Xvfb that `down` forgets lives
      on, and the next `up` starts a second one. */
  lemma DownLeaks()
    ensures exists ws: seq<World> :: XvfbRuns.Run(ws) && !ws[0].haveProc && TwoLive(ws[|ws| - 1])
  {
    var ws := FirstRun();
    Halts();
    ws := RunMore(ws, OneUp(true));
    HaltedDown();
    ws := RunMore(ws, OneUp(true).(dir := NO_DIR));
    SecondUp();
    ws := RunMore(ws, TwoUp(true, []));
    BothLive(true, []);
  }

  /** Another: `up --restart` of an Xvfb that goes silent after SIGTERM and lives. */
  lemma RestartLeaks()
    ensures exists ws: seq<World> :: XvfbRuns.Run(ws) && !ws[0].haveProc && TwoLive(ws[|ws| - 1])
  {
    var ws := FirstRun();
    SecondRestart();
    ws := RunMore(ws, TwoUp(false, [Sent(Term, FIRST)]));
    BothLive(false, [Sent(Term, FIRST)]);
  }
}
