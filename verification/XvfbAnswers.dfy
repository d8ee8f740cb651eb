/** What `up` answers, told by the files, the display's answer and the environment alone. */
module XvfbAnswers {
  import opened Wrappers
  import opened XvfbWorld
  import opened XvfbSpec
  import opened XvfbRuns

  // ---------- what is recorded, and what it says ----------

  /** The recorded server's display answers with the recorded nonce. */
  predicate Answering(w: World, env: Env) {
    w.dir.pidfile.Some? && w.dir.env.Some? && env.probe(w.dir.env.value) == Answered(w.dir.nonce)
  }

  predicate Silent(w: World, env: Env) {
    w.dir.pidfile.Some? && w.dir.env.Some? && env.probe(w.dir.env.value) == Mute
  }

  /** A display that `up --display` recorded, and that still answers. */
  predicate ForeignAnswers(w: World, env: Env) {
    w.dir.pidfile.None? && w.dir.env.Some? && env.probe(w.dir.env.value).Answered?
  }

  /** The recorded process is a halted Xvfb that `/proc` vouches for. */
  predicate HaltedXvfb(w: World) {
    && w.haveProc && w.dir.pidfile.Some?
    && var p := w.dir.pidfile.value;
       && p.pid in w.procs && w.procs[p.pid].kind.XvfbKind? && w.procs[p.pid].halted
       && (p.start.Some? ==> p.start.value == w.procs[p.pid].start)
  }

  /** A window manager of this command is recorded and runs. */
  predicate RunsWm(w: World, cmd: nat) {
    && w.dir.wm.Some? && w.dir.wm.value.cmd == cmd
    && var p := w.dir.wm.value.proc;
       ValidPid(p.pid) && p.pid in w.procs && (p.start.None? || (w.haveProc && p.start.value == w.procs[p.pid].start))
  }

  /** The command to run: the one given, or the one found on the machine. */
  function WantedWm(want: WmWant, env: Env): Option<nat> {
    match want
    case Run(cmd) => Some(cmd)
    case Auto => env.wmFound
    case NoWm => None
    case Leave => None
  }

  /** A window manager is wanted for a fresh server, and none can be started. */
  predicate NoFreshWm(want: WmWant, env: Env) {
    WantedWm(want, env).Some? && env.wmStart.None?
  }

  predicate NoServer(env: Env) {
    env.spawn.None? || !env.spawn.value.marked
  }

  /** What a restart wants: without a wish, the window manager that ran. */
  function RestartWants(w: World, want: WmWant): WmWant {
    if want.Leave? && w.dir.wm.Some? && RunsWm(w, w.dir.wm.value.cmd) then WmWant.Run(w.dir.wm.value.cmd) else want
  }

  /** Without `/proc`: the server still answers when the polls after SIGTERM are over. */
  predicate Outlasts(w: World, env: Env) {
    && !w.haveProc && w.dir.pidfile.Some?
    && match env.xvfbTerm
       case GoesMute => false
       case KeepsAnswering => true
       case Dies(poll, _) =>
         poll > BLIND_POLLS || (w.dir.pidfile.value.pid in w.procs && w.procs[w.dir.pidfile.value.pid].halted)
  }

  // ---------- the answer ----------

  /** `up --display d` is refused. */
  predicate RefusesDisplay(w: World, args: UpArgs, d: nat, env: Env) {
    || args.restart || args.wm.Auto? || args.wm.Run?
    || (Answering(w, env) && w.dir.env.value != d)
    || Silent(w, env)
    || (!Answering(w, env) && !env.probe(d).Answered?)
  }

  /** `up` without a display is refused. */
  predicate RefusesOwn(w: World, args: UpArgs, env: Env) {
    if Answering(w, env) && !args.restart then
      env.mismatch || (WantedWm(args.wm, env).Some? && !RunsWm(w, WantedWm(args.wm, env).value) && env.wmStart.None?)
    else if Answering(w, env) then Outlasts(w, env) || NoServer(env) || NoFreshWm(RestartWants(w, args.wm), env)
    else if Silent(w, env) then !HaltedXvfb(w) || NoServer(env) || NoFreshWm(args.wm, env)
    else if ForeignAnswers(w, env) then args.restart || args.wm.Auto? || args.wm.Run?
    else NoServer(env) || NoFreshWm(args.wm, env)
  }

  predicate Refuses(w: World, args: UpArgs, env: Env) {
    !env.locked || if args.display.Some? then RefusesDisplay(w, args, args.display.value, env) else RefusesOwn(w, args, env)
  }

  /** An answer that is not a refusal. */
  predicate Gives(w: World, args: UpArgs, env: Env, out: Outcome) {
    if Answering(w, env) && (args.display.Some? || !args.restart) then
      out == Reused(w.dir.env.value, w.dir.pidfile.value.pid)
    else if args.display.Some? then out == Attached(args.display.value)
    else if ForeignAnswers(w, env) then out == Attached(w.dir.env.value)
    else env.spawn.Some? && out == Started(env.spawn.value.display, env.spawn.value.pid)
  }

  // ---------- the proof ----------

  lemma CheckIs(w: World, probe: nat -> Probe)
    requires Safe(w)
    ensures Check(w, probe).Live? <==> w.dir.pidfile.Some? && w.dir.env.Some? && probe(w.dir.env.value) == Answered(w.dir.nonce)
    ensures Check(w, probe).Silent? <==> w.dir.pidfile.Some? && w.dir.env.Some? && probe(w.dir.env.value) == Mute
    ensures !Check(w, probe).Gone? ==> Some(Check(w, probe).display) == w.dir.env && Some(Check(w, probe).proc) == w.dir.pidfile
  {
  }

  lemma ApplyWmWorks(w: World, want: WmWant, env: Env)
    ensures ApplyWm(w, want, env).1 <==>
      WantedWm(want, env).None? || RunsWm(w, WantedWm(want, env).value) || env.wmStart.Some?
  {
  }

  lemma StartXvfbGives(w: World, owner: Owner, want: WmWant, env: Env)
    requires w.dir.wm.None?
    ensures var out := StartXvfb(w, owner, want, env).1;
      if NoServer(env) || NoFreshWm(want, env) then out == Refused
      else out == Started(env.spawn.value.display, env.spawn.value.pid)
  {
    if !NoServer(env) {
      var s := env.spawn.value;
      ApplyWmWorks(Registered(Born(w, s, owner), owner, Ident(s.pid, w.clock)), want, env);
    }
  }

  lemma UpFreshGives(w: World, args: UpArgs, want: WmWant, env: Env)
    ensures var out := UpFresh(w, args, want, env).1;
      if ForeignAnswers(w, env) then
        out == if args.restart || args.wm.Auto? || args.wm.Run? then Refused else Attached(w.dir.env.value)
      else if NoServer(env) || NoFreshWm(want, env) then out == Refused
      else out == Started(env.spawn.value.display, env.spawn.value.pid)
  {
    StartXvfbGives(Clear(StopWm(w, env)), args.owner, want, env);
  }

  lemma UpReuseGives(w: World, args: UpArgs, display: nat, p: Proc, env: Env)
    ensures UpReuse(w, args, display, p, env).1 ==
      if env.mismatch || (WantedWm(args.wm, env).Some? && !RunsWm(w, WantedWm(args.wm, env).value) && env.wmStart.None?) then Refused
      else Reused(display, p.pid)
  {
    ApplyWmWorks(Reuse(w, args.owner, p), args.wm, env);
  }

  /** The stop of a restart only fails on a server that outlasts it. */
  lemma StopOutlasted(w: World, env: Env)
    requires Safe(w) && EnvOk(w, Down, env) && Answering(w, env)
    ensures Stop(StopWm(w, env), w.dir.pidfile.value, w.dir.env, w.dir.nonce, env).1.StillAnswering? <==> Outlasts(w, env)
  {
    StopWmFrame(w, env);
    LiveIsOurs(w, env.probe);
  }

  lemma UpRestartGives(w: World, args: UpArgs, env: Env)
    requires Safe(w) && EnvOk(w, Down, env) && Answering(w, env)
    ensures var out := UpRestart(w, args, w.dir.env.value, w.dir.pidfile.value, env).1;
      if Outlasts(w, env) || NoServer(env) || NoFreshWm(RestartWants(w, args.wm), env) then out == Refused
      else out == Started(env.spawn.value.display, env.spawn.value.pid)
  {
    StopOutlasted(w, env);
    var stopped := Stop(StopWm(w, env), w.dir.pidfile.value, w.dir.env, w.dir.nonce, env).0;
    UpFreshGives(Clear(stopped), args, WantAgain(w, args.wm), env);
  }

  lemma UpSilentGives(w: World, args: UpArgs, env: Env)
    requires Safe(w) && Silent(w, env)
    ensures var out := UpSilent(w, args, w.dir.pidfile.value, env).1;
      if !HaltedXvfb(w) || NoServer(env) || NoFreshWm(args.wm, env) then out == Refused
      else out == Started(env.spawn.value.display, env.spawn.value.pid)
  {
    var stopped := Stop(w, w.dir.pidfile.value, None, None, env).0;
    StopFrame(w, w.dir.pidfile.value, None, None, env);
    UpFreshGives(stopped, args, args.wm, env);
  }

  lemma UpDisplayGives(w: World, args: UpArgs, d: nat, env: Env)
    requires Safe(w) && args.display == Some(d) && env.locked
    ensures var out := UpDisplay(w, args, d, env).1;
      if RefusesDisplay(w, args, d, env) then out == Refused else Gives(w, args, env, out)
  {
    CheckIs(w, env.probe);
  }

  lemma UpOwnGives(w: World, args: UpArgs, env: Env)
    requires Safe(w) && EnvOk(w, Down, env) && args.display.None? && env.locked
    ensures var out := UpOwn(w, args, env).1;
      if RefusesOwn(w, args, env) then out == Refused else Gives(w, args, env, out)
  {
    CheckIs(w, env.probe);
    if Answering(w, env) {
      UpReuseGives(w, args, w.dir.env.value, w.dir.pidfile.value, env);
      UpRestartGives(w, args, env);
    } else if Silent(w, env) {
      UpSilentGives(w, args, env);
    } else {
      UpFreshGives(w, args, args.wm, env);
    }
  }

  /** `up` is refused exactly in these cases, and otherwise answers with the recorded server,
      the foreign display, or the server it started. */
  lemma UpGives(w: World, args: UpArgs, env: Env)
    requires Safe(w) && EnvOk(w, Up(args), env)
    ensures UpSpec(w, args, env).1.Refused? <==> Refuses(w, args, env)
    ensures !Refuses(w, args, env) ==> Gives(w, args, env, UpSpec(w, args, env).1)
  {
    if env.locked {
      if args.display.Some? {
        UpDisplayGives(w, args, args.display.value, env);
      } else {
        UpOwnGives(w, args, env);
      }
    }
  }

  /** With `/proc`, in any run: a plain `up` beside a server that answers reuses and serves
      it, and one where none lives starts and serves a new one. */
  lemma UpSucceeds(ws: seq<World>, k: nat, args: UpArgs, env: Env)
    requires XvfbRuns.Run(ws) && k < |ws| && ws[k].haveProc && EnvOk(ws[k], Up(args), env)
    requires env.locked && args.display.None? && !args.restart
    requires WantedWm(args.wm, env).None? || env.wmStart.Some?
    ensures Answering(ws[k], env) && !env.mismatch ==>
      var (v, out) := UpSpec(ws[k], args, env);
      && out == Reused(ws[k].dir.env.value, ws[k].dir.pidfile.value.pid)
      && ServedBy(v, out.display, out.pid, args.owner, ws[k].procs)
    ensures !Answering(ws[k], env) && !Silent(ws[k], env) && !ForeignAnswers(ws[k], env) && !NoServer(env) ==>
      var (v, out) := UpSpec(ws[k], args, env);
      && out == Started(env.spawn.value.display, env.spawn.value.pid)
      && ServedBy(v, out.display, out.pid, args.owner, ws[k].procs)
  {
    RunKeeps(ws, k);
    UpGives(ws[k], args, env);
    UpServes(ws, k, args, env);
  }

  // ---------- the window manager ----------

  /** What `want` asks for is there: this command running, or no window manager recorded, or
      the one of before. */
  predicate WmDone(before: Option<Wm>, v: World, want: WmWant, env: Env) {
    match want
    case NoWm => WmOf(v.dir).None?
    case Leave => v.dir.wm == before
    case _ => if WantedWm(want, env).Some? then RunsWm(v, WantedWm(want, env).value) else v.dir.wm == before
  }

  lemma ApplyWmDoes(w: World, want: WmWant, env: Env)
    requires WmFits(w, env)
    ensures var (v, ok) := ApplyWm(w, want, env); ok ==> WmDone(w.dir.wm, v, want, env)
  {
    match want {
      case Leave =>
      case NoWm =>
      case Auto =>
        if env.wmFound.Some? {
          RunWmManages(w, env.wmFound.value, env);
        }
      case Run(cmd) => RunWmManages(w, cmd, env);
    }
  }

  lemma UpFreshDoes(w: World, args: UpArgs, want: WmWant, env: Env)
    requires Fits(w, env)
    ensures var (v, out) := UpFresh(w, args, want, env); out.Started? ==> WmDone(None, v, want, env)
  {
    StopWmFits(w, env);
    var quiet := Clear(StopWm(w, env));
    if !NoServer(env) {
      var s := env.spawn.value;
      var ready := Registered(Born(quiet, s, args.owner), args.owner, Ident(s.pid, quiet.clock));
      BornFits(quiet, s, args.owner, env);
      ApplyWmDoes(ready, want, env);
    }
  }

  lemma RestartDoes(w: World, args: UpArgs, display: nat, p: Proc, env: Env)
    requires Fits(w, env)
    ensures var (v, out) := UpRestart(w, args, display, p, env);
      !out.Reused? && (out.Started? ==> WmDone(None, v, RestartWants(w, args.wm), env))
  {
    StopWmFits(w, env);
    StopFits(StopWm(w, env), p, Some(display), w.dir.nonce, env);
    UpFreshDoes(Clear(Stop(StopWm(w, env), p, Some(display), w.dir.nonce, env).0), args, WantAgain(w, args.wm), env);
  }

  lemma ReuseDoes(w: World, args: UpArgs, display: nat, p: Proc, env: Env)
    requires Fits(w, env)
    ensures var (v, out) := UpReuse(w, args, display, p, env);
      !out.Started? && (out.Reused? ==> WmDone(w.dir.wm, v, args.wm, env))
  {
    ReuseFits(w, args.owner, p, env);
    ApplyWmDoes(Reuse(w, args.owner, p), args.wm, env);
  }

  lemma SilentDoes(w: World, args: UpArgs, p: Proc, env: Env)
    requires Fits(w, env)
    ensures var (v, out) := UpSilent(w, args, p, env);
      !out.Reused? && (out.Started? ==> WmDone(None, v, args.wm, env))
  {
    StopFits(w, p, None, None, env);
    UpFreshDoes(Stop(w, p, None, None, env).0, args, args.wm, env);
  }

  /** After an `up` that reused or started a server the window manager is the one asked for;
      a restart asks for the one that ran, a fresh server has none otherwise. */
  lemma UpSetsWm(w: World, args: UpArgs, env: Env)
    requires Safe(w) && EnvOk(w, Up(args), env) && args.display.None?
    ensures var (v, out) := UpSpec(w, args, env);
      && (out.Reused? ==> WmDone(w.dir.wm, v, args.wm, env))
      && (out.Started? ==> WmDone(None, v, if Answering(w, env) then RestartWants(w, args.wm) else args.wm, env))
  {
    var seen := Check(w, env.probe);
    CheckIs(w, env.probe);
    if seen.Live? {
      ReuseDoes(w, args, seen.display, seen.proc, env);
      RestartDoes(w, args, seen.display, seen.proc, env);
    } else if seen.Silent? {
      SilentDoes(w, args, seen.proc, env);
    } else {
      UpFreshDoes(w, args, args.wm, env);
    }
  }

  lemma ReuseFits(w: World, owner: Owner, p: Proc, env: Env)
    requires WmFits(w, env)
    ensures WmFits(Reuse(w, owner, p), env) && Reuse(w, owner, p).dir.wm == w.dir.wm
  {
  }
}
