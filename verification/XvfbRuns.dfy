/** What every run of locked operations keeps, however processes die, halt and recycle
    pids in between. */
module XvfbRuns {
  import opened Wrappers
  import opened XvfbWorld
  import opened XvfbSpec

  // ---------- the invariant, by the parts of the world it is about ----------

  /** Whom xcua ever started, and that none of them can be born again. */
  predicate PastOk(past: History, clock: nat) {
    && (forall n :: n in past.nonces ==> past.nonces[n] in past.xvfbs)
    && (forall i :: i in past.xvfbs ==> ValidPid(i.pid) && i.start < clock)
    && (forall i :: i in past.wms ==> ValidPid(i.pid) && i.start < clock)
    && (forall i :: i in past.got ==> i.start < clock)
  }

  /** A live Xvfb of xcua's is the bearer of its nonce, and nobody else bears it. */
  predicate BearersOk(procs: Processes, past: History) {
    && (forall p :: p in procs && !Foreign(procs[p].kind, past.nonces) ==>
          past.nonces[procs[p].kind.nonce.value] == Ident(p, procs[p].start))
    && (forall i :: i in past.xvfbs && Lives(procs, i) ==> !Foreign(procs[i.pid].kind, past.nonces))
    && (forall i :: i in past.wms && Lives(procs, i) ==> procs[i.pid].kind.OtherKind?)
  }

  /** The pidfile names a server xcua started, beside its nonce. */
  predicate PidfileOk(dir: Dir, nonces: map<nat, Ident>, haveProc: bool) {
    dir.pidfile.Some? ==>
      && dir.nonce.Some? && dir.nonce.value in nonces && dir.env.Some?
      && var i := nonces[dir.nonce.value];
         dir.pidfile.value == Proc(i.pid, if haveProc then Some(i.start) else None)
  }

  function Serves(dir: Dir): nat {
    if dir.env.Some? then dir.env.value else 0
  }

  /** The recorded server, while it lives, serves the recorded display. */
  predicate DisplayOk(procs: Processes, dir: Dir, nonces: map<nat, Ident>) {
    dir.pidfile.Some? && dir.nonce.Some? && dir.nonce.value in nonces && Lives(procs, nonces[dir.nonce.value]) ==>
      procs[nonces[dir.nonce.value].pid].kind == XvfbKind(Serves(dir), dir.nonce)
  }

  /** With `/proc`, a live Xvfb of xcua's is the one the pidfile names. */
  predicate NamedOk(procs: Processes, dir: Dir, xvfbs: set<Ident>) {
    forall i :: i in xvfbs && Lives(procs, i) ==> dir.pidfile == Some(Proc(i.pid, Some(i.start)))
  }

  predicate WmOk(wm: Option<Wm>, wms: set<Ident>, haveProc: bool) {
    haveProc && wm.Some? ==> wm.value.proc.start.Some? && Ident(wm.value.proc.pid, wm.value.proc.start.value) in wms
  }

  predicate SentOk(sent: seq<Sent>, past: History) {
    forall k :: 0 <= k < |sent| ==> sent[k].reached in past.xvfbs + past.wms
  }

  /** Kept with and without `/proc`. */
  predicate Safe(w: World) {
    && KernelOk(w.procs, w.clock) && PastOk(w.past, w.clock) && BearersOk(w.procs, w.past)
    && PidfileOk(w.dir, w.past.nonces, w.haveProc) && DisplayOk(w.procs, w.dir, w.past.nonces)
    && WmOk(w.dir.wm, w.past.wms, w.haveProc) && SentOk(w.sent, w.past)
  }

  /** Kept with `/proc`: nothing is lost track of. */
  predicate Tracked(w: World) {
    w.haveProc && NamedOk(w.procs, w.dir, w.past.xvfbs)
  }

  /** The server whose nonce the state dir holds. */
  function Named(w: World): Ident {
    if w.dir.nonce.Some? && w.dir.nonce.value in w.past.nonces then w.past.nonces[w.dir.nonce.value] else Ident(0, 0)
  }

  predicate Records(w: World, i: Ident) {
    w.dir.pidfile.Some? && Named(w) == i
  }

  // ---------- the small steps keep it ----------

  /** Forgetting everything is fine once no server of xcua's lives. */
  lemma ClearKeeps(w: World)
    requires Safe(w)
    ensures Safe(Clear(w))
    ensures Tracked(w) && (forall i :: i in w.past.xvfbs ==> !Lives(w.procs, i)) ==> Tracked(Clear(w))
  {
  }

  lemma VacateKeeps(w: World, pid: nat, heir: Option<Kind>)
    requires Safe(w) && pid in w.procs && (heir.Some? ==> Foreign(heir.value, w.past.nonces))
    ensures Safe(Vacate(w, pid, heir)) && !Lives(Vacate(w, pid, heir).procs, Actual(w, pid))
    ensures Tracked(w) ==> Tracked(Vacate(w, pid, heir))
  {
  }

  lemma SignalledKeeps(w: World, signal: Signal, pid: nat)
    requires Safe(w) && Actual(w, pid) in w.past.xvfbs + w.past.wms
    ensures Safe(Signalled(w, signal, pid))
    ensures Tracked(w) ==> Tracked(Signalled(w, signal, pid))
  {
  }

  lemma TerminateKeeps(w: World, p: Proc, xvfb: bool, term: AfterTerm, polls: nat)
    requires Safe(w) && p.pid in w.procs && Remains(w, p, xvfb) && p.start == Some(w.procs[p.pid].start)
    requires Actual(w, p.pid) in w.past.xvfbs + w.past.wms
    requires term.Dies? && term.heir.Some? ==> Foreign(term.heir.value, w.past.nonces)
    ensures Safe(Terminate(w, p, xvfb, term, polls)) && !Lives(Terminate(w, p, xvfb, term, polls).procs, Actual(w, p.pid))
    ensures Tracked(w) ==> Tracked(Terminate(w, p, xvfb, term, polls))
  {
    SignalledKeeps(w, Term, p.pid);
    var asked := Signalled(w, Term, p.pid);
    if EndsInTime(w, p.pid, term, polls) {
      VacateKeeps(asked, p.pid, term.heir);
    } else {
      SignalledKeeps(asked, Kill, p.pid);
      VacateKeeps(Signalled(asked, Kill, p.pid), p.pid, None);
    }
  }

  lemma StopWmKeeps(w: World, env: Env)
    requires Safe(w) && HeirOk(w, env, env.wmTerm)
    ensures Safe(StopWm(w, env))
    ensures Tracked(w) ==> Tracked(StopWm(w, env))
  {
    if WmOf(w.dir).Some? {
      var p := w.dir.wm.value.proc;
      var forgotten := w.(dir := w.dir.(wm := None));
      assert Safe(forgotten) && (Tracked(w) ==> Tracked(forgotten));
      if w.haveProc && IsSame(w, p) {
        TerminateKeeps(forgotten, p, false, env.wmTerm, WM_POLLS);
      }
    }
  }

  /** Stopping the window manager only shrinks the processes, but for an heir's pid. */
  lemma StopWmFrame(w: World, env: Env)
    ensures var v := StopWm(w, env); v.dir == w.dir.(wm := v.dir.wm) && v.past == w.past && v.haveProc == w.haveProc
    ensures !w.haveProc ==> StopWm(w, env).procs == w.procs
    ensures forall p :: p in StopWm(w, env).procs ==> p in w.procs
    ensures w.clock <= StopWm(w, env).clock
  {
  }

  /** The pidfile's process, when `/proc` or the nonce on its display vouches for it, is
      a server xcua started. */
  lemma PidfileNamesOurs(w: World, p: Proc, probe: nat -> Probe)
    requires Safe(w) && w.dir.pidfile == Some(p)
    requires
      || IsXvfb(w, p)
      || (!w.haveProc && ProbesOk(w.procs, w.past.nonces, probe) && w.dir.env.Some?
            && w.dir.nonce.Some? && probe(w.dir.env.value) == Answered(w.dir.nonce))
    ensures p.pid in w.procs && Actual(w, p.pid) == w.past.nonces[w.dir.nonce.value]
  {
    if !w.haveProc {
      var q :| q in w.procs && w.procs[q].kind == XvfbKind(w.dir.env.value, w.dir.nonce);
    }
  }

  predicate Holds(w: World, before: World) {
    Safe(w) && w.haveProc == before.haveProc && (Tracked(before) ==> Tracked(w))
  }

  /** What an operation may still ask of its environment after it stopped something. */
  predicate Fits(w: World, env: Env) {
    SpawnOk(w, env) && HeirOk(w, env, env.xvfbTerm) && HeirOk(w, env, env.wmTerm)
  }

  predicate WmFits(w: World, env: Env) {
    && (env.wmTerm.Dies? && env.wmTerm.heir.Some? ==> Foreign(env.wmTerm.heir.value, w.past.nonces))
    && (env.wmStart.Some? ==> ValidPid(env.wmStart.value) && env.wmStart.value !in w.procs)
  }

  lemma StopWmFits(w: World, env: Env)
    requires Fits(w, env)
    ensures Fits(StopWm(w, env), env)
  {
  }

  lemma StopFits(w: World, p: Proc, display: Option<nat>, nonce: Option<nat>, env: Env)
    requires Fits(w, env)
    ensures Fits(Stop(w, p, display, nonce, env).0, env)
  {
  }

  /** The server stopped is the pidfile's, and with `/proc` it is gone afterwards. */
  lemma StopKeeps(w: World, p: Proc, display: Option<nat>, nonce: Option<nat>, env: Env)
    requires Safe(w) && w.dir.pidfile == Some(p) && HeirOk(w, env, env.xvfbTerm)
    requires !w.haveProc ==>
      display.None? || nonce.None? || (ProbesOk(w.procs, w.past.nonces, env.probe) && display == w.dir.env && nonce == w.dir.nonce)
    ensures Holds(Stop(w, p, display, nonce, env).0, w)
    ensures w.haveProc ==> !Lives(Stop(w, p, display, nonce, env).0.procs, w.past.nonces[w.dir.nonce.value])
  {
    if w.haveProc {
      if IsXvfb(w, p) {
        PidfileNamesOurs(w, p, env.probe);
        TerminateKeeps(w, p, true, env.xvfbTerm, XVFB_POLLS);
      } else if Lives(w.procs, w.past.nonces[w.dir.nonce.value]) {
        assert false;
      }
    } else {
      StopBlindKeeps(w, p, display, nonce, env);
    }
  }

  lemma StopBlindKeeps(w: World, p: Proc, display: Option<nat>, nonce: Option<nat>, env: Env)
    requires Safe(w) && !w.haveProc && w.dir.pidfile == Some(p) && HeirOk(w, env, env.xvfbTerm)
    requires
      display.None? || nonce.None? || (ProbesOk(w.procs, w.past.nonces, env.probe) && display == w.dir.env && nonce == w.dir.nonce)
    ensures Safe(StopBlind(w, p, display, nonce, env).0)
  {
    if display.Some? && nonce.Some? && p.pid in w.procs && env.probe(display.value) == Answered(nonce) {
      PidfileNamesOurs(w, p, env.probe);
      SignalledKeeps(w, Term, p.pid);
      var asked := Signalled(w, Term, p.pid);
      if EndsInTime(w, p.pid, env.xvfbTerm, BLIND_POLLS) {
        VacateKeeps(asked, p.pid, env.xvfbTerm.heir);
      }
    }
  }

  /** An answer with the recorded nonce comes from the server the pidfile names. */
  lemma LiveIsOurs(w: World, probe: nat -> Probe)
    requires Safe(w) && ProbesOk(w.procs, w.past.nonces, probe) && Check(w, probe).Live?
    ensures var p := Check(w, probe).proc;
      && w.dir.pidfile == Some(p) && p.pid in w.procs && Actual(w, p.pid) == w.past.nonces[w.dir.nonce.value]
      && Actual(w, p.pid) in w.past.xvfbs
      && w.procs[p.pid].kind == XvfbKind(Check(w, probe).display, w.dir.nonce)
  {
    var d := w.dir.env.value;
    var q :| q in w.procs && w.procs[q].kind == XvfbKind(d, w.dir.nonce);
  }

  /** With `/proc`, no answer and no silence means no server of xcua's lives. */
  lemma GoneMeansNone(w: World, probe: nat -> Probe)
    requires Safe(w) && Tracked(w) && ProbesOk(w.procs, w.past.nonces, probe) && Check(w, probe).Gone?
    ensures forall i :: i in w.past.xvfbs ==> !Lives(w.procs, i)
  {
  }

  lemma AdoptKeeps(w: World, xvfb: Ident)
    requires Safe(w) && xvfb in w.past.xvfbs
    ensures Holds(Adopt(w, xvfb), w)
  {
  }

  lemma AddUserKeeps(w: World, me: nat, xvfb: Ident)
    requires Safe(w) && xvfb in w.past.xvfbs && ValidPid(me)
    ensures Holds(AddUser(w, me, xvfb), w)
  {
  }

  lemma ReuseKeeps(w: World, owner: Owner, p: Proc)
    requires Safe(w) && Actual(w, p.pid) in w.past.xvfbs && (owner.McpOwner? ==> ValidPid(owner.pid))
    ensures Holds(Reuse(w, owner, p), w)
  {
    match owner {
      case UpOwner => AdoptKeeps(w, Actual(w, p.pid));
      case McpOwner(me) =>
        AddUserKeeps(w, me, Actual(w, p.pid));
    }
  }

  lemma StartWmKeeps(w: World, cmd: nat, env: Env)
    requires Safe(w) && WmFits(w, env)
    ensures Holds(StartWm(w, cmd, env).0, w)
  {
  }

  lemma ApplyWmKeeps(w: World, want: WmWant, env: Env)
    requires Safe(w) && WmFits(w, env)
    ensures Holds(ApplyWm(w, want, env).0, w)
  {
    if want.NoWm? || want.Auto? || want.Run? {
      StopWmHolds(w, env);
      var quiet := StopWm(w, env);
      if want.Run? {
        StartWmKeeps(quiet, want.cmd, env);
      } else if want.Auto? && env.wmFound.Some? {
        StartWmKeeps(quiet, env.wmFound.value, env);
      }
    }
  }

  lemma StopWmHolds(w: World, env: Env)
    requires Safe(w) && WmFits(w, env)
    ensures Holds(StopWm(w, env), w) && WmFits(StopWm(w, env), env)
  {
    var plain := env.(spawn := None);
    StopWmKeeps(w, plain);
    assert StopWm(w, env) == StopWm(w, plain);
  }

  predicate FreshFor(w: World, s: Spawned) {
    && ValidPid(s.pid) && s.pid !in w.procs && s.nonce !in w.past.nonces
    && (forall p :: p in w.procs ==> w.procs[p].kind.OtherKind? || w.procs[p].kind.nonce != Some(s.nonce))
  }

  lemma BornBearers(w: World, s: Spawned, owner: Owner)
    requires Safe(w) && FreshFor(w, s)
    ensures var v := Born(w, s, owner);
      KernelOk(v.procs, v.clock) && PastOk(v.past, v.clock) && BearersOk(v.procs, v.past)
  {
  }

  lemma BornDir(w: World, s: Spawned, owner: Owner)
    requires Safe(w) && w.dir.pidfile.None? && FreshFor(w, s)
    ensures var v := Born(w, s, owner);
      && PidfileOk(v.dir, v.past.nonces, v.haveProc) && DisplayOk(v.procs, v.dir, v.past.nonces)
      && WmOk(v.dir.wm, v.past.wms, v.haveProc) && SentOk(v.sent, v.past)
  {
  }

  lemma BornTracked(w: World, s: Spawned, owner: Owner)
    requires Safe(w) && Tracked(w) && w.dir.pidfile.None? && FreshFor(w, s)
    ensures Tracked(Born(w, s, owner))
  {
  }

  lemma BornKeeps(w: World, s: Spawned, owner: Owner)
    requires Safe(w) && w.dir.pidfile.None? && FreshFor(w, s)
    ensures Holds(Born(w, s, owner), w)
  {
    BornBearers(w, s, owner);
    BornDir(w, s, owner);
    if Tracked(w) {
      BornTracked(w, s, owner);
    }
  }

  lemma RegisteredKeeps(w: World, owner: Owner, xvfb: Ident)
    requires Safe(w) && xvfb in w.past.xvfbs && CallerOk(owner)
    ensures Holds(Registered(w, owner, xvfb), w)
  {
    match owner {
      case UpOwner => AdoptKeeps(w, xvfb);
      case McpOwner(who) => AddUserKeeps(w, who, xvfb);
    }
  }

  lemma BornFits(w: World, s: Spawned, owner: Owner, env: Env)
    requires Fits(w, env) && env.spawn == Some(s)
    ensures WmFits(Registered(Born(w, s, owner), owner, Ident(s.pid, w.clock)), env)
  {
  }

  lemma BornRegisteredKeeps(w: World, s: Spawned, owner: Owner)
    requires Safe(w) && w.dir.pidfile.None? && FreshFor(w, s) && CallerOk(owner)
    ensures Holds(Registered(Born(w, s, owner), owner, Ident(s.pid, w.clock)), w)
  {
    BornKeeps(w, s, owner);
    RegisteredKeeps(Born(w, s, owner), owner, Ident(s.pid, w.clock));
  }

  lemma FinishKeeps(w: World, ready: World, want: WmWant, env: Env)
    requires Holds(ready, w) && WmFits(ready, env)
    ensures Holds(ApplyWm(ready, want, env).0, w)
  {
    ApplyWmKeeps(ready, want, env);
  }

  lemma StartXvfbKeeps(w: World, owner: Owner, want: WmWant, env: Env)
    requires Safe(w) && w.dir.pidfile.None? && Fits(w, env) && CallerOk(owner)
    ensures Holds(StartXvfb(w, owner, want, env).0, w)
  {
    if env.spawn.Some? && env.spawn.value.marked {
      var s := env.spawn.value;
      BornRegisteredKeeps(w, s, owner);
      BornFits(w, s, owner, env);
      FinishKeeps(w, Registered(Born(w, s, owner), owner, Ident(s.pid, w.clock)), want, env);
    }
  }

  predicate CallerOk(owner: Owner) {
    owner.McpOwner? ==> ValidPid(owner.pid)
  }

  // ---------- the operations keep it ----------

  predicate NoneLives(w: World) {
    forall i :: i in w.past.xvfbs ==> !Lives(w.procs, i)
  }

  lemma UpFreshKeeps(w: World, args: UpArgs, want: WmWant, env: Env)
    requires Safe(w) && Fits(w, env) && CallerOk(args.owner) && (Tracked(w) ==> NoneLives(w))
    ensures Holds(UpFresh(w, args, want, env).0, w)
  {
    StopWmKeeps(w, env);
    StopWmFits(w, env);
    if Tracked(w) {
      StopWmNone(w, env);
    }
    var quiet := StopWm(w, env);
    ClearKeeps(quiet);
    StartXvfbKeeps(Clear(quiet), args.owner, want, env);
  }

  lemma StopWmNone(w: World, env: Env)
    requires PastOk(w.past, w.clock) && NoneLives(w)
    ensures NoneLives(StopWm(w, env))
  {
  }

  lemma UpRestartKeeps(w: World, args: UpArgs, display: nat, p: Proc, env: Env)
    requires Safe(w) && ProbesOk(w.procs, w.past.nonces, env.probe) && Fits(w, env) && CallerOk(args.owner)
    requires Check(w, env.probe) == Live(display, p)
    ensures Holds(UpRestart(w, args, display, p, env).0, w)
  {
    StopWmKeeps(w, env);
    StopWmFits(w, env);
    StopWmFrame(w, env);
    var quiet := StopWm(w, env);
    StopKeeps(quiet, p, Some(display), w.dir.nonce, env);
    StopFits(quiet, p, Some(display), w.dir.nonce, env);
    var (stopped, how) := Stop(quiet, p, Some(display), w.dir.nonce, env);
    StopFrame(quiet, p, Some(display), w.dir.nonce, env);
    if !how.StillAnswering? {
      ClearKeeps(stopped);
      UpFreshKeeps(Clear(stopped), args, WantAgain(w, args.wm), env);
    }
  }

  lemma StopFrame(w: World, p: Proc, display: Option<nat>, nonce: Option<nat>, env: Env)
    ensures var v := Stop(w, p, display, nonce, env).0; v.dir == w.dir && v.past == w.past && v.haveProc == w.haveProc
  {
  }

  /** Once the named server is gone, none of xcua's lives. */
  lemma NamedGone(w: World)
    requires Safe(w) && Tracked(w) && w.dir.pidfile.Some? && !Lives(w.procs, w.past.nonces[w.dir.nonce.value])
    ensures NoneLives(w)
  {
  }

  /** Ended for good: stopped, and forgotten unless it still answers. */
  lemma StopForGoodKeeps(w: World, p: Proc, env: Env)
    requires Safe(w) && ProbesOk(w.procs, w.past.nonces, env.probe) && Fits(w, env) && w.dir.pidfile == Some(p)
    ensures Holds(StopForGood(w, p, env), w)
    ensures Tracked(w) ==> StopForGood(w, p, env).dir == NO_DIR && NoneLives(StopForGood(w, p, env))
  {
    StopWmKeeps(w, env);
    StopWmFits(w, env);
    StopWmFrame(w, env);
    var quiet := StopWm(w, env);
    StopKeeps(quiet, p, w.dir.env, w.dir.nonce, env);
    StopFrame(quiet, p, w.dir.env, w.dir.nonce, env);
    ClearKeeps(Stop(quiet, p, w.dir.env, w.dir.nonce, env).0);
    if Tracked(w) {
      NamedGone(Stop(quiet, p, w.dir.env, w.dir.nonce, env).0);
    }
  }

  lemma UpDisplayKeeps(w: World, args: UpArgs, d: nat, env: Env)
    requires Safe(w) && EnvOk(w, Up(args), env)
    ensures Holds(UpDisplay(w, args, d, env).0, w)
  {
    var seen := Check(w, env.probe);
    if seen.Live? {
      LiveIsOurs(w, env.probe);
      ReuseKeeps(w, args.owner, seen.proc);
    } else if seen.Gone? {
      ClearKeeps(w);
      if Tracked(w) {
        GoneMeansNone(w, env.probe);
      }
    }
  }

  lemma UpOwnKeeps(w: World, args: UpArgs, env: Env)
    requires Safe(w) && EnvOk(w, Up(args), env)
    ensures Holds(UpOwn(w, args, env).0, w)
  {
    var seen := Check(w, env.probe);
    if seen.Live? {
      LiveIsOurs(w, env.probe);
      UpReuseKeeps(w, args, seen.display, seen.proc, env);
      UpRestartKeeps(w, args, seen.display, seen.proc, env);
    } else if seen.Silent? {
      UpSilentKeeps(w, args, seen.proc, env);
    } else {
      if Tracked(w) {
        GoneMeansNone(w, env.probe);
      }
      UpFreshKeeps(w, args, args.wm, env);
    }
  }

  lemma UpKeeps(w: World, args: UpArgs, env: Env)
    requires Safe(w) && EnvOk(w, Up(args), env)
    ensures Holds(UpSpec(w, args, env).0, w)
  {
    if args.display.Some? {
      UpDisplayKeeps(w, args, args.display.value, env);
    } else {
      UpOwnKeeps(w, args, env);
    }
  }

  lemma UpReuseKeeps(w: World, args: UpArgs, display: nat, p: Proc, env: Env)
    requires Safe(w) && Actual(w, p.pid) in w.past.xvfbs && Fits(w, env) && CallerOk(args.owner)
    ensures Holds(UpReuse(w, args, display, p, env).0, w)
  {
    ReuseKeeps(w, args.owner, p);
    ApplyWmKeeps(Reuse(w, args.owner, p), args.wm, env);
  }

  lemma UpSilentKeeps(w: World, args: UpArgs, p: Proc, env: Env)
    requires Safe(w) && Fits(w, env) && CallerOk(args.owner) && w.dir.pidfile == Some(p)
    ensures Holds(UpSilent(w, args, p, env).0, w)
  {
    if IsXvfb(w, p) && w.procs[p.pid].halted {
      var stopped := Stop(w, p, None, None, env).0;
      StopKeeps(w, p, None, None, env);
      StopFits(w, p, None, None, env);
      StopFrame(w, p, None, None, env);
      if Tracked(w) {
        NamedGone(stopped);
      }
      UpFreshKeeps(stopped, args, args.wm, env);
    }
  }

  lemma ReleaseKeeps(w: World, me: nat, env: Env)
    requires Safe(w) && EnvOk(w, Release(me), env)
    ensures Holds(ReleaseSpec(w, me, env), w)
  {
    var left := Left(w, me);
    LeftKeeps(w, me);
    PrunedKeeps(left);
    if left.dir.pidfile.Some? {
      StopForGoodKeeps(Pruned(left), w.dir.pidfile.value, env);
    }
  }

  lemma LeftKeeps(w: World, me: nat)
    requires Safe(w) && me in w.procs
    ensures Holds(Left(w, me), w)
  {
  }

  lemma PrunedKeeps(w: World)
    requires Safe(w)
    ensures Holds(Pruned(w), w)
  {
  }

  lemma DownKeeps(w: World, env: Env)
    requires Safe(w) && EnvOk(w, Down, env)
    ensures Holds(DownSpec(w, env), w)
  {
    if w.dir.pidfile.Some? {
      StopForGoodKeeps(w, w.dir.pidfile.value, env);
    } else {
      StopWmKeeps(w, env);
      StopWmFrame(w, env);
      ClearKeeps(StopWm(w, env));
    }
  }

  // ---------- all runs ----------

  predicate Initial(w: World) {
    w.dir == NO_DIR && w.sent == [] && w.past == History(map[], {}, {}, {}, map[]) && KernelOk(w.procs, w.clock)
  }

  ghost predicate Step(w: World, w': World) {
    || Between(w, w')
    || exists op, env :: EnvOk(w, op, env) && w' == Exec(w, op, env)
  }

  /** World `k` of a run is a step behind the one before. */
  ghost predicate StepTo(ws: seq<World>, k: nat)
    requires 0 < k < |ws|
  {
    Step(ws[k - 1], ws[k])
  }

  ghost predicate Run(ws: seq<World>) {
    && |ws| > 0 && Initial(ws[0])
    && forall k :: 0 < k < |ws| ==> StepTo(ws, k)
  }

  lemma BetweenKeeps(w: World, w': World)
    requires Safe(w) && Between(w, w')
    ensures Holds(w', w)
  {
  }

  lemma ExecKeeps(w: World, op: Op, env: Env)
    requires Safe(w) && EnvOk(w, op, env)
    ensures Holds(Exec(w, op, env), w)
  {
    match op {
      case Up(args) => UpKeeps(w, args, env);
      case Release(me) => ReleaseKeeps(w, me, env);
      case Down => DownKeeps(w, env);
    }
  }

  lemma {:induction false} RunKeeps(ws: seq<World>, k: nat)
    requires Run(ws) && k < |ws|
    ensures Safe(ws[k]) && ws[k].haveProc == ws[0].haveProc && (ws[k].haveProc ==> Tracked(ws[k]))
  {
    if k > 0 {
      RunKeeps(ws, k - 1);
      var w, w' := ws[k - 1], ws[k];
      assert StepTo(ws, k);
      if Between(w, w') {
        BetweenKeeps(w, w');
      } else {
        var op, env :| EnvOk(w, op, env) && w' == Exec(w, op, env);
        ExecKeeps(w, op, env);
      }
    }
  }

  /** With `/proc`, at most one Xvfb that xcua started is alive, and the pidfile and the
      env file name it. */
  lemma AtMostOneServer(ws: seq<World>, k: nat, i: Ident, j: Ident)
    requires Run(ws) && k < |ws| && ws[k].haveProc
    requires i in ws[k].past.xvfbs && Lives(ws[k].procs, i)
    requires j in ws[k].past.xvfbs && Lives(ws[k].procs, j)
    ensures i == j && ws[k].dir.pidfile == Some(Proc(i.pid, Some(i.start)))
    ensures ws[k].procs[i.pid].kind.XvfbKind? && ws[k].dir.env == Some(ws[k].procs[i.pid].kind.display)
  {
    RunKeeps(ws, k);
  }

  /** With or without `/proc`, every signal of every run reached a process xcua started. */
  lemma SignalsReachOurs(ws: seq<World>, k: nat, n: nat)
    requires Run(ws) && k < |ws| && n < |ws[k].sent|
    ensures ws[k].sent[n].reached in ws[k].past.xvfbs + ws[k].past.wms && ValidPid(ws[k].sent[n].reached.pid)
  {
    RunKeeps(ws, k);
  }

  /** The last live user of a server `up` does not own takes it along. */
  lemma LastUserStops(ws: seq<World>, k: nat, me: nat, env: Env)
    requires Run(ws) && k < |ws| && ws[k].haveProc && EnvOk(ws[k], Release(me), env) && env.locked
    requires ws[k].dir.pidfile.Some? && ws[k].dir.owner != Some(UpOwner)
    requires forall pid :: pid in ws[k].dir.users && pid != me ==> !UserLives(ws[k], pid)
    ensures ReleaseSpec(ws[k], me, env).dir == NO_DIR && NoneLives(ReleaseSpec(ws[k], me, env))
  {
    RunKeeps(ws, k);
    var left := Left(ws[k], me);
    LeftKeeps(ws[k], me);
    PrunedKeeps(left);
    assert Pruned(left).dir.users == map[] by {
      forall pid | pid in left.dir.users ensures !UserLives(left, pid) {
        assert !UserLives(ws[k], pid);
      }
    }
    StopForGoodKeeps(Pruned(left), ws[k].dir.pidfile.value, env);
  }

  /** `down` ends whatever xcua started, silent or halted, and forgets it. */
  lemma DownStops(ws: seq<World>, k: nat, env: Env)
    requires Run(ws) && k < |ws| && ws[k].haveProc && EnvOk(ws[k], Down, env) && env.locked
    ensures DownSpec(ws[k], env).dir == NO_DIR && NoneLives(DownSpec(ws[k], env))
  {
    var w := ws[k];
    RunKeeps(ws, k);
    if w.dir.pidfile.Some? {
      StopForGoodKeeps(w, w.dir.pidfile.value, env);
    } else {
      StopWmNone(w, env);
    }
  }

  lemma StopWmSpares(w: World, env: Env, i: Ident)
    requires Safe(w) && w.haveProc && i in w.past.xvfbs && Lives(w.procs, i)
    ensures Lives(StopWm(w, env).procs, i)
  {
  }

  lemma RunWmSpares(w: World, cmd: nat, env: Env, i: Ident)
    requires Safe(w) && WmFits(w, env) && w.haveProc && i in w.past.xvfbs && Lives(w.procs, i)
    ensures Lives(RunWm(w, cmd, env).0.procs, i)
  {
    StopWmHolds(w, env);
    StopWmSpares(w, env, i);
  }

  lemma ApplyWmSpares(w: World, want: WmWant, env: Env, i: Ident)
    requires Safe(w) && WmFits(w, env) && w.haveProc && i in w.past.xvfbs && Lives(w.procs, i)
    ensures Lives(ApplyWm(w, want, env).0.procs, i)
  {
    match want {
      case Leave =>
      case NoWm => StopWmSpares(w, env, i);
      case Auto =>
        if env.wmFound.Some? {
          RunWmSpares(w, env.wmFound.value, env, i);
        }
      case Run(cmd) => RunWmSpares(w, cmd, env, i);
    }
  }

  /** Without `--restart`, `up` leaves a server that is not halted alone. */
  lemma UpSparesRunning(ws: seq<World>, k: nat, args: UpArgs, env: Env, i: Ident)
    requires Run(ws) && k < |ws| && ws[k].haveProc && EnvOk(ws[k], Up(args), env) && !args.restart
    requires i in ws[k].past.xvfbs && Lives(ws[k].procs, i) && !ws[k].procs[i.pid].halted
    ensures Lives(UpSpec(ws[k], args, env).0.procs, i)
  {
    RunKeeps(ws, k);
    UpSpares(ws[k], args, env, i);
  }

  lemma UpSpares(w: World, args: UpArgs, env: Env, i: Ident)
    requires Safe(w) && Tracked(w) && EnvOk(w, Up(args), env) && !args.restart
    requires i in w.past.xvfbs && Lives(w.procs, i) && !w.procs[i.pid].halted
    ensures Lives(UpSpec(w, args, env).0.procs, i)
  {
    var seen := Check(w, env.probe);
    if seen.Gone? {
      GoneMeansNone(w, env.probe);
      assert false;
    } else if seen.Live? {
      LiveIsOurs(w, env.probe);
      ReuseKeeps(w, args.owner, seen.proc);
      ApplyWmSpares(Reuse(w, args.owner, seen.proc), args.wm, env, i);
    }
  }

  /** The state dir serves `display` from a live server at `pid`, for `owner` and others
      who are alive. */
  predicate ServedBy(w: World, display: nat, pid: nat, owner: Owner, alive: Processes) {
    && w.dir.env == Some(display) && w.dir.pidfile.Some? && w.dir.pidfile.value.pid == pid
    && w.dir.nonce.Some? && w.dir.nonce.value in w.past.nonces && w.past.nonces[w.dir.nonce.value].pid == pid
    && Lives(w.procs, w.past.nonces[w.dir.nonce.value])
    && (owner.UpOwner? ==> w.dir.owner == Some(UpOwner))
    && (owner.McpOwner? ==>
          && owner.pid in w.dir.users && w.dir.owner.Some?
          && (w.dir.owner.value.UpOwner? || w.dir.owner.value.pid in alive))
  }

  lemma ApplyWmServes(w: World, want: WmWant, env: Env, display: nat, pid: nat, owner: Owner, alive: Processes)
    requires Safe(w) && w.haveProc && WmFits(w, env) && ServedBy(w, display, pid, owner, alive)
    ensures ServedBy(ApplyWm(w, want, env).0, display, pid, owner, alive)
  {
    ApplyWmSpares(w, want, env, w.past.nonces[w.dir.nonce.value]);
    ApplyWmFrame(w, want, env);
  }

  lemma RunWmFrame(w: World, cmd: nat, env: Env)
    ensures var v := RunWm(w, cmd, env).0;
      v.dir == w.dir.(wm := v.dir.wm) && v.past.nonces == w.past.nonces
  {
    StopWmFrame(w, env);
  }

  lemma ApplyWmFrame(w: World, want: WmWant, env: Env)
    ensures var v := ApplyWm(w, want, env).0;
      v.dir == w.dir.(wm := v.dir.wm) && v.past.nonces == w.past.nonces
  {
    match want {
      case Leave =>
      case NoWm => StopWmFrame(w, env);
      case Auto =>
        if env.wmFound.Some? {
          RunWmFrame(w, env.wmFound.value, env);
        }
      case Run(cmd) => RunWmFrame(w, cmd, env);
    }
  }

  lemma BornServes(w: World, s: Spawned, owner: Owner, alive: Processes)
    requires owner.McpOwner? ==> owner.pid in alive
    ensures ServedBy(Registered(Born(w, s, owner), owner, Ident(s.pid, w.clock)), s.display, s.pid, owner, alive)
  {
  }

  lemma MarkedServes(w: World, s: Spawned, ready: World, owner: Owner, want: WmWant, env: Env, alive: Processes)
    requires Safe(w) && w.haveProc && w.dir.pidfile.None? && Fits(w, env) && CallerOk(owner) && env.spawn == Some(s)
    requires (owner.McpOwner? ==> owner.pid in alive) && ready == Registered(Born(w, s, owner), owner, Ident(s.pid, w.clock))
    ensures ServedBy(ApplyWm(ready, want, env).0, s.display, s.pid, owner, alive)
  {
    BornRegisteredKeeps(w, s, owner);
    BornFits(w, s, owner, env);
    BornServes(w, s, owner, alive);
    ApplyWmServes(ready, want, env, s.display, s.pid, owner, alive);
  }

  lemma StartXvfbServes(w: World, owner: Owner, want: WmWant, env: Env, alive: Processes)
    requires Safe(w) && w.haveProc && w.dir.pidfile.None? && Fits(w, env) && CallerOk(owner)
    requires owner.McpOwner? ==> owner.pid in alive
    ensures var (v, out) := StartXvfb(w, owner, want, env);
      out.Started? ==> ServedBy(v, out.display, out.pid, owner, alive)
  {
    if env.spawn.Some? && env.spawn.value.marked {
      var s := env.spawn.value;
      MarkedServes(w, s, Registered(Born(w, s, owner), owner, Ident(s.pid, w.clock)), owner, want, env, alive);
    }
  }

  lemma UpFreshServes(w: World, args: UpArgs, want: WmWant, env: Env, alive: Processes)
    requires Safe(w) && w.haveProc && Fits(w, env) && CallerOk(args.owner)
    requires args.owner.McpOwner? ==> args.owner.pid in alive
    ensures var (v, out) := UpFresh(w, args, want, env);
      !out.Reused? && (out.Started? ==> ServedBy(v, out.display, out.pid, args.owner, alive))
  {
    StopWmKeeps(w, env);
    StopWmFits(w, env);
    ClearKeeps(StopWm(w, env));
    StartXvfbServes(Clear(StopWm(w, env)), args.owner, want, env, alive);
  }

  lemma ReuseServes(w: World, owner: Owner, probe: nat -> Probe)
    requires Safe(w) && ProbesOk(w.procs, w.past.nonces, probe) && Check(w, probe).Live?
    requires owner.McpOwner? ==> owner.pid in w.procs
    ensures var seen := Check(w, probe);
      ServedBy(Reuse(w, owner, seen.proc), seen.display, seen.proc.pid, owner, w.procs)
  {
    LiveIsOurs(w, probe);
  }

  lemma UpReuseServes(w: World, args: UpArgs, env: Env)
    requires Safe(w) && w.haveProc && EnvOk(w, Up(args), env) && Check(w, env.probe).Live?
    ensures var seen := Check(w, env.probe);
      var (v, out) := UpReuse(w, args, seen.display, seen.proc, env);
      out.Reused? ==> ServedBy(v, out.display, out.pid, args.owner, w.procs)
  {
    var seen := Check(w, env.probe);
    LiveIsOurs(w, env.probe);
    ReuseKeeps(w, args.owner, seen.proc);
    ReuseServes(w, args.owner, env.probe);
    ApplyWmServes(Reuse(w, args.owner, seen.proc), args.wm, env, seen.display, seen.proc.pid, args.owner, w.procs);
  }

  /** What the stop of a restart leaves is fit for a fresh start. */
  lemma RestartReady(w: World, display: nat, p: Proc, env: Env)
    requires Safe(w) && ProbesOk(w.procs, w.past.nonces, env.probe) && Fits(w, env) && Check(w, env.probe) == Live(display, p)
    ensures var v := Clear(Stop(StopWm(w, env), p, Some(display), w.dir.nonce, env).0);
      Safe(v) && v.haveProc == w.haveProc && Fits(v, env)
  {
    StopWmKeeps(w, env);
    StopWmFits(w, env);
    StopWmFrame(w, env);
    var quiet := StopWm(w, env);
    StopKeeps(quiet, p, Some(display), w.dir.nonce, env);
    StopFits(quiet, p, Some(display), w.dir.nonce, env);
    ClearKeeps(Stop(quiet, p, Some(display), w.dir.nonce, env).0);
  }

  lemma UpRestartServes(w: World, args: UpArgs, env: Env)
    requires Safe(w) && w.haveProc && EnvOk(w, Up(args), env) && Check(w, env.probe).Live?
    ensures var seen := Check(w, env.probe);
      var (v, out) := UpRestart(w, args, seen.display, seen.proc, env);
      !out.Reused? && (out.Started? ==> ServedBy(v, out.display, out.pid, args.owner, w.procs))
  {
    var seen := Check(w, env.probe);
    RestartReady(w, seen.display, seen.proc, env);
    var stopped := Stop(StopWm(w, env), seen.proc, Some(seen.display), w.dir.nonce, env).0;
    UpFreshServes(Clear(stopped), args, WantAgain(w, args.wm), env, w.procs);
  }

  lemma UpSilentServes(w: World, args: UpArgs, p: Proc, env: Env)
    requires Safe(w) && w.haveProc && EnvOk(w, Up(args), env) && w.dir.pidfile == Some(p)
    ensures var (v, out) := UpSilent(w, args, p, env);
      !out.Reused? && (out.Started? ==> ServedBy(v, out.display, out.pid, args.owner, w.procs))
  {
    if IsXvfb(w, p) && w.procs[p.pid].halted {
      StopKeeps(w, p, None, None, env);
      StopFits(w, p, None, None, env);
      UpFreshServes(Stop(w, p, None, None, env).0, args, args.wm, env, w.procs);
    }
  }

  /** What a successful `up` names is alive, recorded, and owned by `up` or a live mcp. */
  lemma UpServes(ws: seq<World>, k: nat, args: UpArgs, env: Env)
    requires Run(ws) && k < |ws| && ws[k].haveProc && EnvOk(ws[k], Up(args), env)
    ensures var (v, out) := UpSpec(ws[k], args, env);
      out.Reused? || out.Started? ==> ServedBy(v, out.display, out.pid, args.owner, ws[k].procs)
  {
    RunKeeps(ws, k);
    var w := ws[k];
    var seen := Check(w, env.probe);
    if seen.Live? {
      ReuseServes(w, args.owner, env.probe);
      UpReuseServes(w, args, env);
      UpRestartServes(w, args, env);
    } else if seen.Silent? {
      UpSilentServes(w, args, seen.proc, env);
    } else {
      UpFreshServes(w, args, args.wm, env, w.procs);
    }
  }

  /** The window manager is forgotten in any case; with `/proc` it has ended, without it is
      not signalled. */
  lemma StopWmEnds(w: World, env: Env)
    requires Safe(w) && WmOf(w.dir).Some?
    ensures var v, p := StopWm(w, env), w.dir.wm.value.proc;
      && v.dir.wm.None?
      && (w.haveProc && IsSame(w, p) ==> !Lives(v.procs, Ident(p.pid, p.start.value)))
      && (!w.haveProc ==> v.sent == w.sent)
  {
    var p := w.dir.wm.value.proc;
    if w.haveProc && IsSame(w, p) {
      assert Ident(p.pid, p.start.value) == Actual(w, p.pid);
    }
  }

  /** A window manager asked for is the one recorded, and it runs. */
  predicate Managed(w: World, cmd: nat) {
    w.dir.wm.Some? && w.dir.wm.value.cmd == cmd && IsSame(w, w.dir.wm.value.proc)
  }

  lemma RunWmManages(w: World, cmd: nat, env: Env)
    requires WmFits(w, env)
    ensures RunWm(w, cmd, env).1 ==> Managed(RunWm(w, cmd, env).0, cmd)
  {
  }

  lemma UpFreshManages(w: World, args: UpArgs, cmd: nat, env: Env)
    requires Fits(w, env)
    ensures UpFresh(w, args, WmWant.Run(cmd), env).1.Started? ==> Managed(UpFresh(w, args, WmWant.Run(cmd), env).0, cmd)
  {
    StopWmFits(w, env);
    var quiet := Clear(StopWm(w, env));
    if env.spawn.Some? && env.spawn.value.marked {
      var s := env.spawn.value;
      BornFits(quiet, s, args.owner, env);
      RunWmManages(Registered(Born(quiet, s, args.owner), args.owner, Ident(s.pid, quiet.clock)), cmd, env);
    }
  }

  /** A restart brings back the window manager that ran. */
  lemma RestartKeepsWm(w: World, args: UpArgs, display: nat, p: Proc, env: Env)
    requires Fits(w, env) && args.wm.Leave? && WmOf(w.dir).Some? && IsSame(w, w.dir.wm.value.proc)
    ensures var (v, out) := UpRestart(w, args, display, p, env);
      out.Started? ==> Managed(v, w.dir.wm.value.cmd)
  {
    StopWmFits(w, env);
    StopFits(StopWm(w, env), p, Some(display), w.dir.nonce, env);
    UpFreshManages(Clear(Stop(StopWm(w, env), p, Some(display), w.dir.nonce, env).0), args, w.dir.wm.value.cmd, env);
  }

  /** `up --display` and a recorded display only touch the state dir: nothing is started or
      signalled, and what is recorded is the display alone. */
  lemma AttachTouchesNothing(w: World, args: UpArgs, env: Env)
    ensures var (v, out) := UpSpec(w, args, env);
      && (args.display.Some? || out.Attached? ==> v.procs == w.procs && v.sent == w.sent)
      && (out.Attached? ==> v.dir.env == Some(out.display) && v.dir.pidfile.None?)
      && (args.display.Some? && out.Attached? ==> v.dir == NO_DIR.(env := args.display) && !Check(w, env.probe).Live?)
  {
    if args.display.None? {
      NotAttached(w, args, env);
    }
  }

  lemma NotAttached(w: World, args: UpArgs, env: Env)
    ensures var (v, out) := UpOwn(w, args, env);
      out.Attached? ==> v == w && w.dir.env == Some(out.display) && w.dir.pidfile.None?
  {
  }

  predicate ValidSince(w: World, from: nat) {
    forall n :: from <= n < |w.sent| ==> ValidPid(w.sent[n].reached.pid)
  }

  lemma StopWmValid(w: World, env: Env, from: nat)
    requires ValidSince(w, from)
    ensures ValidSince(StopWm(w, env), from)
  {
  }

  lemma StopValid(w: World, p: Proc, display: Option<nat>, nonce: Option<nat>, env: Env, from: nat)
    requires ValidSince(w, from)
    ensures ValidSince(Stop(w, p, display, nonce, env).0, from)
  {
  }

  lemma StartXvfbValid(w: World, owner: Owner, want: WmWant, env: Env, from: nat)
    requires ValidSince(w, from)
    ensures ValidSince(StartXvfb(w, owner, want, env).0, from)
  {
    if env.spawn.Some? && env.spawn.value.marked {
      var s := env.spawn.value;
      ApplyWmValid(Registered(Born(w, s, owner), owner, Ident(s.pid, w.clock)), want, env, from);
    }
  }

  lemma ApplyWmValid(w: World, want: WmWant, env: Env, from: nat)
    requires ValidSince(w, from)
    ensures ValidSince(ApplyWm(w, want, env).0, from)
  {
    StopWmValid(w, env, from);
  }

  lemma UpFreshValid(w: World, args: UpArgs, want: WmWant, env: Env, from: nat)
    requires ValidSince(w, from)
    ensures ValidSince(UpFresh(w, args, want, env).0, from)
  {
    StopWmValid(w, env, from);
    StartXvfbValid(Clear(StopWm(w, env)), args.owner, want, env, from);
  }

  lemma UpValid(w: World, args: UpArgs, env: Env, from: nat)
    requires ValidSince(w, from)
    ensures ValidSince(UpSpec(w, args, env).0, from)
  {
    var seen := Check(w, env.probe);
    if seen.Live? {
      ApplyWmValid(Reuse(w, args.owner, seen.proc), args.wm, env, from);
      StopWmValid(w, env, from);
      StopValid(StopWm(w, env), seen.proc, Some(seen.display), w.dir.nonce, env, from);
      UpFreshValid(Clear(Stop(StopWm(w, env), seen.proc, Some(seen.display), w.dir.nonce, env).0),
                   args, WantAgain(w, args.wm), env, from);
    } else if seen.Silent? {
      StopValid(w, seen.proc, None, None, env, from);
      UpFreshValid(Stop(w, seen.proc, None, None, env).0, args, args.wm, env, from);
    } else {
      UpFreshValid(w, args, args.wm, env, from);
    }
  }

  lemma EndValid(w: World, p: Proc, env: Env, from: nat)
    requires ValidSince(w, from)
    ensures ValidSince(StopForGood(w, p, env), from)
  {
    StopWmValid(w, env, from);
    StopValid(StopWm(w, env), p, w.dir.env, w.dir.nonce, env, from);
  }

  /** Whatever the files say, no signal goes to pid 0, pid 1 or a pid outside i32. */
  lemma NeverABadPid(w: World, op: Op, env: Env, n: nat)
    requires |w.sent| <= n < |Exec(w, op, env).sent|
    ensures ValidPid(Exec(w, op, env).sent[n].reached.pid)
  {
    var from := |w.sent|;
    match op {
      case Up(args) => UpValid(w, args, env, from);
      case Release(me) =>
        if w.dir.pidfile.Some? {
          EndValid(Pruned(Left(w, me)), w.dir.pidfile.value, env, from);
        }
      case Down =>
        StopWmValid(w, env, from);
        if w.dir.pidfile.Some? {
          EndValid(w, w.dir.pidfile.value, env, from);
        }
    }
  }
}
