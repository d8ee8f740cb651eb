/** Who owns a server and who uses it: what `up` started or adopted stays `up`'s, and a live
    user stays listed, with and without `/proc`. */
module XvfbOwners {
  import opened Wrappers
  import opened XvfbWorld
  import opened XvfbSpec
  import opened XvfbRuns

  // ---------- the invariant ----------

  predicate Listed(w: World, m: Ident) {
    && ValidPid(m.pid) && m.pid in w.dir.users
    && w.dir.users[m.pid] == if w.haveProc then Some(m.start) else None
  }

  /** A recorded server that `up` started or adopted is `up`'s, and a live mcp that got it
      from `up` is in the users list. */
  predicate Owned(w: World) {
    && w.past.upOwned <= w.past.xvfbs && (forall m :: m in w.past.got ==> w.past.got[m] in w.past.xvfbs)
    && (w.dir.pidfile.Some? && Named(w) in w.past.upOwned ==> w.dir.owner == Some(UpOwner))
    && forall m :: m in w.past.got && Lives(w.procs, m) && Records(w, w.past.got[m]) ==> Listed(w, m)
  }

  predicate TimesOk(w: World) {
    PastOk(w.past, w.clock) && KernelOk(w.procs, w.clock)
  }

  // ---------- steps that only end processes, or start window managers ----------

  /** No process of before comes to life, and of the state dir only the window manager is
      touched. */
  ghost predicate Shrinks(w: World, v: World) {
    && v.dir == w.dir.(wm := v.dir.wm) && v.past == w.past.(wms := v.past.wms) && v.haveProc == w.haveProc && w.clock <= v.clock
    && (KernelOk(w.procs, w.clock) ==> KernelOk(v.procs, v.clock))
    && forall i: Ident :: i.start < w.clock && Lives(v.procs, i) ==> Lives(w.procs, i)
  }

  lemma ShrinksOn(u: World, v: World, w: World)
    requires Shrinks(u, v) && Shrinks(v, w)
    ensures Shrinks(u, w)
  {
  }

  lemma ShrinksOwned(w: World, v: World)
    requires PastOk(w.past, w.clock) && Owned(w) && Shrinks(w, v)
    ensures Owned(v)
  {
  }

  lemma TerminateShrinks(w: World, p: Proc, xvfb: bool, term: AfterTerm, polls: nat)
    ensures var v := Terminate(w, p, xvfb, term, polls);
      v.dir == w.dir && v.past == w.past && Shrinks(w, v)
  {
  }

  lemma StopWmShrinks(w: World, env: Env)
    ensures Shrinks(w, StopWm(w, env))
  {
    if WmOf(w.dir).Some? {
      TerminateShrinks(w.(dir := w.dir.(wm := None)), w.dir.wm.value.proc, false, env.wmTerm, WM_POLLS);
    }
  }

  lemma StopShrinks(w: World, p: Proc, display: Option<nat>, nonce: Option<nat>, env: Env)
    ensures Shrinks(w, Stop(w, p, display, nonce, env).0)
  {
    TerminateShrinks(w, p, true, env.xvfbTerm, XVFB_POLLS);
  }

  lemma StartWmShrinks(w: World, cmd: nat, env: Env)
    ensures Shrinks(w, StartWm(w, cmd, env).0)
  {
  }

  lemma RunWmShrinks(w: World, cmd: nat, env: Env)
    ensures Shrinks(w, RunWm(w, cmd, env).0)
  {
    StopWmShrinks(w, env);
    StartWmShrinks(StopWm(w, env), cmd, env);
    ShrinksOn(w, StopWm(w, env), StartWm(StopWm(w, env), cmd, env).0);
  }

  lemma ApplyWmShrinks(w: World, want: WmWant, env: Env)
    ensures Shrinks(w, ApplyWm(w, want, env).0)
  {
    match want {
      case Leave =>
      case NoWm => StopWmShrinks(w, env);
      case Auto =>
        if env.wmFound.Some? {
          RunWmShrinks(w, env.wmFound.value, env);
        }
      case Run(cmd) => RunWmShrinks(w, cmd, env);
    }
  }

  // ---------- steps that change owners and users ----------

  lemma AdoptOwned(w: World, xvfb: Ident)
    requires Owned(w) && xvfb in w.past.xvfbs
    ensures Owned(Adopt(w, xvfb))
  {
  }

  lemma AddUserOwned(w: World, me: nat, xvfb: Ident)
    requires Owned(w) && xvfb in w.past.xvfbs && ValidPid(me)
    ensures Owned(AddUser(w, me, xvfb))
  {
  }

  lemma ReuseOwned(w: World, owner: Owner, p: Proc)
    requires Owned(w) && Actual(w, p.pid) in w.past.xvfbs && CallerOk(owner)
    ensures Owned(Reuse(w, owner, p))
  {
    match owner {
      case UpOwner => AdoptOwned(w, Actual(w, p.pid));
      case McpOwner(me) => AddUserOwned(w, me, Actual(w, p.pid));
    }
  }

  lemma BornOwned(w: World, s: Spawned, owner: Owner)
    requires PastOk(w.past, w.clock) && Owned(w) && w.dir.pidfile.None?
    ensures Owned(Born(w, s, owner)) && Ident(s.pid, w.clock) in Born(w, s, owner).past.xvfbs
  {
  }

  lemma StartXvfbOwned(w: World, owner: Owner, want: WmWant, env: Env)
    requires TimesOk(w) && Owned(w) && w.dir.pidfile.None? && SpawnOk(w, env) && CallerOk(owner)
    ensures Owned(StartXvfb(w, owner, want, env).0)
  {
    if env.spawn.Some? && env.spawn.value.marked {
      var s := env.spawn.value;
      var born, me := Born(w, s, owner), Ident(s.pid, w.clock);
      BornOwned(w, s, owner);
      match owner {
        case UpOwner => AdoptOwned(born, me);
        case McpOwner(who) => AddUserOwned(born, who, me);
      }
      ApplyWmShrinks(Registered(born, owner, me), want, env);
      BornPast(w, s, owner);
      ShrinksOwned(Registered(born, owner, me), ApplyWm(Registered(born, owner, me), want, env).0);
    }
  }

  lemma BornPast(w: World, s: Spawned, owner: Owner)
    requires TimesOk(w) && ValidPid(s.pid)
    ensures var v := Registered(Born(w, s, owner), owner, Ident(s.pid, w.clock)); PastOk(v.past, v.clock)
  {
  }

  lemma UpFreshOwned(w: World, args: UpArgs, want: WmWant, env: Env)
    requires TimesOk(w) && Owned(w) && Fits(w, env) && CallerOk(args.owner)
    ensures Owned(UpFresh(w, args, want, env).0)
  {
    StopWmShrinks(w, env);
    StopWmFits(w, env);
    ShrinksOwned(w, StopWm(w, env));
    StartXvfbOwned(Clear(StopWm(w, env)), args.owner, want, env);
  }

  lemma UpReuseOwned(w: World, args: UpArgs, display: nat, p: Proc, env: Env)
    requires TimesOk(w) && Owned(w) && Actual(w, p.pid) in w.past.xvfbs && CallerOk(args.owner)
    ensures Owned(UpReuse(w, args, display, p, env).0)
  {
    var joined := Reuse(w, args.owner, p);
    ReuseOwned(w, args.owner, p);
    ReusePast(w, args.owner, p);
    ApplyWmShrinks(joined, args.wm, env);
    ShrinksOwned(joined, ApplyWm(joined, args.wm, env).0);
  }

  lemma ReusePast(w: World, owner: Owner, p: Proc)
    requires TimesOk(w)
    ensures PastOk(Reuse(w, owner, p).past, Reuse(w, owner, p).clock)
  {
  }

  lemma StoppedOwned(w: World, p: Proc, display: Option<nat>, nonce: Option<nat>, env: Env)
    requires PastOk(w.past, w.clock) && Owned(w)
    ensures Owned(Stop(w, p, display, nonce, env).0)
  {
    StopShrinks(w, p, display, nonce, env);
    ShrinksOwned(w, Stop(w, p, display, nonce, env).0);
  }

  lemma ShrinksReady(w: World, v: World)
    requires TimesOk(w) && Owned(w) && Shrinks(w, v) && v.past.wms == w.past.wms
    ensures TimesOk(v) && Owned(v)
  {
    ShrinksTimes(w, v);
    ShrinksOwned(w, v);
  }

  lemma StoppedTimes(w: World, p: Proc, display: Option<nat>, nonce: Option<nat>, env: Env)
    requires TimesOk(w) && Owned(w)
    ensures var v := Stop(StopWm(w, env), p, display, nonce, env).0; TimesOk(v) && Owned(v)
  {
    var quiet := StopWm(w, env);
    StopWmShrinks(w, env);
    ShrinksReady(w, quiet);
    StopShrinks(quiet, p, display, nonce, env);
    ShrinksReady(quiet, Stop(quiet, p, display, nonce, env).0);
  }

  /** What a stop leaves is fit for a fresh start. */
  lemma StoppedReady(w: World, p: Proc, display: Option<nat>, nonce: Option<nat>, env: Env)
    requires TimesOk(w) && Owned(w) && Fits(w, env)
    ensures var v := Clear(Stop(StopWm(w, env), p, display, nonce, env).0);
      TimesOk(v) && Owned(v) && Fits(v, env)
  {
    StoppedTimes(w, p, display, nonce, env);
    StopWmFits(w, env);
    StopFits(StopWm(w, env), p, display, nonce, env);
  }

  lemma ShrinksTimes(w: World, v: World)
    requires TimesOk(w) && Shrinks(w, v) && v.past.wms == w.past.wms
    ensures TimesOk(v)
  {
  }

  lemma UpRestartOwned(w: World, args: UpArgs, display: nat, p: Proc, env: Env)
    requires TimesOk(w) && Owned(w) && Fits(w, env) && CallerOk(args.owner)
    ensures Owned(UpRestart(w, args, display, p, env).0)
  {
    StoppedReady(w, p, Some(display), w.dir.nonce, env);
    var (stopped, how) := Stop(StopWm(w, env), p, Some(display), w.dir.nonce, env);
    if how.StillAnswering? {
      StopWmShrinks(w, env);
      ShrinksOwned(w, StopWm(w, env));
      StoppedOwned(StopWm(w, env), p, Some(display), w.dir.nonce, env);
    } else {
      UpFreshOwned(Clear(stopped), args, WantAgain(w, args.wm), env);
    }
  }

  lemma UpSilentOwned(w: World, args: UpArgs, p: Proc, env: Env)
    requires TimesOk(w) && Owned(w) && Fits(w, env) && CallerOk(args.owner)
    ensures Owned(UpSilent(w, args, p, env).0)
  {
    if IsXvfb(w, p) && w.procs[p.pid].halted {
      StopShrinks(w, p, None, None, env);
      StoppedOwned(w, p, None, None, env);
      StopFits(w, p, None, None, env);
      UpFreshOwned(Stop(w, p, None, None, env).0, args, args.wm, env);
    }
  }

  lemma UpOwned(w: World, args: UpArgs, env: Env)
    requires Safe(w) && Owned(w) && EnvOk(w, Up(args), env)
    ensures Owned(UpSpec(w, args, env).0)
  {
    var seen := Check(w, env.probe);
    if seen.Live? {
      LiveIsOurs(w, env.probe);
      ReuseOwned(w, args.owner, seen.proc);
      UpReuseOwned(w, args, seen.display, seen.proc, env);
      UpRestartOwned(w, args, seen.display, seen.proc, env);
    } else if seen.Silent? {
      UpSilentOwned(w, args, seen.proc, env);
    } else {
      UpFreshOwned(w, args, args.wm, env);
    }
  }

  lemma LeftOwned(w: World, me: nat)
    requires Owned(w) && me in w.procs
    ensures Owned(Left(w, me))
  {
  }

  lemma PrunedOwned(w: World)
    requires Owned(w)
    ensures Owned(Pruned(w))
  {
  }

  lemma EndOwned(w: World, p: Proc, env: Env)
    requires PastOk(w.past, w.clock) && Owned(w)
    ensures Owned(StopForGood(w, p, env))
  {
    StopWmShrinks(w, env);
    ShrinksOwned(w, StopWm(w, env));
    StoppedOwned(StopWm(w, env), p, w.dir.env, w.dir.nonce, env);
  }

  lemma ReleaseOwned(w: World, me: nat, env: Env)
    requires Safe(w) && Owned(w) && me in w.procs
    ensures Owned(ReleaseSpec(w, me, env))
  {
    var pruned := Pruned(Left(w, me));
    LeftOwned(w, me);
    PrunedOwned(Left(w, me));
    if w.dir.pidfile.Some? {
      EndOwned(pruned, w.dir.pidfile.value, env);
    }
  }

  lemma DownOwned(w: World, env: Env)
    requires Safe(w) && Owned(w)
    ensures Owned(DownSpec(w, env))
  {
    StopWmShrinks(w, env);
    ShrinksOwned(w, StopWm(w, env));
    if w.dir.pidfile.Some? {
      EndOwned(w, w.dir.pidfile.value, env);
    }
  }

  lemma BetweenOwned(w: World, w': World)
    requires Safe(w) && Owned(w) && Between(w, w')
    ensures Owned(w')
  {
    assert Shrinks(w, w');
    ShrinksOwned(w, w');
  }

  lemma ExecOwned(w: World, op: Op, env: Env)
    requires Safe(w) && Owned(w) && EnvOk(w, op, env)
    ensures Owned(Exec(w, op, env))
  {
    match op {
      case Up(args) => UpOwned(w, args, env);
      case Release(me) => ReleaseOwned(w, me, env);
      case Down => DownOwned(w, env);
    }
  }

  lemma {:induction false} RunOwned(ws: seq<World>, k: nat)
    requires XvfbRuns.Run(ws) && k < |ws|
    ensures Owned(ws[k])
  {
    if k > 0 {
      RunOwned(ws, k - 1);
      RunKeeps(ws, k - 1);
      var w, w' := ws[k - 1], ws[k];
      assert StepTo(ws, k);
      if Between(w, w') {
        BetweenOwned(w, w');
      } else {
        var op, env :| EnvOk(w, op, env) && w' == Exec(w, op, env);
        ExecOwned(w, op, env);
      }
    }
  }

  // ---------- who keeps a server ----------

  lemma LiveIsRecorded(w: World, i: Ident)
    requires Safe(w) && Tracked(w) && i in w.past.xvfbs && Lives(w.procs, i)
    ensures Records(w, i)
  {
  }

  /** Without `/proc`, too, a leave ends no server but the recorded one. */
  lemma ReleaseSparesOthers(w: World, me: nat, env: Env, i: Ident)
    requires Safe(w) && !w.haveProc && EnvOk(w, Release(me), env) && i in w.past.xvfbs && Lives(w.procs, i) && !Records(w, i)
    ensures Lives(ReleaseSpec(w, me, env).procs, i)
  {
    var pruned := Pruned(Left(w, me));
    LeftKeeps(w, me);
    PrunedKeeps(Left(w, me));
    if w.dir.pidfile.Some? {
      var quiet := StopWm(pruned, env);
      StopWmKeeps(pruned, env);
      StopWmFrame(pruned, env);
      StopSparesOthers(quiet, w.dir.pidfile.value, env, i);
    }
  }

  lemma StopSparesOthers(w: World, p: Proc, env: Env, i: Ident)
    requires Safe(w) && !w.haveProc && w.dir.pidfile == Some(p) && ProbesOk(w.procs, w.past.nonces, env.probe)
    requires Lives(w.procs, i) && !Records(w, i)
    ensures Lives(Stop(w, p, w.dir.env, w.dir.nonce, env).0.procs, i)
  {
    if w.dir.env.Some? && w.dir.nonce.Some? && p.pid in w.procs && env.probe(w.dir.env.value) == Answered(w.dir.nonce) {
      PidfileNamesOurs(w, p, env.probe);
    }
  }

  /** A server `up` owns survives every mcp that leaves; if it is the recorded one, and with
      `/proc` it is, it is not even signalled. */
  lemma ReleaseSparesUp(ws: seq<World>, k: nat, me: nat, env: Env, i: Ident)
    requires XvfbRuns.Run(ws) && k < |ws| && (ws[k].haveProc || EnvOk(ws[k], Release(me), env))
    requires i in ws[k].past.upOwned && Lives(ws[k].procs, i)
    ensures Lives(ReleaseSpec(ws[k], me, env).procs, i)
    ensures ws[k].haveProc ==> Records(ws[k], i)
    ensures Records(ws[k], i) ==>
      ReleaseSpec(ws[k], me, env).sent == ws[k].sent && ReleaseSpec(ws[k], me, env).dir.pidfile == ws[k].dir.pidfile
  {
    RunKeeps(ws, k);
    RunOwned(ws, k);
    if ws[k].haveProc {
      LiveIsRecorded(ws[k], i);
    } else if !Records(ws[k], i) {
      ReleaseSparesOthers(ws[k], me, env, i);
    }
  }

  /** A live mcp that got a server from `up` does not lose it to another's leave. */
  lemma ReleaseSparesUsers(ws: seq<World>, k: nat, me: nat, env: Env, m: Ident)
    requires XvfbRuns.Run(ws) && k < |ws| && me in ws[k].procs && (ws[k].haveProc || EnvOk(ws[k], Release(me), env))
    requires m in ws[k].past.got && Lives(ws[k].procs, m) && m != Actual(ws[k], me)
    requires Lives(ws[k].procs, ws[k].past.got[m])
    ensures Lives(ReleaseSpec(ws[k], me, env).procs, ws[k].past.got[m])
    ensures ws[k].haveProc ==> Records(ws[k], ws[k].past.got[m])
    ensures Records(ws[k], ws[k].past.got[m]) ==>
      ReleaseSpec(ws[k], me, env).sent == ws[k].sent && ReleaseSpec(ws[k], me, env).dir.pidfile == ws[k].dir.pidfile
  {
    RunKeeps(ws, k);
    RunOwned(ws, k);
    if ws[k].haveProc {
      LiveIsRecorded(ws[k], ws[k].past.got[m]);
    }
    if Records(ws[k], ws[k].past.got[m]) {
      StillListed(ws[k], me, m);
    } else {
      ReleaseSparesOthers(ws[k], me, env, ws[k].past.got[m]);
    }
  }

  lemma StillListed(w: World, me: nat, m: Ident)
    requires Listed(w, m) && Lives(w.procs, m) && m != Actual(w, me) && me in w.procs
    ensures m.pid in Pruned(Left(w, me)).dir.users
  {
    assert UserLives(Left(w, me), m.pid);
  }
}
