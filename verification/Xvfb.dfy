/** The locked operations carried out file by file and signal by signal, as xcua does. */
module Xvfb {
  import opened Wrappers
  import opened XvfbWorld
  import opened XvfbSpec

  /** `users` has the entries of `w` in `rest`, and of the others the live ones. */
  ghost predicate PartlyPruned(w: World, users: map<nat, Option<nat>>, live: set<nat>, rest: set<nat>) {
    && rest <= users.Keys <= w.dir.users.Keys && live == users.Keys - rest
    && (forall pid :: pid in users ==> users[pid] == w.dir.users[pid])
    && (forall pid :: pid in w.dir.users && pid !in rest ==> (pid in users <==> UserLives(w, pid)))
  }

  lemma PruneOne(w: World, users: map<nat, Option<nat>>, live: set<nat>, rest: set<nat>, pid: nat)
    requires PartlyPruned(w, users, live, rest) && pid in rest
    ensures UserLives(w, pid) ==> PartlyPruned(w, users, live + {pid}, rest - {pid})
    ensures !UserLives(w, pid) ==> PartlyPruned(w, users - {pid}, live, rest - {pid})
  {
  }

  lemma AllPruned(w: World, users: map<nat, Option<nat>>)
    requires PartlyPruned(w, users, users.Keys, {})
    ensures w.(dir := w.dir.(users := users)) == Pruned(w)
  {
    assert users.Keys == Pruned(w).dir.users.Keys;
    assert users == Pruned(w).dir.users;
  }

  class Machine {
    var env: Option<nat>
    var pidfile: Option<Proc>
    var nonce: Option<nat>
    var owner: Option<Owner>
    var users: map<nat, Option<nat>>
    var wm: Option<Wm>
    var procs: Processes
    const haveProc: bool
    var clock: nat
    var sent: seq<Sent>
    var past: History

    constructor (w: World)
      ensures View() == w
    {
      env, pidfile, nonce, owner, users, wm := w.dir.env, w.dir.pidfile, w.dir.nonce, w.dir.owner, w.dir.users, w.dir.wm;
      procs, haveProc, clock, sent, past := w.procs, w.haveProc, w.clock, w.sent, w.past;
    }

    function View(): World
      reads this
    {
      World(Dir(env, pidfile, nonce, owner, users, wm), procs, haveProc, clock, sent, past)
    }

    method ClearDir()
      modifies this
      ensures View() == Clear(old(View()))
    {
      env := None;
      pidfile := None;
      wm := None;
      nonce := None;
      owner := None;
      users := map[];
    }

    /** kill(2), which reaches whoever has the pid now. */
    method Signal(signal: Signal, pid: nat)
      modifies this
      ensures View() == Signalled(old(View()), signal, pid)
    {
      sent := sent + [Sent(signal, Actual(View(), pid))];
    }

    /** The process at `pid` ends; `heir` takes the pid over. */
    method Exit(pid: nat, heir: Option<Kind>)
      modifies this
      ensures View() == Vacate(old(View()), pid, heir)
    {
      procs := if heir.Some? then procs[pid := Process(clock, heir.value, false)] else procs - {pid};
      clock := clock + 1;
    }

    /** One pause between polls, in which the process may end. */
    method Pause(pid: nat, term: AfterTerm, halted: bool, poll: nat)
      modifies this
      ensures View() ==
        if term.Dies? && term.poll == poll && !halted then Vacate(old(View()), pid, term.heir) else old(View())
    {
      if term.Dies? && term.poll == poll && !halted {
        Exit(pid, term.heir);
      }
    }

    /** SIGTERM, polls until the process is gone or the deadline, then SIGKILL. */
    method End(p: Proc, xvfb: bool, term: AfterTerm, polls: nat)
      requires Remains(View(), p, xvfb)
      modifies this
      ensures View() == Terminate(old(View()), p, xvfb, term, polls)
    {
      ghost var before := View();
      var halted := procs[p.pid].halted;
      Signal(Term, p.pid);
      Pause(p.pid, term, halted, 0);
      var n := 0;
      while Remains(View(), p, xvfb) && n < polls
        invariant n <= polls
        invariant term.Dies? && term.poll <= n && !halted ==> View() == Waited(before, p, term, polls)
        invariant !(term.Dies? && term.poll <= n && !halted) ==> View() == Signalled(before, Term, p.pid)
      {
        n := n + 1;
        Pause(p.pid, term, halted, n);
      }
      if Remains(View(), p, xvfb) {
        Signal(Kill, p.pid);
        Exit(p.pid, None);
      }
    }

    method EndWm(env: Env)
      modifies this
      ensures View() == StopWm(old(View()), env)
    {
      if WmOf(View().dir).None? {
        return;
      }
      var p := wm.value.proc;
      wm := None;
      if haveProc && IsSame(View(), p) {
        End(p, false, env.wmTerm, WM_POLLS);
      }
    }

    /** Stop the pidfile's Xvfb, when `/proc` or the nonce on its display vouches for it. */
    method EndXvfb(p: Proc, display: Option<nat>, nonce: Option<nat>, env: Env) returns (how: Stopped)
      modifies this
      ensures (View(), how) == Stop(old(View()), p, display, nonce, env)
    {
      if !ValidPid(p.pid) {
        return NotOurs;
      }
      if haveProc {
        if !IsXvfb(View(), p) {
          return NotOurs;
        }
        End(p, true, env.xvfbTerm, XVFB_POLLS);
        return Yes;
      }
      how := EndBlind(p, display, nonce, env);
    }

    /** SIGTERM, and polls of the display until it no longer answers. */
    method EndBlind(p: Proc, display: Option<nat>, nonce: Option<nat>, env: Env) returns (how: Stopped)
      modifies this
      ensures (View(), how) == StopBlind(old(View()), p, display, nonce, env)
    {
      if display.None? || nonce.None? || p.pid !in procs || env.probe(display.value) != Answered(nonce) {
        return NotOurs;
      }
      ghost var before := View();
      var term, halted := env.xvfbTerm, procs[p.pid].halted;
      Signal(Term, p.pid);
      Pause(p.pid, term, halted, 0);
      var n := 0;
      while !(term.Dies? && term.poll <= n && !halted) && !term.GoesMute? && n < BLIND_POLLS
        invariant n <= BLIND_POLLS
        invariant term.Dies? && term.poll <= n && !halted ==>
          View() == Vacate(Signalled(before, Term, p.pid), p.pid, term.heir)
        invariant !(term.Dies? && term.poll <= n && !halted) ==> View() == Signalled(before, Term, p.pid)
      {
        n := n + 1;
        Pause(p.pid, term, halted, n);
      }
      how := if (term.Dies? && term.poll <= n && !halted) || term.GoesMute? then Yes else StillAnswering;
    }

    /** The users still alive; the files of the others are removed. */
    method LiveUsers() returns (live: set<nat>)
      modifies this`users
      ensures View() == Pruned(old(View()))
      ensures live == users.Keys
    {
      ghost var before := View();
      var rest := users.Keys;
      live := {};
      while rest != {}
        invariant PartlyPruned(before, users, live, rest)
        decreases |rest|
      {
        var pid :| pid in rest;
        PruneOne(before, users, live, rest, pid);
        rest := rest - {pid};
        if IsSame(View(), Proc(pid, users[pid])) {
          live := live + {pid};
        } else {
          users := users - {pid};
        }
      }
      AllPruned(before, users);
    }

    method Join(me: nat, xvfb: Ident)
      modifies this
      ensures View() == AddUser(old(View()), me, xvfb)
    {
      users := users[me := StartOf(View(), me)];
      past := past.(got := past.got[Actual(View(), me) := xvfb]);
    }

    method TakeOver(xvfb: Ident)
      modifies this
      ensures View() == Adopt(old(View()), xvfb)
    {
      owner := Some(UpOwner);
      past := past.(upOwned := past.upOwned + {xvfb});
    }

    method DoReuse(who: Owner, p: Proc)
      modifies this
      ensures View() == Reuse(old(View()), who, p)
    {
      match who {
        case UpOwner => TakeOver(Actual(View(), p.pid));
        case McpOwner(me) =>
          Join(me, Actual(View(), p.pid));
          if StarterDead(View()) {
            owner := Some(who);
          }
      }
    }

    method DoStartWm(cmd: nat, env: Env) returns (ok: bool)
      modifies this
      ensures (View(), ok) == StartWm(old(View()), cmd, env)
    {
      if env.wmStart.None? {
        return false;
      }
      var pid := env.wmStart.value;
      past := past.(wms := past.wms + {Ident(pid, clock)});
      procs := procs[pid := Process(clock, OtherKind, false)];
      clock := clock + 1;
      wm := Some(Wm(cmd, Proc(pid, StartOf(View(), pid))));
      ok := true;
    }

    method DoRunWm(cmd: nat, env: Env) returns (ok: bool)
      modifies this
      ensures (View(), ok) == RunWm(old(View()), cmd, env)
    {
      if WmOf(View().dir).Some? && wm.value.cmd == cmd && IsSame(View(), wm.value.proc) {
        return true;
      }
      EndWm(env);
      ok := DoStartWm(cmd, env);
    }

    method DoApplyWm(want: WmWant, env: Env) returns (ok: bool)
      modifies this
      ensures (View(), ok) == ApplyWm(old(View()), want, env)
    {
      ok := true;
      match want {
        case Leave =>
        case NoWm => EndWm(env);
        case Auto =>
          if env.wmFound.Some? {
            ok := DoRunWm(env.wmFound.value, env);
          }
        case Run(cmd) => ok := DoRunWm(cmd, env);
      }
    }

    /** The new Xvfb, marked with its nonce and written down. */
    method Enrol(s: Spawned, who: Owner)
      modifies this
      ensures View() == Born(old(View()), s, who)
    {
      var me := Ident(s.pid, clock);
      procs := procs[s.pid := Process(clock, XvfbKind(s.display, Some(s.nonce)), false)];
      clock := clock + 1;
      past := past.(nonces := past.nonces[s.nonce := me], xvfbs := past.xvfbs + {me});
      env := Some(s.display);
      pidfile := Some(Proc(s.pid, StartOf(View(), s.pid)));
      nonce := Some(s.nonce);
      owner := Some(who);
    }

    method Spawn(who: Owner, want: WmWant, env: Env) returns (out: Outcome)
      modifies this
      ensures (View(), out) == StartXvfb(old(View()), who, want, env)
    {
      if env.spawn.None? || !env.spawn.value.marked {
        return Refused;
      }
      var s := env.spawn.value;
      var me := Ident(s.pid, clock);
      Enrol(s, who);
      match who {
        case UpOwner => TakeOver(me);
        case McpOwner(pid) => Join(pid, me);
      }
      var ok := DoApplyWm(want, env);
      out := if ok then Started(s.display, s.pid) else Refused;
    }

    method BringUp(args: UpArgs, want: WmWant, env: Env) returns (out: Outcome)
      modifies this
      ensures (View(), out) == UpFresh(old(View()), args, want, env)
    {
      if pidfile.None? && this.env.Some? && env.probe(this.env.value).Answered? {
        return if args.restart || Asks(args.wm) then Refused else Attached(this.env.value);
      }
      EndWm(env);
      ClearDir();
      out := Spawn(args.owner, want, env);
    }

    method Restart(args: UpArgs, display: nat, p: Proc, env: Env) returns (out: Outcome)
      modifies this
      ensures (View(), out) == UpRestart(old(View()), args, display, p, env)
    {
      var mark, want := nonce, WantAgain(View(), args.wm);
      EndWm(env);
      var how := EndXvfb(p, Some(display), mark, env);
      if how.StillAnswering? {
        return Refused;
      }
      ClearDir();
      out := BringUp(args, want, env);
    }

    method UpOnDisplay(args: UpArgs, d: nat, env: Env) returns (out: Outcome)
      modifies this
      ensures (View(), out) == UpDisplay(old(View()), args, d, env)
    {
      if args.restart || Asks(args.wm) {
        return Refused;
      }
      var seen := Check(View(), env.probe);
      if seen.Live? {
        if seen.display != d {
          return Refused;
        }
        DoReuse(args.owner, seen.proc);
        return Reused(d, seen.proc.pid);
      }
      if seen.Silent? || !env.probe(d).Answered? {
        return Refused;
      }
      ClearDir();
      this.env := Some(d);
      out := Attached(d);
    }

    method UpOnOwn(args: UpArgs, env: Env) returns (out: Outcome)
      modifies this
      ensures (View(), out) == UpOwn(old(View()), args, env)
    {
      var seen := Check(View(), env.probe);
      match seen {
        case Live(d, p) =>
          if args.restart {
            out := Restart(args, d, p, env);
          } else if env.mismatch {
            out := Refused;
          } else {
            DoReuse(args.owner, p);
            var ok := DoApplyWm(args.wm, env);
            out := if ok then Reused(d, p.pid) else Refused;
          }
        case Silent(_, p) =>
          if IsXvfb(View(), p) && procs[p.pid].halted {
            var _ := EndXvfb(p, None, None, env);
            out := BringUp(args, args.wm, env);
          } else {
            out := Refused;
          }
        case Gone => out := BringUp(args, args.wm, env);
      }
    }

    /** `xcua up`, and the auto-up of the other commands. */
    method Up(args: UpArgs, env: Env) returns (out: Outcome)
      modifies this
      ensures (View(), out) == UpSpec(old(View()), args, env)
    {
      if !env.locked {
        return Refused;
      }
      if args.display.Some? {
        out := UpOnDisplay(args, args.display.value, env);
      } else {
        out := UpOnOwn(args, env);
      }
    }

    /** `xcua down`. */
    method Down(env: Env)
      modifies this
      ensures View() == DownSpec(old(View()), env)
    {
      if !env.locked {
        return;
      }
      var mark := nonce;
      EndWm(env);
      if PidOf(View().dir).Some? {
        var how := EndXvfb(pidfile.value, this.env, mark, env);
        if how.StillAnswering? {
          return;
        }
      }
      ClearDir();
    }

    /** What an exiting mcp calls. */
    method Release(me: nat, env: Env)
      modifies this
      ensures View() == ReleaseSpec(old(View()), me, env)
    {
      if !env.locked {
        return;
      }
      past := past.(got := past.got - {Actual(View(), me)});
      users := users - {me};
      if PidOf(View().dir).None? || owner == Some(UpOwner) {
        return;
      }
      var live := LiveUsers();
      if live != {} {
        return;
      }
      EndWm(env);
      var how := EndXvfb(pidfile.value, this.env, nonce, env);
      if !how.StillAnswering? {
        ClearDir();
      }
    }
  }
}
