/** Which recorded processes count, and what an operation signals: SIGTERM first, SIGKILL only
    to what outlasts the wait, and none where it cannot be told whose process it is. */
module XvfbSignals {
  import opened Wrappers
  import opened XvfbWorld
  import opened XvfbSpec

  // ---------- what the files say ----------

  /** A pid other than 0 (one's own group), 1 (init) and those that turn negative. */
  lemma PidMeans(dir: Dir, p: Proc)
    ensures PidOf(dir) == Some(p) <==> dir.pidfile == Some(p) && 1 < p.pid < 0x8000_0000
    ensures forall wm :: WmOf(dir) == Some(wm) <==> dir.wm == Some(wm) && 1 < wm.proc.pid < 0x8000_0000
  {
  }

  /** With `/proc` a user is alive when its pid is, and is still who was recorded; without, only
      a user recorded without a start time can be told to be. */
  lemma UserMeans(w: World, pid: nat)
    ensures UserLives(w, pid) <==>
      && pid in w.dir.users && 1 < pid < 0x8000_0000 && pid in w.procs
      && (w.dir.users[pid] == None || (w.haveProc && w.dir.users[pid] == Some(w.procs[pid].start)))
  {
  }

  /** The server recorded at `d`, as what a probe of its display says. Without a recorded nonce
      the process stands in for it. */
  predicate Recorded(w: World, d: nat, p: Proc) {
    && w.dir.env == Some(d) && w.dir.pidfile == Some(p) && 1 < p.pid < 0x8000_0000
    && (w.dir.nonce == None ==> IsXvfb(w, p))
  }

  /** Live is what answers with the recorded nonce, or at all where none was; silent is what
      keeps quiet; anything else is gone. */
  lemma CheckMeans(w: World, probe: nat -> Probe, d: nat, p: Proc)
    ensures Check(w, probe) == Live(d, p) <==>
      Recorded(w, d, p) && probe(d).Answered? && (w.dir.nonce == None || probe(d).nonce == w.dir.nonce)
    ensures Check(w, probe) == Silent(d, p) <==> Recorded(w, d, p) && probe(d) == Mute
  {
  }

  // ---------- what is signalled ----------

  /** The process ends within so many polls after SIGTERM; a halted one does not. */
  predicate Heeds(w: World, pid: nat, term: AfterTerm, polls: nat)
    requires pid in w.procs
  {
    term.Dies? && term.poll <= polls && !w.procs[pid].halted
  }

  /** The process recorded with its start time. */
  predicate Known(w: World, p: Proc) {
    w.haveProc && 1 < p.pid < 0x8000_0000 && p.pid in w.procs && p.start == Some(w.procs[p.pid].start)
  }

  lemma TerminateSends(w: World, p: Proc, xvfb: bool, term: AfterTerm, polls: nat)
    requires Known(w, p) && KernelOk(w.procs, w.clock) && (xvfb ==> w.procs[p.pid].kind.XvfbKind?)
    ensures var after, it := Terminate(w, p, xvfb, term, polls), Ident(p.pid, w.procs[p.pid].start);
      && after.sent == w.sent + [Sent(Term, it)] + (if Heeds(w, p.pid, term, polls) then [] else [Sent(Kill, it)])
      && !Lives(after.procs, it)
      && forall q :: q in w.procs && q != p.pid ==> q in after.procs && after.procs[q] == w.procs[q]
  {
    var asked := Signalled(w, Term, p.pid);
    assert asked.procs == w.procs && Actual(asked, p.pid) == Ident(p.pid, w.procs[p.pid].start);
  }

  /** With `/proc` a stop sends SIGTERM to the Xvfb recorded, and SIGKILL if it is still there
      after 3 s (60 polls of 50 ms); it has ended then, and no other process has. */
  lemma StopSends(w: World, p: Proc, display: Option<nat>, nonce: Option<nat>, env: Env)
    requires Known(w, p) && KernelOk(w.procs, w.clock) && w.procs[p.pid].kind.XvfbKind?
    ensures var (after, how) := Stop(w, p, display, nonce, env);
      var it := Ident(p.pid, w.procs[p.pid].start);
      && how == Yes
      && after.sent == w.sent + [Sent(Term, it)] + (if Heeds(w, p.pid, env.xvfbTerm, 60) then [] else [Sent(Kill, it)])
      && !Lives(after.procs, it)
      && forall q :: q in w.procs && q != p.pid ==> q in after.procs && after.procs[q] == w.procs[q]
  {
    TerminateSends(w, p, true, env.xvfbTerm, XVFB_POLLS);
  }

  /** With `/proc` nothing is signalled that is not an Xvfb, or not the one recorded. */
  lemma StopSpares(w: World, p: Proc, display: Option<nat>, nonce: Option<nat>, env: Env)
    requires w.haveProc
    requires p.pid in w.procs ==> !w.procs[p.pid].kind.XvfbKind? || (p.start != None && p.start != Some(w.procs[p.pid].start))
    ensures Stop(w, p, display, nonce, env) == (w, NotOurs)
  {
  }

  /** Without `/proc` SIGTERM goes to a living pid whose display answers with the nonce, and
      to no other; SIGKILL to none. It counts as stopped when the display falls quiet within 5 s
      (50 polls of 100 ms). */
  lemma BlindSends(w: World, p: Proc, display: Option<nat>, nonce: Option<nat>, env: Env)
    requires !w.haveProc
    ensures var (after, how) := Stop(w, p, display, nonce, env);
      var known := 1 < p.pid < 0x8000_0000 && p.pid in w.procs && display != None && nonce != None
        && env.probe(display.value) == Answered(nonce);
      && (how == NotOurs <==> !known) && (how == NotOurs ==> after == w)
      && (known ==> after.sent == w.sent + [Sent(Term, Ident(p.pid, w.procs[p.pid].start))])
      && (how == StillAnswering <==> known && !Heeds(w, p.pid, env.xvfbTerm, 50) && env.xvfbTerm != GoesMute)
  {
  }

  /** With `/proc` a window manager that is still the one recorded gets SIGTERM, and SIGKILL
      after 2 s (40 polls of 50 ms). */
  lemma WmSends(w: World, env: Env)
    requires KernelOk(w.procs, w.clock) && w.dir.wm != None && Known(w, w.dir.wm.value.proc)
    ensures var p, after := w.dir.wm.value.proc, StopWm(w, env);
      var it := Ident(p.pid, w.procs[p.pid].start);
      && after.dir == w.dir.(wm := None)
      && after.sent == w.sent + [Sent(Term, it)] + (if Heeds(w, p.pid, env.wmTerm, 40) then [] else [Sent(Kill, it)])
      && !Lives(after.procs, it)
  {
    TerminateSends(w.(dir := w.dir.(wm := None)), w.dir.wm.value.proc, false, env.wmTerm, WM_POLLS);
  }

  /** It is only forgotten without `/proc`, and where it has gone. */
  lemma WmSpared(w: World, env: Env)
    requires w.dir.wm != None && 1 < w.dir.wm.value.proc.pid < 0x8000_0000
    requires var p := w.dir.wm.value.proc;
      !w.haveProc || p.pid !in w.procs || (p.start != None && p.start != Some(w.procs[p.pid].start))
    ensures StopWm(w, env) == w.(dir := w.dir.(wm := None))
  {
  }
}
