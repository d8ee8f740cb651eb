/** The machine an Xvfb's lifecycle plays on: processes with recycled pids, the X
    displays they serve, the state dir the xcua processes share, and the signals sent.
    `XvfbSpec` says what each locked operation makes of it, `Xvfb` carries it out. */
module XvfbWorld {
  import opened Wrappers

  /** A process that is never anyone else: pid and start time. */
  datatype Ident = Ident(pid: nat, start: nat)

  /** What the pidfile records; no start time where `/proc` is hidden. */
  datatype Proc = Proc(pid: nat, start: Option<nat>)

  datatype Kind =
    | XvfbKind(display: nat, nonce: Option<nat>)
    | OtherKind

  /** A live process; `halted` is state T in `/proc`. */
  datatype Process = Process(start: nat, kind: Kind, halted: bool)

  type Processes = map<nat, Process>

  datatype Owner = UpOwner | McpOwner(pid: nat)

  /** What a display says to a patient probe. */
  datatype Probe = Answered(nonce: Option<nat>) | Absent | Mute

  datatype Signal = Term | Kill

  /** A signal, and the process it reached. */
  datatype Sent = Sent(signal: Signal, reached: Ident)

  datatype Wm = Wm(cmd: nat, proc: Proc)

  /** The files of the state dir. `users` maps an mcp's pid to its recorded start. */
  datatype Dir = Dir(env: Option<nat>, pidfile: Option<Proc>, nonce: Option<nat>, owner: Option<Owner>,
                     users: map<nat, Option<nat>>, wm: Option<Wm>)

  const NO_DIR := Dir(None, None, None, None, map[], None)

  /** What xcua did so far, for stating properties: nonces handed out, servers and
      window managers started, servers `up` started or adopted, and the server each
      mcp last got from `up`. */
  datatype History = History(nonces: map<nat, Ident>, xvfbs: set<Ident>, wms: set<Ident>,
                             upOwned: set<Ident>, got: map<Ident, Ident>)

  datatype World = World(dir: Dir, procs: Processes, haveProc: bool, clock: nat, sent: seq<Sent>, past: History)

  /** Neither init nor a process group. */
  predicate ValidPid(pid: nat) {
    2 <= pid <= 0x7fff_ffff
  }

  predicate Lives(procs: Processes, i: Ident) {
    i.pid in procs && procs[i.pid].start == i.start
  }

  /** The process behind a pid now. */
  function Actual(w: World, pid: nat): Ident {
    Ident(pid, if pid in w.procs then w.procs[pid].start else 0)
  }

  /** The start time `/proc` shows for a pid. */
  function StartOf(w: World, pid: nat): Option<nat> {
    if w.haveProc && pid in w.procs then Some(w.procs[pid].start) else None
  }

  /** The process recorded is still there; without a start time any bearer of the pid will do. */
  predicate IsSame(w: World, p: Proc) {
    ValidPid(p.pid) && p.pid in w.procs && (p.start.None? || StartOf(w, p.pid) == p.start)
  }

  /** Alive, an Xvfb by its `comm`, and the same process. */
  predicate IsXvfb(w: World, p: Proc) {
    IsSame(w, p) && w.haveProc && w.procs[p.pid].kind.XvfbKind?
  }

  datatype Spawned = Spawned(pid: nat, display: nat, nonce: nat, marked: bool)

  /** How a process takes SIGTERM: it dies by some poll, and its pid may be taken over;
      or it goes on, with or without answering. */
  datatype AfterTerm = Dies(poll: nat, heir: Option<Kind>) | KeepsAnswering | GoesMute

  /** What the outside answers during one operation. */
  datatype Env = Env(locked: bool, probe: nat -> Probe, xvfbTerm: AfterTerm, wmTerm: AfterTerm, mismatch: bool,
                     spawn: Option<Spawned>, wmFound: Option<nat>, wmStart: Option<nat>)

  datatype WmWant = Leave | NoWm | Auto | Run(cmd: nat)

  datatype UpArgs = UpArgs(display: Option<nat>, owner: Owner, restart: bool, wm: WmWant)

  datatype Op = Up(args: UpArgs) | Release(me: nat) | Down

  // ---------- what the kernel, the X server and the caller guarantee ----------

  predicate KernelOk(procs: Processes, clock: nat) {
    0 < clock && forall p :: p in procs ==> procs[p].start < clock
  }

  predicate Foreign(kind: Kind, nonces: map<nat, Ident>) {
    kind.XvfbKind? && kind.nonce.Some? ==> kind.nonce.value !in nonces
  }

  /** A live Xvfb answers with its own nonce or is silent, and only its bearer answers
      with a nonce xcua made. */
  ghost predicate ProbesOk(procs: Processes, nonces: map<nat, Ident>, probe: nat -> Probe) {
    && (forall p :: p in procs && procs[p].kind.XvfbKind? ==>
          probe(procs[p].kind.display) in {Mute, Answered(procs[p].kind.nonce)})
    && (forall d :: probe(d).Answered? && probe(d).nonce.Some? && probe(d).nonce.value in nonces ==>
          exists p :: p in procs && procs[p].kind == XvfbKind(d, probe(d).nonce))
  }

  predicate HeirOk(w: World, env: Env, term: AfterTerm) {
    term.Dies? && term.heir.Some? ==>
      && Foreign(term.heir.value, w.past.nonces)
      && (env.spawn.Some? ==> term.heir.value.OtherKind? || term.heir.value.nonce != Some(env.spawn.value.nonce))
  }

  /** Spawned processes get free, signallable pids, and a nonce is never made twice. */
  predicate SpawnOk(w: World, env: Env) {
    && (env.spawn.Some? ==>
          var s := env.spawn.value;
          ValidPid(s.pid) && s.pid !in w.procs && s.nonce !in w.past.nonces)
    && (env.spawn.Some? ==>
          forall p :: p in w.procs ==> w.procs[p].kind.OtherKind? || w.procs[p].kind.nonce != Some(env.spawn.value.nonce))
    && (env.wmStart.Some? ==>
          && ValidPid(env.wmStart.value) && env.wmStart.value !in w.procs
          && (env.spawn.Some? ==> env.wmStart.value != env.spawn.value.pid))
  }

  /** The answers an operation can get in `w`; an mcp calling is alive. */
  ghost predicate EnvOk(w: World, op: Op, env: Env) {
    && ProbesOk(w.procs, w.past.nonces, env.probe) && SpawnOk(w, env)
    && HeirOk(w, env, env.xvfbTerm) && HeirOk(w, env, env.wmTerm)
    && (op.Up? && op.args.owner.McpOwner? ==> ValidPid(op.args.owner.pid) && op.args.owner.pid in w.procs)
    && (op.Release? ==> ValidPid(op.me) && op.me in w.procs)
  }

  /** Between operations: processes die, halt and continue, new ones are born on free
      pids. Nobody else writes the state dir or an xcua nonce. */
  ghost predicate Between(w: World, w': World) {
    && w'.dir == w.dir && w'.haveProc == w.haveProc && w'.sent == w.sent && w'.past == w.past
    && w.clock <= w'.clock && KernelOk(w'.procs, w'.clock)
    && (forall p :: p in w'.procs ==>
          || (p in w.procs && w'.procs[p].start == w.procs[p].start && w'.procs[p].kind == w.procs[p].kind)
          || (w.clock <= w'.procs[p].start && Foreign(w'.procs[p].kind, w.past.nonces)))
  }
}
