/** Requests over an X server that may die and come back at any moment: reads are retried
    on the new server, input never is. */
module Backend {
  import opened Wrappers

  /** The kinds of request. Input has a connection of its own, and only a read is safe to send twice. */
  datatype Kind = InputKind | ReadKind | RecordKind

  datatype Request =
    | Ping | Status | Displays | Screenshot | Cursor | SetLayout
    | RecordStart | RecordStop | RecordStatus
    | PointerMove | PointerButton | Click | Drag | Scroll | Key | KeyCombo | KeyHold | TypeText | Wake

  function KindOf(req: Request): Kind {
    match req
    case Ping | Status | Displays | Screenshot | Cursor | SetLayout => ReadKind
    case RecordStart | RecordStop | RecordStatus => RecordKind
    case _ => InputKind
  }

  /** Requests that move the pointer, or press or release a button or a key. */
  predicate Touches(req: Request) {
    || req.PointerMove? || req.PointerButton? || req.Click? || req.Drag? || req.Scroll?
    || req.Key? || req.KeyCombo? || req.KeyHold? || req.TypeText? || req.Wake?
  }

  /** Requests that change nothing at the server, and the one for a layout, which asks for
      the same thing however often it comes. */
  predicate Repeatable(req: Request) {
    req.Ping? || req.Status? || req.Displays? || req.Screenshot? || req.Cursor? || req.SetLayout?
  }

  lemma KindIs(req: Request)
    ensures KindOf(req).InputKind? <==> Touches(req)
    ensures KindOf(req).ReadKind? <==> Repeatable(req)
    ensures KindOf(req).RecordKind? <==> req.RecordStart? || req.RecordStop? || req.RecordStatus?
  {
  }

  /** `Restarted` tells the caller of a new server; `NotRepeated` of a new connection to
      the same one. */
  datatype Answer = Done | Restarted | NotRepeated | Failed

  /** One dispatch: the server generation of the connection it went to, and its success. */
  datatype Attempt = Attempt(req: Request, generation: nat, done: bool)

  /** An exchange with the outside: the hook that brings a display back, opening a
      connection, a round trip, a dispatch. */
  datatype Said = Revived(ok: bool) | Opened(conn: Option<nat>) | Asked(on: nat, answered: bool) | Sent(to: nat, req: Request, carried: bool)

  /** The server behind the display. Every start of it is a generation of its own, and
      before each exchange it may die and others may be started. */
  class Server {
    var generation: nat
    var up: bool
    var log: seq<Attempt>
    /** All exchanges so far. */
    ghost var said: seq<Said>

    constructor ()
      ensures log == []
    {
      generation, up, log, said := 0, false, [], [];
    }

    twostate predicate Moved()
      reads this
    {
      && old(generation) <= generation
      && (generation == old(generation) && up ==> old(up))
    }

    /** Anything: it dies, or others are started after it. */
    method Weather()
      modifies this`generation, this`up
      ensures Moved()
    {
      var restarts: int := *;
      var stays: bool := *;
      if restarts > 0 {
        generation := generation + restarts;
        up := stays;
      } else {
        up := up && stays;
      }
    }

    /** The re-up hook, which may start a server. */
    method Revive() returns (ok: bool)
      modifies this`generation, this`up, this`said
      ensures Moved() && said == old(said) + [Revived(ok)]
    {
      Weather();
      ok := *;
      said := said + [Revived(ok)];
    }

    /** A connection reaches one generation for its whole life. */
    method Open() returns (c: Option<nat>)
      modifies this`generation, this`up, this`said
      ensures Moved() && said == old(said) + [Opened(c)]
      ensures c == if up then Some(generation) else None
    {
      Weather();
      c := if up then Some(generation) else None;
      said := said + [Opened(c)];
    }

    /** A round trip on a connection; it may fail on a live server too. */
    method Answers(c: nat) returns (b: bool)
      modifies this`generation, this`up, this`said
      ensures Moved() && said == old(said) + [Asked(c, b)]
      ensures b ==> up && c == generation
    {
      Weather();
      var broken: bool := *;
      b := up && c == generation && !broken;
      said := said + [Asked(c, b)];
    }

    method Dispatch(c: nat, req: Request) returns (done: bool)
      modifies this
      ensures Moved() && said == old(said) + [Sent(c, req, done)]
      ensures log == old(log) + [Attempt(req, c, done)]
      ensures done ==> up && c == generation
    {
      Weather();
      var fails: bool := *;
      done := up && c == generation && !fails;
      log := log + [Attempt(req, c, done)];
      said := said + [Sent(c, req, done)];
    }
  }

  /** Both connections could be opened again. */
  predicate Reopened(said: seq<Said>) {
    && |said| >= 4 && said[0] == Revived(true)
    && said[1].Opened? && said[1].conn.Some? && said[2].Opened? && said[2].conn.Some?
  }

  /** The new capture connection answered to the token of before. */
  predicate SameServer(identity: Option<nat>, said: seq<Said>) {
    identity.Some? && |said| > 3 && said[3] == Asked(identity.value, true)
  }

  /** What is said in a reconnect, and whether it found the server of before; none if the
      hook or a connection failed. */
  predicate Reconnection(identity: Option<nat>, said: seq<Said>, same: Option<bool>) {
    if same.None? then
      || said == [Revived(false)]
      || said == [Revived(true), Opened(None)]
      || (|said| == 3 && said[0] == Revived(true) && said[1].Opened? && said[1].conn.Some? && said[2] == Opened(None))
    else
      && Reopened(said) && (same.value <==> SameServer(identity, said))
      && forall k :: 3 <= k < |said| ==> said[k].Asked?
  }

  /** What is said in a call that reaches the server on connection `conn`, and its answer. */
  predicate Reacted(req: Request, conn: nat, identity: Option<nat>, said: seq<Said>, answer: Answer) {
    && said != [] && said[0].Sent? && said[0].to == conn && said[0].req == req
    && if said[0].carried then |said| == 1 && answer.Done?
       else
         && |said| >= 2 && said[1].Asked? && said[1].on == conn
         && if said[1].answered then |said| == 2 && answer.Failed?
            else Recovered(req, identity, said[2..], answer)
  }

  /** A call that reconnected, and not surely to the server of before. */
  predicate NewServer(identity: Option<nat>, said: seq<Said>) {
    |said| > 2 && Reopened(said[2..]) && !SameServer(identity, said[2..])
  }

  /** What is said after a connection was found dead. */
  predicate Recovered(req: Request, identity: Option<nat>, said: seq<Said>, answer: Answer) {
    || (Reconnection(identity, said, None) && answer.Failed?)
    || (if Repeatable(req) then
          var n := |said| - 1;
          && n >= 0 && Reconnection(identity, said[..n], Some(SameServer(identity, said[..n])))
          && said[n].Sent? && said[n].req == req && Opened(Some(said[n].to)) == said[1]
          && answer == if said[n].carried then Done else Failed
        else
          && Reconnection(identity, said, Some(SameServer(identity, said)))
          && answer == if SameServer(identity, said) then NotRepeated else Restarted)
  }

  /** A call, the generation its caller had last been told of, and its part of the log. */
  datatype Served = Served(req: Request, told: nat, answer: Answer, from: nat, to: nat)

  /** What a call may have put in the log. */
  predicate CallOk(call: Served, log: seq<Attempt>) {
    && call.from <= call.to <= |log|
    && (forall k :: call.from <= k < call.to ==> log[k].req == call.req)
    && (forall k :: call.from <= k < call.to - 1 ==> !log[k].done)
    && (call.answer.Done? <==> call.from < call.to && log[call.to - 1].done)
    && call.to - call.from <= (if Repeatable(call.req) then 2 else 1)
    && (Touches(call.req) ==>
          forall k :: call.from <= k < call.to ==> log[k].generation == call.told)
  }

  /** The log is the calls' parts, one after the other, and what the caller was told only
      changes by being told. */
  predicate CallsOk(calls: seq<Served>, log: seq<Attempt>, told: nat) {
    if calls == [] then log == []
    else
      var last := calls[|calls| - 1];
      && CallOk(last, log) && last.to == |log|
      && (told != last.told ==> last.answer.Restarted?)
      && CallsOk(calls[..|calls| - 1], log[..last.from], last.told)
  }

  class XBackend {
    const server: Server
    /** The generations the two connections reach. */
    var capture: nat
    var input: nat
    /** The generation our connections were checked against, where a token could be had. */
    var identity: Option<nat>
    var restarted: bool
    /** The generation the caller was last told of, and all calls so far. */
    ghost var told: nat
    ghost var calls: seq<Served>

    /** A server the caller was not told of is flagged, and a token speaks for both
        connections. */
    ghost predicate Linked()
      reads this, server
    {
      && (restarted || input == told)
      && (identity.Some? ==> identity.value == input == capture)
      && input <= server.generation && capture <= server.generation
    }

    ghost predicate Valid()
      reads this, server
    {
      Linked() && CallsOk(calls, server.log, told)
    }

    constructor (server: Server, capture: nat, input: nat, identity: Option<nat>)
      requires capture <= input <= server.generation && server.log == []
      requires identity.Some? ==> identity.value == capture && server.generation == capture
      ensures Valid() && this.server == server && told == input
    {
      this.server, this.capture, this.input, this.identity := server, capture, input, identity;
      restarted, told, calls := false, input, [];
    }

    /** One dispatch on the connection the request uses. */
    method CallOnce(req: Request) returns (done: bool)
      modifies server
      ensures server.Moved() && server.said == old(server.said) + [Sent(if KindOf(req).InputKind? then input else capture, req, done)]
      ensures server.log == old(server.log) + [Attempt(req, if KindOf(req).InputKind? then input else capture, done)]
    {
      done := server.Dispatch(if KindOf(req).InputKind? then input else capture, req);
    }

    method Dead(kind: Kind) returns (dead: bool)
      modifies server`generation, server`up, server`said
      ensures server.Moved() && server.said == old(server.said) + [Asked(if kind.InputKind? then input else capture, !dead)]
    {
      var alive := server.Answers(if kind.InputKind? then input else capture);
      dead := !alive;
    }

    /** New connections, and whether they reach the server of before. On failure nothing
        is swapped in. */
    method Reconnect() returns (same: Option<bool>)
      requires Linked()
      modifies server`generation, server`up, server`said, this`capture, this`input, this`identity
      ensures old(server.said) <= server.said && Reconnection(old(identity), server.said[|old(server.said)|..], same)
      ensures same.Some? ==>
        server.said[|old(server.said)|..][1] == Opened(Some(capture)) && server.said[|old(server.said)|..][2] == Opened(Some(input))
      ensures server.Moved() && capture <= server.generation && input <= server.generation
      ensures identity.Some? ==> identity.value == input == capture
      ensures same != Some(false) ==> input == old(input)
      ensures same.None? ==> capture == old(capture) && identity == old(identity)
    {
      ghost var before := server.said;
      var ok := server.Revive();
      if !ok {
        SaidSince(before, [Revived(false)]);
        return None;
      }
      var cap := server.Open();
      if cap.None? {
        SaidSince(before, [Revived(true), Opened(None)]);
        return None;
      }
      var inp := server.Open();
      if inp.None? {
        SaidSince(before, [Revived(true), Opened(cap), Opened(None)]);
        return None;
      }
      ghost var asked;
      var known;
      known, asked := Identify(cap.value);
      same := Some(known);
      capture, input := cap.value, inp.value;
      SaidSince(before, [Revived(true), Opened(cap), Opened(inp)] + asked);
    }

    /** Whether a new connection reaches the server of before; if that cannot be told, the
        token of the one it reaches. */
    method Identify(cap: nat) returns (same: bool, ghost asked: seq<Said>)
      modifies server`generation, server`up, server`said, this`identity
      ensures server.Moved() && server.said == old(server.said) + asked
      ensures asked != [] && (forall k :: 0 <= k < |asked| ==> asked[k].Asked?)
      ensures same <==> old(identity).Some? && asked[0] == Asked(old(identity).value, true)
      ensures identity.Some? ==> identity.value == cap == server.generation
      ensures same ==> identity == old(identity) == Some(cap)
    {
      same, asked := false, [];
      if identity.Some? {
        var answers := server.Answers(cap);
        same := answers && identity.value == cap;
        asked := [Asked(cap, answers)];
      }
      if !same {
        var alive := server.Answers(cap);
        identity := if alive then Some(cap) else None;
        asked := asked + [Asked(cap, alive)];
      }
    }

    /** The request's connection died: reconnect, retry a read, report a new server. */
    method Recover(req: Request) returns (answer: Answer, ghost same: Option<bool>)
      requires Linked() && (Touches(req) ==> !restarted)
      modifies server, this`capture, this`input, this`identity, this`restarted, this`told
      ensures Linked()
      ensures server.log == old(server.log)
        || (Repeatable(req) && server.log == old(server.log) + [Attempt(req, capture, answer.Done?)])
      ensures answer.Done? ==> server.log != old(server.log)
      ensures answer.NotRepeated? ==> !Repeatable(req) && input == old(input)
      ensures answer.Failed? && !Repeatable(req) ==> input == old(input) && capture == old(capture)
      ensures answer.Restarted? ==> !Repeatable(req) && told == input
      ensures told != old(told) ==> answer.Restarted?
      ensures old(server.said) <= server.said && Recovered(req, old(identity), server.said[|old(server.said)|..], answer)
      ensures restarted == (old(restarted) || (Repeatable(req) && same == Some(false)))
      ensures same == Some(false) ==>
        Reopened(server.said[|old(server.said)|..]) && !SameServer(old(identity), server.said[|old(server.said)|..])
    {
      KindIs(req);
      ghost var before := server.said;
      same := None;
      var found := Reconnect();
      same := found;
      if found.None? {
        return Failed, same;
      }
      if KindOf(req).ReadKind? {
        if !found.value {
          restarted := true;
        }
        ghost var between := server.said[|before|..];
        var done := CallOnce(req);
        assert server.said[|before|..] == between + [Sent(capture, req, done)];
        return if done then Done else Failed, same;
      }
      if found.value {
        return NotRepeated, same;
      }
      told := input;
      answer := Restarted;
    }

    /** Dispatch, and recovery from a dead connection. */
    method Attend(req: Request) returns (answer: Answer, ghost same: Option<bool>)
      requires Linked() && (Touches(req) ==> !restarted)
      modifies server, this`capture, this`input, this`identity, this`restarted, this`told
      ensures Linked()
      ensures old(server.log) <= server.log
        && CallOk(Served(req, old(told), answer, |old(server.log)|, |server.log|), server.log)
      ensures answer.Restarted? ==> told == input
      ensures told != old(told) ==> answer.Restarted?
      ensures old(server.said) <= server.said
        && Reacted(req, if Touches(req) then old(input) else old(capture), old(identity), server.said[|old(server.said)|..], answer)
      ensures restarted == (old(restarted) || (Repeatable(req) && same == Some(false)))
      ensures same == Some(false) ==> NewServer(old(identity), server.said[|old(server.said)|..])
    {
      KindIs(req);
      ghost var before := server.said;
      same := None;
      var done := CallOnce(req);
      if done {
        return Done, same;
      }
      var dead := Dead(KindOf(req));
      ghost var asked := server.said;
      assert asked[|before|..] == [Sent(if Touches(req) then input else capture, req, false),
                                   Asked(if Touches(req) then input else capture, !dead)];
      if !dead {
        return Failed, same;
      }
      answer, same := Recover(req);
      assert server.said[|before|..][2..] == server.said[|asked|..];
    }

    /** One request, whatever the server does meanwhile. */
    method Call(req: Request) returns (answer: Answer)
      requires Valid()
      modifies this, server
      ensures Valid()
      ensures calls == old(calls) + [Served(req, old(told), answer, |old(server.log)|, |server.log|)]
      ensures old(server.log) <= server.log
      ensures told != old(told) ==> answer.Restarted?
      ensures answer.Restarted? ==> told == input
      ensures Touches(req) ==> !restarted
      ensures Touches(req) && old(restarted) ==> answer.Restarted? && server.log == old(server.log) && server.said == old(server.said)
      ensures !(Touches(req) && old(restarted)) ==>
        && old(server.said) <= server.said
        && Reacted(req, if Touches(req) then old(input) else old(capture), old(identity), server.said[|old(server.said)|..], answer)
        && (restarted ==> old(restarted) || (Repeatable(req) && NewServer(old(identity), server.said[|old(server.said)|..])))
    {
      KindIs(req);
      ghost var log, before := server.log, told;
      if KindOf(req).InputKind? && restarted {
        restarted := false;
        told := input;
        answer := Restarted;
      } else {
        ghost var same;
        answer, same := Attend(req);
      }
      ghost var call := Served(req, before, answer, |log|, |server.log|);
      CallsGrow(calls, log, before, call, server.log, told);
      calls := calls + [call];
    }
  }

  lemma SaidSince(before: seq<Said>, since: seq<Said>)
    ensures (before + since)[|before|..] == since
  {
  }

  lemma CallsGrow(calls: seq<Served>, log: seq<Attempt>, told: nat, call: Served, log': seq<Attempt>, told': nat)
    requires CallsOk(calls, log, told) && log <= log' && CallOk(call, log')
    requires call.from == |log| && call.to == |log'| && call.told == told
    requires told' != told ==> call.answer.Restarted?
    ensures CallsOk(calls + [call], log', told')
  {
    assert (calls + [call])[..|calls|] == calls && log'[..|log|] == log;
  }

  // ---------- what any run of calls shows ----------

  /** Which call an attempt belongs to. */
  predicate Owns(calls: seq<Served>, k: nat, n: nat) {
    k < |calls| && calls[k].from <= n < calls[k].to
  }

  lemma {:induction false} WithinLog(calls: seq<Served>, log: seq<Attempt>, told: nat, k: nat)
    requires CallsOk(calls, log, told) && k < |calls|
    ensures calls[k].to <= |log| && CallOk(calls[k], log)
  {
    var n := |calls| - 1;
    if k < n {
      var before := log[..calls[n].from];
      WithinLog(calls[..n], before, calls[n].told, k);
      assert forall m :: 0 <= m < |before| ==> before[m] == log[m];
    }
  }

  /** Every attempt belongs to exactly one call, and an input call's only attempt went to
      the server its caller was last told of. */
  lemma {:induction false} InputIsNeverReplayed(calls: seq<Served>, log: seq<Attempt>, told: nat, n: nat) returns (k: nat)
    requires CallsOk(calls, log, told) && n < |log|
    ensures Owns(calls, k, n) && calls[k].req == log[n].req
    ensures forall j: nat :: Owns(calls, j, n) ==> j == k
    ensures Touches(log[n].req) ==> calls[k].to == calls[k].from + 1 && log[n].generation == calls[k].told
    ensures calls[k].from <= calls[k].to <= calls[k].from + 2
    ensures calls[k].to == calls[k].from + 2 ==> log[n].req in {Ping, Status, Displays, Screenshot, Cursor, SetLayout}
  {
    var last := |calls| - 1;
    if calls[last].from <= n {
      k := last;
      forall j: nat | Owns(calls, j, n) ensures j == k {
        if j < k {
          WithinLog(calls[..last], log[..calls[last].from], calls[last].told, j);
        }
      }
    } else {
      k := InputIsNeverReplayed(calls[..last], log[..calls[last].from], calls[last].told, n);
      forall j: nat | Owns(calls, j, n) ensures j == k {
        assert j < last ==> Owns(calls[..last], j, n);
      }
    }
  }

  /** Each exchange of a call follows from a failure before it: the request fails, its
      connection is dead, the hook brings a display back, and both connections are opened. */
  lemma StepByStep(req: Request, conn: nat, identity: Option<nat>, said: seq<Said>, answer: Answer)
    requires Reacted(req, conn, identity, said, answer)
    ensures said != [] && said[0] == Sent(conn, req, answer.Done? && |said| == 1)
    ensures |said| >= 2 ==> said[1] == Asked(conn, |said| == 2)
    ensures |said| >= 3 ==> said[2].Revived? && (said[2].ok <==> |said| > 3)
    ensures |said| >= 4 ==> said[3].Opened? && (said[3].conn != None <==> |said| > 4)
    ensures |said| >= 5 ==> said[4].Opened? && (said[4].conn != None <==> |said| > 5)
  {
    var rest := said[if |said| < 2 then |said| else 2..];
    assert forall k :: 2 <= k < |said| ==> said[k] == rest[k - 2];
  }

  /** A read whose connection died is sent again once both connections are open again, and
      its answer is that of the second attempt. */
  lemma ReadIsRetried(req: Request, conn: nat, identity: Option<nat>, said: seq<Said>, answer: Answer, c: nat, i: nat)
    requires Reacted(req, conn, identity, said, answer) && req in {Ping, Status, Displays, Screenshot, Cursor, SetLayout}
    requires |said| >= 5 && said[..5] == [Sent(conn, req, false), Asked(conn, false), Revived(true), Opened(Some(c)), Opened(Some(i))]
    ensures var last := said[|said| - 1];
      last == Sent(c, req, last.Sent? && last.carried) && (answer.Done? <==> last == Sent(c, req, true))
  {
    var rest := said[2..];
    assert rest[0] == said[2] && rest[1] == said[3] && rest[2] == said[4] && rest[|rest| - 1] == said[|said| - 1];
  }

  /** Any other request is not: its caller is told of a new server, or that it was not
      repeated on the one of before, which answered to its token. */
  lemma NotRetried(req: Request, conn: nat, identity: Option<nat>, said: seq<Said>, answer: Answer, c: nat, i: nat)
    requires Reacted(req, conn, identity, said, answer) && !Repeatable(req)
    requires |said| >= 5 && said[..5] == [Sent(conn, req, false), Asked(conn, false), Revived(true), Opened(Some(c)), Opened(Some(i))]
    ensures |said| > 5 && (answer.NotRepeated? <==> identity.Some? && said[5] == Asked(identity.value, true))
    ensures answer.NotRepeated? || answer.Restarted?
    ensures forall k :: 0 < k < |said| ==> !said[k].Sent?
  {
    var rest := said[2..];
    assert rest[0] == said[2] && rest[1] == said[3] && rest[2] == said[4];
    assert forall k :: 2 <= k < |said| ==> said[k] == rest[k - 2];
  }

  /** A failure is answered only by a server that can be reached, or when none can. */
  lemma FailsOnly(req: Request, conn: nat, identity: Option<nat>, said: seq<Said>, answer: Answer)
    requires Reacted(req, conn, identity, said, answer) && answer.Failed?
    ensures |said| > 1
    ensures var last := said[|said| - 1];
      last in {Asked(conn, true), Revived(false), Opened(None)} || (Repeatable(req) && last.Sent? && !last.carried)
  {
    var rest := said[2..];
    assert |rest| > 0 ==> rest[|rest| - 1] == said[|said| - 1];
  }

  /** Input carried out by two servers has a report of the restart in between. */
  lemma RestartIsReported(calls: seq<Served>, log: seq<Attempt>, told: nat, j: nat, k: nat) returns (i: nat)
    requires CallsOk(calls, log, told) && j < k < |calls|
    requires Touches(calls[j].req) && calls[j].answer.Done?
    requires Touches(calls[k].req) && calls[k].answer.Done?
    requires calls[j].from < |log| && calls[k].from < |log|
    requires log[calls[j].from].generation != log[calls[k].from].generation
    ensures j < i < k && calls[i].answer.Restarted?
  {
    WithinLog(calls, log, told, j);
    WithinLog(calls, log, told, k);
    i := ToldAnew(calls, log, told, j, k);
  }

  lemma {:induction false} ToldAnew(calls: seq<Served>, log: seq<Attempt>, told: nat, j: nat, k: nat) returns (i: nat)
    requires CallsOk(calls, log, told) && j < k <= |calls|
    requires calls[j].told != if k == |calls| then told else calls[k].told
    ensures j <= i < k && calls[i].answer.Restarted?
    decreases |calls|, k
  {
    var last := |calls| - 1;
    if k == |calls| {
      if told != calls[last].told {
        i := last;
      } else {
        i := ToldAnew(calls, log, told, j, last);
      }
    } else {
      i := ToldAnew(calls[..last], log[..calls[last].from], calls[last].told, j, k);
    }
  }

  /** `XBackend::open`: a token is only made while the capture connection answers. */
  method Connect(server: Server) returns (x: Option<XBackend>)
    requires server.log == []
    modifies server`generation, server`up, server`said
    ensures x.Some? ==> x.value.Valid() && x.value.server == server && fresh(x.value)
  {
    var cap := server.Open();
    if cap.None? {
      return None;
    }
    var inp := server.Open();
    if inp.None? {
      return None;
    }
    var alive := server.Answers(cap.value);
    var b := new XBackend(server, cap.value, inp.value, if alive then cap else None);
    x := Some(b);
  }
}
