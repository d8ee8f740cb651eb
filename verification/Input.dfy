/** Input through XTEST: typing, chords, clicks, drags, scrolls. The class follows the
    source's `Input`; ghost parameters name the keyboard map a request started from
    (`base`) and what the request may touch (`g`). */
module Input {
  import opened Wrappers
  import opened Keysym
  import opened XServer
  import opened Requests
  import opened Sent

  class Input {
    const server: Server
    ghost const kb: Keyboard
    /** The keycodes this side has borrowed. */
    var borrowed: seq<nat>
    /** Our share of what is down. */
    var downKeys: set<nat>
    var downButtons: set<nat>

    constructor (server: Server, ghost kb: Keyboard)
      ensures this.server == server && this.kb == kb
      ensures borrowed == [] && downKeys == {} && downButtons == {}
    {
      this.server, this.kb := server, kb;
      borrowed, downKeys, downButtons := [], {}, {};
    }

    /** The live map is `base` except for the rows of the borrowed keycodes. */
    ghost predicate Borrowing(base: KeyMap)
      reads this, server
    {
      && base.Valid() && server.keymap.Valid()
      && server.keymap.min == base.min && server.keymap.max == base.max
      && (forall j :: 0 <= j < |borrowed| ==> base.IsSpare(borrowed[j]))
      && (server.alive ==> DiffersOnlyOn(base, server.keymap, borrowed))
    }

    /** Our books agree with the server, and only what the request may touch moved. */
    ghost predicate Within(g: Scope)
      reads this, server
    {
      && g.downKeys <= g.keys && g.downButtons <= g.buttons
      && downKeys <= g.downKeys + g.usedKeys && downButtons <= g.downButtons + g.usedButtons
      && (server.alive ==>
            && downKeys <= server.keys <= g.keys + downKeys
            && downButtons <= server.buttons <= g.buttons + downButtons
            && g.keys - g.usedKeys <= server.keys
            && g.buttons - g.usedButtons <= server.buttons)
    }

    /** Sleep, unless the cancel flag goes up. */
    method Pause() returns (ok: bool)
      modifies server`faults
      ensures ok ==> server.faults == old(server.faults)
      ensures !ok ==> old(server.faults) < server.faults
    {
      ok := *;
      if !ok { server.faults := server.faults + 1; }
    }

    method KeyCode(kc: nat, down: bool, ghost g: Scope) returns (ok: bool)
      requires Within(g) && kc in g.usedKeys
      modifies this`downKeys, server`keys, server`buttons, server`events, server`alive, server`faults
      ensures Within(g)
      ensures server.alive ==> old(server.alive)
      ensures ok ==>
                && server.alive && server.faults == old(server.faults)
                && server.keys == KeysAfter(old(server.keys), KeyMsg(kc, down))
                && server.buttons == old(server.buttons)
                && server.events == old(server.events) + [Event(KeyMsg(kc, down), server.keymap, old(server.keys))]
      ensures !ok ==> old(server.faults) < server.faults
      ensures !ok && server.alive ==>
                down && server.keys == old(server.keys) && server.buttons == old(server.buttons) && server.events == old(server.events)
      ensures downKeys == if !ok then old(downKeys) else if down then old(downKeys) + {kc} else old(downKeys) - {kc}
      ensures ok ==> Msgs(server.events) == Msgs(old(server.events)) + [KeyMsg(kc, down)]
      ensures ok && (!down || kc in kb.mods) ==> Typed(server.events, kb) == Typed(old(server.events), kb)
      ensures ok && down && kc !in kb.mods && old(server.keys) * kb.mods <= kb.shifts ==>
                Typed(server.events, kb) == Typed(old(server.events), kb)
                  + [Decode(server.keymap, kc, old(server.keys) * kb.shifts != {}, kb.cases)]
    {
      ok := server.Fake(KeyMsg(kc, down));
      if ok {
        MsgsAppend(old(server.events), Event(KeyMsg(kc, down), server.keymap, old(server.keys)));
        TypedAppend(old(server.events), Event(KeyMsg(kc, down), server.keymap, old(server.keys)), kb);
        downKeys := if down then downKeys + {kc} else downKeys - {kc};
      }
    }

    method Press(button: nat, down: bool, ghost g: Scope) returns (ok: bool)
      requires Within(g) && button in g.usedButtons
      modifies this`downButtons, server`keys, server`buttons, server`events, server`alive, server`faults
      ensures Within(g)
      ensures server.alive ==> old(server.alive)
      ensures ok ==>
                && server.alive && server.faults == old(server.faults)
                && server.keys == old(server.keys)
                && server.buttons == ButtonsAfter(old(server.buttons), ButtonMsg(button, down))
                && Msgs(server.events) == Msgs(old(server.events)) + [ButtonMsg(button, down)]
      ensures !ok ==> old(server.faults) < server.faults
      ensures !ok && server.alive ==>
                down && server.keys == old(server.keys) && server.buttons == old(server.buttons) && server.events == old(server.events)
      ensures downButtons == if !ok then old(downButtons) else if down then old(downButtons) + {button} else old(downButtons) - {button}
    {
      ok := server.Fake(ButtonMsg(button, down));
      if ok {
        MsgsAppend(old(server.events), Event(ButtonMsg(button, down), server.keymap, old(server.keys)));
        downButtons := if down then downButtons + {button} else downButtons - {button};
      }
    }

    method MoveTo(x: int, y: int, ghost g: Scope) returns (r: Outcome)
      requires Within(g)
      modifies server`keys, server`buttons, server`events, server`alive, server`faults
      ensures Within(g)
      ensures server.alive ==> old(server.alive) && server.keys == old(server.keys) && server.buttons == old(server.buttons)
      ensures old(server.faults) <= server.faults
      ensures r.Done? ==>
                && server.alive && server.faults == old(server.faults) && 0 < server.width && 0 < server.height
                && Msgs(server.events) == Msgs(old(server.events)) + [MotionTo(x, y, server.width, server.height)]
      ensures IsFault(r) ==> old(server.faults) < server.faults
      ensures r.Failed? && !IsFault(r) ==> r == Failed(NoScreen) && (server.width == 0 || server.height == 0)
    {
      var size := server.RootSize();
      if size.None? {
        return Failed(if server.width == 0 || server.height == 0 then NoScreen else Io);
      }
      var ok := server.Fake(MotionTo(x, y, size.value.0, size.value.1));
      if ok { MsgsAppend(old(server.events), Event(MotionTo(x, y, server.width, server.height), server.keymap, old(server.keys))); }
      r := if ok then Done else Failed(Io);
    }

    // ---------- spare keycodes ----------

    /** A key for every symbol, the unmapped ones on borrowed keycodes. */
    method Bind(ghost base: KeyMap, syms: seq<nat>) returns (r: Result<map<nat, Key>, Error>)
      requires Borrowing(base) && borrowed == []
      modifies this`borrowed, server`keymap, server`alive, server`faults
      ensures Borrowing(base)
      ensures server.alive ==> old(server.alive)
      ensures old(server.faults) <= server.faults
      ensures r.Ok? ==> server.alive && server.faults == old(server.faults) && IsBinding(base, syms, r.value)
      ensures r.Ok? ==> borrowed == base.Spare()[..|Missing(base, syms)|]
      ensures r.Ok? ==> Carries(server.keymap, borrowed, Missing(base, syms))
      ensures r.Err? ==> (r.error == Io && old(server.faults) < server.faults)
                         || (r.error == NoRoom(|Missing(base, syms)|, |base.Spare()|) && |base.Spare()| < |Missing(base, syms)|)
      ensures r.Ok? ==> |Missing(base, syms)| <= |base.Spare()|
    {
      var keymap := server.GetKeymap();
      if keymap.None? { return Err(Io); }
      var m := keymap.value;
      SameMap(base, m, syms);
      var codes, missing := Resolve(m, syms);
      var spare := m.Spare();
      if |spare| < |missing| { return Err(NoRoom(|missing|, |spare|)); }
      CodesDone(base, syms, codes, base.Spare());
      if missing == [] { return Ok(codes); }
      assert forall i :: 0 <= i < |spare| ==> spare[i] in spare;
      assert base.IsSpare(spare[0]) && 0 < base.per;
      var ok := BindRows(base, Max(m.per, 2), missing, spare);
      if !ok { return Err(Io); }
      codes := AddCodes(codes, missing, spare);
      r := Ok(codes);
    }

    /** The binding loop: the same symbol unshifted and shifted on each spare keycode. */
    method BindRows(ghost base: KeyMap, per: nat, missing: seq<nat>, spare: seq<nat>) returns (ok: bool)
      requires Borrowing(base) && borrowed == [] && server.alive
      requires |missing| <= |spare| && per == Max(base.per, 2)
      requires forall i :: 0 <= i < |spare| ==> base.IsSpare(spare[i])
      requires forall i, j :: 0 <= i < j < |spare| ==> spare[i] != spare[j]
      modifies this`borrowed, server`keymap, server`alive, server`faults
      ensures Borrowing(base)
      ensures server.alive ==> old(server.alive)
      ensures ok ==> server.alive && server.faults == old(server.faults)
      ensures ok ==> borrowed == spare[..|missing|] && Carries(server.keymap, borrowed, missing)
      ensures !ok ==> old(server.faults) < server.faults
    {
      var i := 0;
      while i < |missing|
        invariant 0 <= i <= |missing|
        invariant server.alive && server.faults == old(server.faults)
        invariant borrowed == spare[..i]
        invariant Borrowing(base) && Carries(server.keymap, borrowed, missing)
      {
        assert spare[..i + 1] == spare[..i] + [spare[i]];
        ok := BindOne(base, missing, spare[i], per);
        if !ok { return; }
        i := i + 1;
      }
      ok := true;
    }

    /** One spare keycode for the next missing symbol. */
    method BindOne(ghost base: KeyMap, missing: seq<nat>, kc: nat, per: nat) returns (ok: bool)
      requires Borrowing(base) && server.alive && Carries(server.keymap, borrowed, missing) && |borrowed| < |missing|
      requires base.IsSpare(kc) && per == Max(base.per, 2) && forall j :: 0 <= j < |borrowed| ==> borrowed[j] != kc
      modifies this`borrowed, server`keymap, server`alive, server`faults
      ensures Borrowing(base)
      ensures server.alive ==> old(server.alive)
      ensures ok ==> server.alive && server.faults == old(server.faults)
      ensures ok ==> borrowed == old(borrowed) + [kc] && Carries(server.keymap, borrowed, missing)
      ensures !ok ==> old(server.faults) < server.faults
    {
      ok := server.ChangeRow(kc, BoundRow(missing[|borrowed|], per), false);
      if ok {
        BorrowOne(base, old(server.keymap), server.keymap, borrowed, missing, kc, per);
        borrowed := borrowed + [kc];
      }
    }

    /** Blank one row; the rest of the list stays borrowed. */
    method BlankOne(ghost base: KeyMap, ghost todo: seq<nat>, kc: nat, per: nat)
      requires base.Valid() && server.keymap.Valid() && server.keymap.min == base.min && server.keymap.max == base.max
      requires todo != [] && todo[0] == kc && base.IsSpare(kc)
      requires server.alive ==> DiffersOnlyOn(base, server.keymap, todo)
      requires 2 <= per && (server.alive && 2 < per ==> per == server.keymap.per)
      modifies server`keymap, server`alive, server`faults
      ensures server.keymap.Valid() && server.keymap.min == base.min && server.keymap.max == base.max
      ensures server.alive ==> old(server.alive)
      ensures old(server.faults) <= server.faults
      ensures server.alive ==> DiffersOnlyOn(base, server.keymap, todo[1..])
      ensures server.alive && 2 < per ==> per == server.keymap.per
    {
      ghost var before := server.keymap;
      var ok := server.ChangeRow(kc, seq(per, _ => NO_SYMBOL), true);
      if server.alive {
        GiveBackOne(base, before, server.keymap, todo, per);
      }
    }

    /** Blank the rows of all borrowed keycodes. */
    method Unbind(ghost base: KeyMap)
      requires Borrowing(base)
      modifies this`borrowed, server`keymap, server`alive, server`faults
      ensures Borrowing(base) && borrowed == []
      ensures server.alive ==> old(server.alive)
      ensures old(server.faults) <= server.faults
      ensures server.alive && 0 == |old(borrowed)| ==> server.faults == old(server.faults)
    {
      if borrowed == [] { return; }
      assert base.IsSpare(borrowed[0]) && 0 < base.per;
      var keymap := server.GetKeymap();
      var per := if keymap.Some? && 2 < keymap.value.per then keymap.value.per else 2;
      var todo := borrowed;
      borrowed := [];
      var i := 0;
      while i < |todo|
        invariant 0 <= i <= |todo| && borrowed == []
        invariant forall j :: 0 <= j < |todo| ==> base.IsSpare(todo[j])
        invariant server.alive ==> old(server.alive)
        invariant old(server.faults) <= server.faults
        invariant server.keymap.Valid() && server.keymap.min == base.min && server.keymap.max == base.max
        invariant server.alive ==> DiffersOnlyOn(base, server.keymap, todo[i..])
        invariant server.alive && 2 < per ==> per == server.keymap.per
      {
        BlankOne(base, todo[i..], todo[i], per);
        assert todo[i..][1..] == todo[i + 1..];
        i := i + 1;
      }
      var ok := server.RoundTrip();
    }

    // ---------- typing ----------

    method Stroke(kc: nat, ghost g: Scope) returns (ok: bool)
      requires Within(g) && kc in g.usedKeys && (g.sane ==> kb.shifts <= kb.mods && kc !in kb.mods)
      requires server.alive && g.sane ==> server.keys * kb.mods <= kb.shifts
      modifies this`downKeys, server`keys, server`buttons, server`events, server`alive, server`faults
      ensures Within(g)
      ensures server.alive ==>
                old(server.alive)
                && (server.keys == old(server.keys) || server.keys == old(server.keys) - {kc})
      ensures if ok then server.faults == old(server.faults) else old(server.faults) < server.faults
      ensures ok ==>
                && server.alive
                && (g.sane ==>
                      Typed(server.events, kb) == Typed(old(server.events), kb)
                        + [Decode(server.keymap, kc, old(server.keys) * kb.shifts != {}, kb.cases)])
    {
      ok := KeyCode(kc, true, g);
      if ok { ok := KeyCode(kc, false, g); }
    }

    /** Press and release one key, under Shift when its symbol is the shifted one. */
    method TypeOne(key: Key, shift: Option<nat>, ghost g: Scope) returns (r: Outcome)
      requires Within(g) && key.kc in g.usedKeys && (shift.Some? ==> shift.value in g.usedKeys)
      requires g.sane ==> kb.shifts <= kb.mods && key.kc !in kb.mods && (shift.Some? ==> shift.value in kb.shifts)
      requires server.alive && g.sane ==> server.keys * kb.mods == {}
      modifies this`downKeys, server`keys, server`buttons, server`events, server`alive, server`faults
      ensures Within(g)
      ensures server.alive ==> old(server.alive) && server.keys <= old(server.keys)
      ensures old(server.faults) <= server.faults
      ensures r.Done? && server.alive && g.sane ==>
                Typed(server.events, kb) == Typed(old(server.events), kb) + [Decode(server.keymap, key.kc, key.shift, kb.cases)]
      ensures IsFault(r) ==> old(server.faults) < server.faults
      ensures r.Failed? && !IsFault(r) ==> r == Failed(NoShift) && key.shift && shift.None?
    {
      if key.shift {
        if shift.None? { return Failed(NoShift); }
        var down := KeyCode(shift.value, true, g);
        if !down { return Failed(Io); }
        assert g.sane ==> shift.value in server.keys * kb.shifts;
      } else {
        assert server.alive && g.sane ==> server.keys * kb.shifts <= server.keys * kb.mods;
      }
      var ok := Stroke(key.kc, g);
      if key.shift {
        var up := KeyCode(shift.value, false, g);
      }
      if !ok { return Failed(Io); }
      ok := Pause();
      r := if ok then Done else Failed(Cancelled);
    }

    /** Type symbols whose missing ones fit the spare keycodes; the caller unbinds. */
    method TypeChunk(ghost base: KeyMap, syms: seq<nat>, shift: Option<nat>, ghost g: Scope) returns (r: Outcome)
      requires Within(g) && Borrowing(base) && borrowed == [] && (g.sane ==> WellFormed(base, kb))
      requires forall s :: s in syms ==> IsTextSym(s)
      requires KeysOf(base, syms) <= g.usedKeys && shift == ShiftCode(base) && (shift.Some? ==> shift.value in g.usedKeys)
      requires server.alive && g.sane ==> server.keys * kb.mods == {}
      modifies this`borrowed, this`downKeys, server
      ensures Within(g) && Borrowing(base)
      ensures server.alive ==> old(server.alive) && server.keys <= old(server.keys)
      ensures old(server.faults) <= server.faults
      ensures r.Done? ==> server.alive
      ensures r.Done? && g.sane ==> Typed(server.events, kb) == Typed(old(server.events), kb) + ProducedAll(base, syms, kb.cases)
      ensures IsFault(r) ==> old(server.faults) < server.faults
      ensures r.Failed? && !IsFault(r) ==>
                || (r == Failed(NoRoom(|Missing(base, syms)|, |base.Spare()|)) && |base.Spare()| < |Missing(base, syms)|)
                || (r == Failed(NoShift) && shift.None?)
    {
      var bound := BindText(base, syms, g);
      match bound
      case Err(e) => r := Failed(e);
      case Ok(codes) =>
        r := TypeKeys(base, syms, codes, shift, g);
        if r.Done? {
          var ok := server.RoundTrip();
          if !ok { r := Failed(Io); }
        }
    }

    /** `Bind`, and what it makes of the keys of a text. */
    method BindText(ghost base: KeyMap, syms: seq<nat>, ghost g: Scope) returns (r: Result<map<nat, Key>, Error>)
      requires Borrowing(base) && borrowed == [] && (g.sane ==> WellFormed(base, kb))
      requires (forall s :: s in syms ==> IsTextSym(s)) && KeysOf(base, syms) <= g.usedKeys
      modifies this`borrowed, server`keymap, server`alive, server`faults
      ensures Borrowing(base)
      ensures server.alive ==> old(server.alive)
      ensures old(server.faults) <= server.faults
      ensures r.Ok? ==> server.alive && AllReady(base, server.keymap, r.value, syms, g, kb)
      ensures r.Err? ==> (r.error == Io && old(server.faults) < server.faults)
                         || (r.error == NoRoom(|Missing(base, syms)|, |base.Spare()|) && |base.Spare()| < |Missing(base, syms)|)
    {
      r := Bind(base, syms);
      if r.Ok? { BoundReady(base, server.keymap, borrowed, syms, r.value, g, kb); }
    }

    /** The strokes of a chunk, on the map as it was bound. */
    method TypeKeys(ghost base: KeyMap, syms: seq<nat>, codes: map<nat, Key>, shift: Option<nat>, ghost g: Scope) returns (r: Outcome)
      requires Within(g) && server.alive && AllReady(base, server.keymap, codes, syms, g, kb)
      requires g.sane ==> kb.shifts <= kb.mods && (shift.Some? ==> shift.value in kb.shifts)
      requires shift.Some? ==> shift.value in g.usedKeys
      requires g.sane ==> server.keys * kb.mods == {}
      modifies this`downKeys, server`keys, server`buttons, server`events, server`alive, server`faults
      ensures Within(g)
      ensures server.alive ==> server.keys <= old(server.keys)
      ensures old(server.faults) <= server.faults
      ensures r.Done? && server.alive && g.sane ==>
                Typed(server.events, kb) == Typed(old(server.events), kb) + ProducedAll(base, syms, kb.cases)
      ensures IsFault(r) ==> old(server.faults) < server.faults
      ensures r.Failed? && !IsFault(r) ==> r == Failed(NoShift) && shift.None?
    {
      var i := 0;
      while i < |syms|
        invariant 0 <= i <= |syms|
        invariant Within(g)
        invariant server.alive ==> server.keys <= old(server.keys)
        invariant old(server.faults) <= server.faults
        invariant server.alive && g.sane ==>
                    Typed(server.events, kb) == Typed(old(server.events), kb) + ProducedAll(base, syms[..i], kb.cases)
      {
        assert KeyReady(base, server.keymap, codes[syms[i]], syms[i], g, kb);
        assert syms[..i + 1] == syms[..i] + [syms[i]];
        ProducedAppend(base, syms[..i], [syms[i]], kb.cases);
        r := TypeOne(codes[syms[i]], shift, g);
        if r.Failed? { return; }
        i := i + 1;
      }
      assert syms[..i] == syms;
      r := Done;
    }

    /** One round of the chunk loop: type, give the keycodes back, then report. */
    method TypeOneChunk(ghost base: KeyMap, syms: seq<nat>, start: nat, end: nat, shift: Option<nat>,
                        ghost before: seq<nat>, ghost g: Scope) returns (r: Outcome)
      requires Within(g) && Borrowing(base) && borrowed == [] && (g.sane ==> WellFormed(base, kb))
      requires start < end <= |syms|
      requires g.sane ==> Typed(server.events, kb) == before + ProducedAll(base, syms[..start], kb.cases)
      requires (forall s :: s in syms ==> IsTextSym(s))
      requires KeysOf(base, syms) <= g.usedKeys && shift == ShiftCode(base) && (shift.Some? ==> shift.value in g.usedKeys)
      requires |MissingIn(base, syms, start, end)| <= Max(|base.Spare()|, 1)
      requires server.alive && g.sane ==> server.keys * kb.mods == {}
      modifies this`borrowed, this`downKeys, server
      ensures Within(g) && Borrowing(base) && borrowed == []
      ensures server.alive ==> old(server.alive) && server.keys <= old(server.keys)
      ensures old(server.faults) <= server.faults
      ensures r.Done? && g.sane ==> Typed(server.events, kb) == before + ProducedAll(base, syms[..end], kb.cases)
      ensures IsFault(r) ==> old(server.faults) < server.faults
      ensures r.Failed? && !IsFault(r) ==>
                || (r.error.NoRoom? && base.Spare() == [] && exists s :: s in syms && base.KeyFor(s).None?)
                || (r == Failed(NoShift) && shift.None?)
    {
      ChunkFacts(base, syms, start, end, before, kb.cases);
      r := TypeChunk(base, syms[start..end], shift, g);
      Unbind(base);
    }

    /** Any text, in chunks whose unmapped symbols fit the spare keycodes. */
    method TypeText(ghost base: KeyMap, text: string, ghost g: Scope) returns (r: Outcome)
      requires Within(g) && Borrowing(base) && borrowed == [] && (g.sane ==> WellFormed(base, kb))
      requires KeysOf(base, TextSyms(text)) <= g.usedKeys && (ShiftCode(base).Some? ==> ShiftCode(base).value in g.usedKeys)
      requires server.alive && g.sane ==> server.keys * kb.mods == {}
      modifies this`borrowed, this`downKeys, server
      ensures Within(g) && Borrowing(base) && borrowed == []
      ensures server.alive ==> old(server.alive) && server.keys <= old(server.keys)
      ensures old(server.faults) <= server.faults
      // The text is typed, or a named reason stands in the way.
      ensures r.Done? ==> |TextSyms(text)| == |text|
      ensures r.Done? && g.sane ==> Typed(server.events, kb) == Typed(old(server.events), kb) + ProducedAll(base, TextSyms(text), kb.cases)
      ensures |TextSyms(text)| < |text| ==> r == Failed(Control(|TextSyms(text)|)) && server.events == old(server.events)
      ensures r.Failed? && !IsFault(r) && |TextSyms(text)| == |text| ==>
                || (r.error.NoRoom? && base.Spare() == [] && exists s :: s in TextSyms(text) && base.KeyFor(s).None?)
                || (r == Failed(NoShift) && ShiftCode(base).None?)
      ensures IsFault(r) ==> old(server.faults) < server.faults
    {
      var syms := ReadText(text);
      if |syms| < |text| { return Failed(Control(|syms|)); }
      var keymap := server.GetKeymap();
      if keymap.None? { return Failed(Io); }
      var m := keymap.value;
      SameMap(base, m, syms);
      r := TypeAll(base, m, syms, g);
    }

    /** The chunk loop. */
    method TypeAll(ghost base: KeyMap, m: KeyMap, syms: seq<nat>, ghost g: Scope) returns (r: Outcome)
      requires Within(g) && Borrowing(base) && borrowed == [] && (g.sane ==> WellFormed(base, kb))
      requires m.Valid() && (forall s :: m.KeyFor(s) == base.KeyFor(s)) && m.Spare() == base.Spare()
      requires forall s :: s in syms ==> IsTextSym(s)
      requires KeysOf(base, syms) <= g.usedKeys && (ShiftCode(base).Some? ==> ShiftCode(base).value in g.usedKeys)
      requires server.alive && g.sane ==> server.keys * kb.mods == {}
      modifies this`borrowed, this`downKeys, server
      ensures Within(g) && Borrowing(base) && borrowed == []
      ensures server.alive ==> old(server.alive) && server.keys <= old(server.keys)
      ensures old(server.faults) <= server.faults
      ensures r.Done? && g.sane ==> Typed(server.events, kb) == Typed(old(server.events), kb) + ProducedAll(base, syms, kb.cases)
      ensures IsFault(r) ==> old(server.faults) < server.faults
      ensures r.Failed? && !IsFault(r) ==>
                || (r.error.NoRoom? && base.Spare() == [] && exists s :: s in syms && base.KeyFor(s).None?)
                || (r == Failed(NoShift) && ShiftCode(base).None?)
    {
      var shift := ShiftCode(m);
      var room := Max(|m.Spare()|, 1);
      ghost var before := Typed(server.events, kb);
      var start := 0;
      assert ProducedAll(base, syms[..0], kb.cases) == [];
      while start < |syms|
        invariant 0 <= start <= |syms|
        invariant Within(g) && Borrowing(base) && borrowed == []
        invariant server.alive ==> old(server.alive) && server.keys <= old(server.keys)
        invariant old(server.faults) <= server.faults
        invariant g.sane ==> Typed(server.events, kb) == before + ProducedAll(base, syms[..start], kb.cases)
      {
        var end := ChunkEnd(m, syms, start, room);
        MissingSame(base, m, syms, start, end);
        r := TypeOneChunk(base, syms, start, end, shift, before, g);
        if r.Failed? { return; }
        start := end;
      }
      assert syms[..start] == syms;
      r := Done;
    }

    // ---------- clicks, drags, scrolls ----------

    /** Press and release a button `n` times. */
    method ClickTimes(button: nat, n: nat, ghost g: Scope) returns (r: Outcome)
      requires Within(g) && button in g.usedButtons
      modifies this`downButtons, server`keys, server`buttons, server`events, server`alive, server`faults
      ensures Within(g) && old(server.faults) <= server.faults
      ensures server.alive ==> old(server.alive) && server.keys == old(server.keys) && server.buttons <= old(server.buttons)
      ensures r.Done? && server.alive ==> Msgs(server.events) == Msgs(old(server.events)) + Clicks(button, n)
      ensures r.Failed? ==> IsFault(r) && old(server.faults) < server.faults
    {
      var i := 0;
      while i < n
        invariant 0 <= i <= n
        invariant Within(g) && old(server.faults) <= server.faults
        invariant server.alive ==> old(server.alive) && server.keys == old(server.keys) && server.buttons <= old(server.buttons)
        invariant server.alive ==> Msgs(server.events) == Msgs(old(server.events)) + Clicks(button, i)
      {
        var ok := Press(button, true, g);
        if !ok { return Failed(Io); }
        ok := Press(button, false, g);
        if !ok { return Failed(Io); }
        assert Clicks(button, i + 1) == Clicks(button, i) + [ButtonMsg(button, true), ButtonMsg(button, false)];
        i := i + 1;
      }
      r := Done;
    }

    /** The motions of a drag, with its pauses. */
    method DragSteps(a: Action, ghost g: Scope) returns (r: Outcome)
      requires Within(g) && a.Drag?
      modifies server`keys, server`buttons, server`events, server`alive, server`faults
      ensures Within(g) && old(server.faults) <= server.faults
      ensures server.alive ==> old(server.alive) && server.keys == old(server.keys) && server.buttons == old(server.buttons)
      ensures r.Done? && server.alive ==>
                && 0 < server.width && 0 < server.height
                && Msgs(server.events) == Msgs(old(server.events)) + DragPath(a, StepsOf(a.steps), server.width, server.height)
      ensures IsFault(r) ==> old(server.faults) < server.faults
      ensures r.Failed? && !IsFault(r) ==> r == Failed(NoScreen) && (server.width == 0 || server.height == 0)
    {
      var i := 0;
      while i < StepsOf(a.steps)
        invariant 0 <= i <= StepsOf(a.steps)
        invariant Within(g) && old(server.faults) <= server.faults
        invariant server.alive ==> old(server.alive) && server.keys == old(server.keys) && server.buttons == old(server.buttons)
        invariant 0 < i ==> 0 < server.width && 0 < server.height
        invariant i == 0 ==> Msgs(server.events) == Msgs(old(server.events))
        invariant server.alive && 0 < i ==>
                    Msgs(server.events) == Msgs(old(server.events)) + DragPath(a, i, server.width, server.height)
      {
        r := MoveTo(DragX(a, i + 1), DragY(a, i + 1), g);
        if r.Failed? { return; }
        var ok := Pause();
        if !ok { return Failed(Cancelled); }
        i := i + 1;
      }
      r := Done;
    }

    method DoDrag(a: Action, ghost g: Scope) returns (r: Outcome)
      requires Within(g) && a.Drag? && a.button in g.usedButtons
      modifies this`downButtons, server`keys, server`buttons, server`events, server`alive, server`faults
      ensures Within(g) && old(server.faults) <= server.faults
      ensures server.alive ==> old(server.alive) && server.keys == old(server.keys) && server.buttons <= old(server.buttons)
      ensures r.Done? && server.alive ==>
                && 0 < server.width && 0 < server.height
                && Msgs(server.events) == Msgs(old(server.events)) + ActionMsgs(a, server.width, server.height)
      ensures IsFault(r) ==> old(server.faults) < server.faults
      ensures r.Failed? && !IsFault(r) ==> r == Failed(NoScreen) && (server.width == 0 || server.height == 0)
      ensures r.Done? ==> 0 < server.width && 0 < server.height
    {
      r := MoveTo(a.fromX, a.fromY, g);
      if r.Failed? { return; }
      var ok := Press(a.button, true, g);
      if !ok { return Failed(Io); }
      r := DragSteps(a, g);
      ok := Press(a.button, false, g);
      if r.Done? {
        if ok { ok := server.RoundTrip(); }
        if !ok { r := Failed(Io); }
      }
    }

    method DoClick(a: Action, ghost g: Scope) returns (r: Outcome)
      requires Within(g) && a.Click? && a.button in g.usedButtons
      modifies this`downButtons, server`keys, server`buttons, server`events, server`alive, server`faults
      ensures Within(g) && old(server.faults) <= server.faults
      ensures server.alive ==> old(server.alive) && server.keys == old(server.keys) && server.buttons <= old(server.buttons)
      ensures r.Done? && server.alive ==>
                && 0 < server.width && 0 < server.height
                && Msgs(server.events) == Msgs(old(server.events)) + ActionMsgs(a, server.width, server.height)
      ensures IsFault(r) ==> old(server.faults) < server.faults
      ensures r.Failed? && !IsFault(r) ==> r == Failed(NoScreen) && (server.width == 0 || server.height == 0)
      ensures r.Done? ==> 0 < server.width && 0 < server.height
    {
      r := MoveTo(a.x, a.y, g);
      if r.Failed? { return; }
      r := ClickTimes(a.button, Max(a.count, 1), g);
      if r.Failed? { return; }
      var ok := server.RoundTrip();
      if !ok { r := Failed(Io); }
    }

    /** Horizontal detents, then vertical ones. */
    method WheelTimes(dx: int, dy: int, ghost g: Scope) returns (r: Outcome)
      requires Within(g) && {4, 5, 6, 7} <= g.usedButtons
      modifies this`downButtons, server`keys, server`buttons, server`events, server`alive, server`faults
      ensures Within(g) && old(server.faults) <= server.faults
      ensures server.alive ==> old(server.alive) && server.keys == old(server.keys) && server.buttons <= old(server.buttons)
      ensures r.Done? && server.alive ==> Msgs(server.events) == Msgs(old(server.events)) + Wheel(dx, dy)
      ensures r.Failed? ==> IsFault(r) && old(server.faults) < server.faults
    {
      r := ClickTimes(if dx > 0 then 7 else 6, Min(Abs(dx), 50), g);
      if r.Failed? { return; }
      r := ClickTimes(if dy > 0 then 5 else 4, Min(Abs(dy), 50), g);
    }

    method DoScroll(a: Action, ghost g: Scope) returns (r: Outcome)
      requires Within(g) && a.Scroll? && {4, 5, 6, 7} <= g.usedButtons
      modifies this`downButtons, server`keys, server`buttons, server`events, server`alive, server`faults
      ensures Within(g) && old(server.faults) <= server.faults
      ensures server.alive ==> old(server.alive) && server.keys == old(server.keys) && server.buttons <= old(server.buttons)
      ensures r.Done? && server.alive ==>
                && 0 < server.width && 0 < server.height
                && Msgs(server.events) == Msgs(old(server.events)) + ActionMsgs(a, server.width, server.height)
      ensures IsFault(r) ==> old(server.faults) < server.faults
      ensures r.Failed? && !IsFault(r) ==> r == Failed(NoScreen) && (server.width == 0 || server.height == 0)
      ensures r.Done? ==> 0 < server.width && 0 < server.height
    {
      r := MoveTo(a.x, a.y, g);
      if r.Failed? { return; }
      r := WheelTimes(a.dx, a.dy, g);
      if r.Failed? { return; }
      ScrollParts(Msgs(old(server.events)), a.x, a.y, a.dx, a.dy, server.width, server.height);
      var ok := server.RoundTrip();
      if !ok { r := Failed(Io); }
    }

    method DoAction(a: Action, ghost g: Scope) returns (r: Outcome)
      requires Within(g) && ActionButtons(a) <= g.usedButtons
      modifies this`downButtons, server`keys, server`buttons, server`events, server`alive, server`faults
      ensures Within(g) && old(server.faults) <= server.faults
      ensures server.alive ==> old(server.alive) && server.keys == old(server.keys) && server.buttons <= old(server.buttons)
      ensures r.Done? && server.alive && 0 < server.width && 0 < server.height ==>
                Msgs(server.events) == Msgs(old(server.events)) + ActionMsgs(a, server.width, server.height)
      ensures IsFault(r) ==> old(server.faults) < server.faults
      ensures r.Failed? && !IsFault(r) ==> r == Failed(NoScreen) && Aims(a) && (server.width == 0 || server.height == 0)
      ensures r.Done? && Aims(a) ==> 0 < server.width && 0 < server.height
    {
      match a
      case Tap => r := Done;
      case Wait =>
        var ok := Pause();
        r := if ok then Done else Failed(Cancelled);
      case Drag(_, _, _, _, _, _) => r := DoDrag(a, g);
      case Click(_, _, _, _) => r := DoClick(a, g);
      case Scroll(_, _, _, _) => r := DoScroll(a, g);
    }

    // ---------- chords and whole requests ----------

    /** A chord goes down key by key, as far as that works. */
    method PressChord(codes: seq<nat>, ghost g: Scope) returns (held: seq<nat>)
      requires Within(g) && (forall i :: 0 <= i < |codes| ==> codes[i] in g.usedKeys)
      modifies this`downKeys, server`keys, server`buttons, server`events, server`alive, server`faults
      ensures Within(g) && old(server.faults) <= server.faults
      ensures held <= codes && (held != codes ==> old(server.faults) < server.faults)
      ensures server.alive ==> old(server.alive) && server.buttons == old(server.buttons)
      ensures server.alive ==> forall k :: k in server.keys ==> k in old(server.keys) || k in held
      ensures held == codes && server.alive ==> Msgs(server.events) == Msgs(old(server.events)) + KeyDowns(codes)
    {
      held := [];
      var i := 0;
      while i < |codes|
        invariant 0 <= i <= |codes| && held == codes[..i]
        invariant Within(g) && old(server.faults) <= server.faults
        invariant server.alive ==> old(server.alive) && server.buttons == old(server.buttons)
        invariant server.alive ==> forall k :: k in server.keys ==> k in old(server.keys) || k in held
        invariant server.alive ==> Msgs(server.events) == Msgs(old(server.events)) + KeyDowns(held)
      {
        assert codes[..i + 1] == codes[..i] + [codes[i]];
        var ok := KeyCode(codes[i], true, g);
        if !ok { return; }
        held := held + [codes[i]];
        i := i + 1;
      }
    }

    /** Release the held keys in reverse order, whatever happens. */
    method ReleaseChord(held: seq<nat>, ghost g: Scope, ghost before: set<nat>)
      requires Within(g) && (forall i :: 0 <= i < |held| ==> held[i] in g.usedKeys)
      requires server.alive ==> forall k :: k in server.keys ==> k in before || k in held
      modifies this`downKeys, server`keys, server`buttons, server`events, server`alive, server`faults
      ensures Within(g) && old(server.faults) <= server.faults
      ensures server.alive ==> old(server.alive) && server.buttons == old(server.buttons) && server.keys <= before
      ensures server.alive ==> Msgs(server.events) == Msgs(old(server.events)) + KeyUps(held)
    {
      var j := |held|;
      while 0 < j
        invariant 0 <= j <= |held|
        invariant Within(g) && old(server.faults) <= server.faults
        invariant server.alive ==> old(server.alive) && server.buttons == old(server.buttons)
        invariant server.alive ==> forall k :: k in server.keys ==> k in before || k in held[..j]
        invariant server.alive ==> Msgs(server.events) == Msgs(old(server.events)) + KeyUps(held)[..|held| - j]
      {
        assert held[..j] == held[..j - 1] + [held[j - 1]];
        assert KeyUps(held)[..|held| - j + 1] == KeyUps(held)[..|held| - j] + [KeyMsg(held[j - 1], false)];
        var ok := KeyCode(held[j - 1], false, g);
        j := j - 1;
      }
    }

    /** Press the named keys, act, release them in reverse, even when acting fails. */
    method WithModifiers(ghost base: KeyMap, chord: Chord, a: Action, ghost g: Scope) returns (r: Outcome)
      requires Within(g) && Borrowing(base) && borrowed == [] && ActionButtons(a) <= g.usedButtons
      requires chord.Chord? ==> KeysOf(base, chord.syms) <= g.usedKeys
      modifies this`borrowed, this`downKeys, this`downButtons, server
      ensures Within(g) && Borrowing(base) && borrowed == []
      ensures server.alive ==> old(server.alive) && server.keys <= old(server.keys) && server.buttons <= old(server.buttons)
      ensures chord == BadChord ==> r == Failed(UnknownKey) && server.events == old(server.events)
      ensures r.Done? && server.alive && 0 < server.width && 0 < server.height ==>
                Msgs(server.events) == Msgs(old(server.events)) + RequestMsgs(base, Act(chord, a), server.width, server.height)
      ensures IsFault(r) ==> old(server.faults) < server.faults
      ensures r.Failed? && !IsFault(r) ==> Refused(base, Act(chord, a), r.error, server.width, server.height)
      ensures r.Done? ==> Possible(base, Act(chord, a), server.width, server.height)
      ensures old(server.faults) <= server.faults
    {
      match chord
      case NoChord =>
        r := DoAction(a, g);
        NoChordParts(base, a, server.width, server.height);
      case BadChord => r := Failed(UnknownKey);
      case Chord(syms) =>
        r := WithChord(base, syms, a, g);
    }

    method WithChord(ghost base: KeyMap, syms: seq<nat>, a: Action, ghost g: Scope) returns (r: Outcome)
      requires Within(g) && Borrowing(base) && borrowed == [] && ActionButtons(a) <= g.usedButtons
      requires KeysOf(base, syms) <= g.usedKeys
      modifies this`borrowed, this`downKeys, this`downButtons, server
      ensures Within(g) && Borrowing(base) && borrowed == []
      ensures server.alive ==> old(server.alive) && server.keys <= old(server.keys) && server.buttons <= old(server.buttons)
      ensures r.Done? && server.alive && 0 < server.width && 0 < server.height ==>
                Msgs(server.events) == Msgs(old(server.events)) + RequestMsgs(base, Act(Chord(syms), a), server.width, server.height)
      ensures IsFault(r) ==> old(server.faults) < server.faults
      ensures r.Failed? && !IsFault(r) ==> Refused(base, Act(Chord(syms), a), r.error, server.width, server.height)
      ensures r.Done? ==> Possible(base, Act(Chord(syms), a), server.width, server.height)
      ensures old(server.faults) <= server.faults
    {
      r := OnBound(base, syms, a, g);
      Unbind(base);
    }

    /** The chord on keys of its own, which stay borrowed. */
    method OnBound(ghost base: KeyMap, syms: seq<nat>, a: Action, ghost g: Scope) returns (r: Outcome)
      requires Within(g) && Borrowing(base) && borrowed == [] && ActionButtons(a) <= g.usedButtons
      requires KeysOf(base, syms) <= g.usedKeys
      modifies this`borrowed, this`downKeys, this`downButtons, server
      ensures Within(g) && Borrowing(base) && old(server.faults) <= server.faults
      ensures server.alive ==> old(server.alive) && server.keys <= old(server.keys) && server.buttons <= old(server.buttons)
      ensures r.Done? && server.alive && 0 < server.width && 0 < server.height ==>
                Msgs(server.events) == Msgs(old(server.events)) + RequestMsgs(base, Act(Chord(syms), a), server.width, server.height)
      ensures IsFault(r) ==> old(server.faults) < server.faults
      ensures r.Failed? && !IsFault(r) ==> Refused(base, Act(Chord(syms), a), r.error, server.width, server.height)
      ensures r.Done? ==> Possible(base, Act(Chord(syms), a), server.width, server.height)
    {
      var bound := Bind(base, syms);
      if bound.Err? { return Failed(bound.error); }
      var codes := CodesOf(base, syms, bound.value);
      r := UnderChord(codes, a, g);
    }

    /** The chord's presses, the action, the chord's releases. */
    method UnderChord(codes: seq<nat>, a: Action, ghost g: Scope) returns (r: Outcome)
      requires Within(g) && ActionButtons(a) <= g.usedButtons
      requires forall i :: 0 <= i < |codes| ==> codes[i] in g.usedKeys
      modifies this`downKeys, this`downButtons, server`keys, server`buttons, server`events, server`alive, server`faults
      ensures Within(g) && old(server.faults) <= server.faults
      ensures server.alive ==> old(server.alive) && server.keys <= old(server.keys) && server.buttons <= old(server.buttons)
      ensures IsFault(r) ==> old(server.faults) < server.faults
      ensures r.Failed? && !IsFault(r) ==> r == Failed(NoScreen) && Aims(a) && (server.width == 0 || server.height == 0)
      ensures r.Done? && Aims(a) ==> 0 < server.width && 0 < server.height
      ensures r.Done? && server.alive && 0 < server.width && 0 < server.height ==>
                Msgs(server.events) == Msgs(old(server.events)) + Around(codes, a, server.width, server.height)
    {
      var held := PressChord(codes, g);
      if held == codes {
        r := DoAction(a, g);
      } else {
        r := Failed(Io);
      }
      ReleaseChord(held, g, old(server.keys));
      AroundParts(Msgs(old(server.events)), codes, a, server.width, server.height);
      var ok := server.RoundTrip();
    }

    /** This side's presses that still await their release. */
    function HeldNow(): Held
      reads this
    {
      Held(downKeys, downButtons)
    }

    /** Release every key pressed since `before`, highest keycode first. */
    method ReleaseKeys(before: set<nat>, ghost g: Scope)
      requires Within(g) && before == g.downKeys
      modifies this`downKeys, server`keys, server`buttons, server`events, server`alive, server`faults
      ensures Within(g) && old(server.faults) <= server.faults
      ensures server.alive ==> old(server.alive) && server.keys <= g.keys && server.buttons == old(server.buttons)
    {
      var todo := downKeys - before;
      while todo != {}
        invariant todo <= g.usedKeys
        invariant old(server.faults) <= server.faults
        invariant Within(g) && (server.alive ==> downKeys <= before + todo)
        invariant server.alive ==> old(server.alive) && server.buttons == old(server.buttons)
        decreases |todo|
      {
        var kc := Highest(todo);
        var ok := KeyCode(kc, false, g);
        todo := todo - {kc};
      }
    }

    method ReleaseButtons(before: set<nat>, ghost g: Scope)
      requires Within(g) && before == g.downButtons
      modifies this`downButtons, server`keys, server`buttons, server`events, server`alive, server`faults
      ensures Within(g) && old(server.faults) <= server.faults
      ensures server.alive ==> old(server.alive) && server.buttons <= g.buttons && server.keys == old(server.keys)
    {
      var todo := downButtons - before;
      while todo != {}
        invariant todo <= g.usedButtons
        invariant old(server.faults) <= server.faults
        invariant Within(g) && (server.alive ==> downButtons <= before + todo)
        invariant server.alive ==> old(server.alive) && server.keys == old(server.keys)
        decreases |todo|
      {
        var b := Lowest(todo);
        var ok := Press(b, false, g);
        todo := todo - {b};
      }
    }

    /** Undo a request: what is down or bound beyond `before` goes, and nothing else. */
    method ReleaseSince(ghost base: KeyMap, before: Held, ghost g: Scope)
      requires Within(g) && Borrowing(base) && before == Held(g.downKeys, g.downButtons)
      modifies this`borrowed, this`downKeys, this`downButtons, server
      ensures Within(g) && Borrowing(base) && borrowed == [] && old(server.faults) <= server.faults
      ensures server.alive ==> old(server.alive) && server.keys <= g.keys && server.buttons <= g.buttons
    {
      ReleaseKeys(before.keys, g);
      ReleaseButtons(before.buttons, g);
      Unbind(base);
      var ok := server.RoundTrip();
    }

    /** Motion, a bare key or button, and the wake-up nudge. */
    method DispatchBare(q: Request, ghost g: Scope) returns (r: Outcome)
      requires Within(g) && server.keymap.Valid() && !q.Act? && !q.Type?
      requires (q.Key? ==> q.code + 8 in g.usedKeys) && (q.PointerButton? ==> q.button in g.usedButtons)
      modifies this`downKeys, this`downButtons, server`keys, server`buttons, server`events, server`alive, server`faults
      ensures Within(g) && old(server.faults) <= server.faults
      ensures IsFault(r) ==> old(server.faults) < server.faults
      ensures r.Failed? && !IsFault(r) ==> Refused(server.keymap, q, r.error, server.width, server.height)
      ensures r.Done? ==> Possible(server.keymap, q, server.width, server.height)
      ensures server.alive ==> old(server.alive)
      ensures server.alive && !BarePress(q) ==> server.keys <= old(server.keys) && server.buttons <= old(server.buttons)
      ensures q.Key? && r.Done? ==> server.keys == KeysAfter(old(server.keys), KeyMsg(q.code + 8, q.down))
      ensures q.PointerButton? && r.Done? ==> server.buttons == ButtonsAfter(old(server.buttons), ButtonMsg(q.button, q.down))
      ensures r.Done? && 0 < server.width && 0 < server.height ==>
                Msgs(server.events) == Msgs(old(server.events)) + RequestMsgs(server.keymap, q, server.width, server.height)
    {
      var ok := true;
      match q {
        case Move(x, y) => r := MoveTo(x, y, g);
        case PointerButton(button, down) =>
          ok := Press(button, down, g);
          r := if ok then Done else Failed(Io);
        case Key(code, down) =>
          if code + 8 < server.keymap.min || server.keymap.max < code + 8 { return Failed(OutOfRange); }
          ok := KeyCode(code + 8, down, g);
          r := if ok then Done else Failed(Io);
        case Wake(x, y) =>
          r := MoveTo(x + 1, y, g);
          if r.Done? { r := MoveTo(x, y, g); }
      }
      if r.Done? {
        ok := server.RoundTrip();
        if !ok { r := Failed(Io); }
      }
    }

    method Dispatch(ghost base: KeyMap, q: Request, ghost g: Scope) returns (r: Outcome)
      requires Within(g) && Borrowing(base) && borrowed == []
      requires g.usedKeys == UsedKeys(base, q) && g.usedButtons == UsedButtons(q)
      requires g.sane ==> WellFormed(base, kb) && (server.alive ==> server.keys * kb.mods == {})
      modifies this`borrowed, this`downKeys, this`downButtons, server
      ensures Within(g) && Borrowing(base) && borrowed == []
      ensures server.alive ==> old(server.alive)
      ensures server.alive && !BarePress(q) ==> server.keys <= old(server.keys) && server.buttons <= old(server.buttons)
      ensures q.Key? && r.Done? ==> server.keys == KeysAfter(old(server.keys), KeyMsg(q.code + 8, q.down))
      ensures q.PointerButton? && r.Done? ==> server.buttons == ButtonsAfter(old(server.buttons), ButtonMsg(q.button, q.down))
      ensures !q.Type? && r.Done? && server.alive && 0 < server.width && 0 < server.height ==>
                Msgs(server.events) == Msgs(old(server.events)) + RequestMsgs(base, q, server.width, server.height)
      ensures IsFault(r) ==> old(server.faults) < server.faults
      ensures r.Failed? && !IsFault(r) ==> Refused(base, q, r.error, server.width, server.height)
      ensures r.Done? ==> Possible(base, q, server.width, server.height)
      ensures old(server.faults) <= server.faults
      ensures q.Type? && r.Done? && g.sane ==>
                && |TextSyms(q.text)| == |q.text|
                && Typed(server.events, kb) == Typed(old(server.events), kb) + ProducedAll(base, TextSyms(q.text), kb.cases)
    {
      match q
      case Act(chord, a) => r := WithModifiers(base, chord, a, g);
      case Type(text) => r := TypeText(base, text, g);
      case _ => r := DispatchBare(q, g);
    }

    /** A request under the input lock: on failure everything it pressed is released
        before the lock is given back. */
    method Call(q: Request) returns (r: Outcome)
      requires server.keymap.Valid() && borrowed == [] && downKeys <= server.keys && downButtons <= server.buttons
      modifies this`borrowed, this`downKeys, this`downButtons, server
      ensures borrowed == []
      // While the connection lives, nothing is left down or bound.
      ensures server.alive ==> (BarePress(q) && r.Done?)
                               || (server.keys <= old(server.keys) && server.buttons <= old(server.buttons))
      ensures server.alive ==> old(server.keys) - UsedKeys(old(server.keymap), q) <= server.keys
                               && old(server.buttons) - UsedButtons(q) <= server.buttons
      ensures server.alive ==> SameSymbols(old(server.keymap), server.keymap)
                               && (old(server.keymap.per) != 1 ==> server.keymap == old(server.keymap))
      ensures server.alive ==> server.keymap.Valid() && downKeys <= server.keys && downButtons <= server.buttons
      // It fails when something outside does, or for a reason that stands in its way, and only then.
      ensures r.Failed? ==> old(server.faults) < server.faults || Refused(old(server.keymap), q, r.error, server.width, server.height)
      ensures r.Done? ==> Possible(old(server.keymap), q, server.width, server.height)
      // What a bare press or release did.
      ensures q.Key? && r.Done? ==> server.keys == KeysAfter(old(server.keys), KeyMsg(q.code + 8, q.down))
      ensures q.PointerButton? && r.Done? ==> server.buttons == ButtonsAfter(old(server.buttons), ButtonMsg(q.button, q.down))
      // What was sent.
      ensures !q.Type? && r.Done? && server.alive && 0 < server.width && 0 < server.height ==>
                var sent := RequestMsgs(old(server.keymap), q, server.width, server.height);
                Msgs(server.events) == Msgs(old(server.events)) + sent
                && Means(old(server.keymap), q, sent, server.width, server.height)
      // What was typed.
      ensures q.Type? && r.Done? && WellFormed(old(server.keymap), kb) && old(server.keys) * kb.mods == {} ==>
                && |TextSyms(q.text)| == |q.text|
                && Typed(server.events, kb)
                     == Typed(old(server.events), kb) + ProducedAll(old(server.keymap), TextSyms(q.text), kb.cases)
    {
      ghost var base := server.keymap;
      ghost var g := Scope(WellFormed(base, kb) && server.keys * kb.mods == {},
                           server.keys, downKeys, UsedKeys(base, q), server.buttons, downButtons, UsedButtons(q));
      var before := HeldNow();
      r := Dispatch(base, q, g);
      if r.Failed? { ReleaseSince(base, before, g); }
      if server.alive { GivenBack(base, server.keymap); }
      if r.Done? && 0 < server.width && 0 < server.height {
        RequestMeans(base, q, server.width, server.height);
      }
    }
  }
}
