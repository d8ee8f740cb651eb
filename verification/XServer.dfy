/** The X server as the input layer sees it: a keyboard map, what is down, and the
    events it delivered. Any request may fail (`*`); one that fails may take the
    connection with it. A release or an unbind fails only with the connection. */
module XServer {
  import opened Wrappers
  import opened Keysym

  datatype Msg =
    | KeyMsg(kc: nat, down: bool)
    | ButtonMsg(button: nat, down: bool)
    | MotionMsg(x: int, y: int)

  /** A delivered event with the map and the keys down at that moment. */
  datatype Event = Event(msg: Msg, live: KeyMap, held: set<nat>)

  /** The modifier map and the letter cases, which no request here changes. */
  datatype Keyboard = Keyboard(mods: set<nat>, shifts: set<nat>, cases: CaseTable)

  /** What a layout must satisfy for typing to make sense: modifier keys carry no
      text and are never free to bind, and Shift_L shifts. */
  ghost predicate WellFormed(m: KeyMap, kb: Keyboard) {
    && m.Valid()
    && ValidCases(kb.cases)
    && kb.shifts <= kb.mods
    && (forall k :: k in kb.mods ==> !m.IsSpare(k) && !IsTextSym(m.At(k, 0)) && !IsTextSym(m.At(k, 1)))
    && (m.KeyFor(SHIFT_L).Some? ==> m.KeyFor(SHIFT_L).value.kc in kb.shifts)
  }

  /** The keysym a client reads from an event; None when it types nothing. */
  ghost function Reads(e: Event, kb: Keyboard): Option<nat> {
    if e.msg.KeyMsg? && e.msg.down && e.msg.kc !in kb.mods then
      if e.held * kb.mods <= kb.shifts then
        Some(Decode(e.live, e.msg.kc, e.held * kb.shifts != {}, kb.cases))
      else Some(NO_SYMBOL)
    else None
  }

  /** The keysyms a client reads from a stream of events. */
  ghost function Typed(ev: seq<Event>, kb: Keyboard): seq<nat> {
    if ev == [] then []
    else
      var r := Reads(ev[|ev| - 1], kb);
      Typed(ev[..|ev| - 1], kb) + (if r.Some? then [r.value] else [])
  }

  lemma TypedAppend(ev: seq<Event>, e: Event, kb: Keyboard)
    ensures Typed(ev + [e], kb) == Typed(ev, kb) + (if Reads(e, kb).Some? then [Reads(e, kb).value] else [])
  {
    assert (ev + [e])[..|ev|] == ev;
  }

  /** The requests as they went over the wire. */
  function Msgs(ev: seq<Event>): seq<Msg> {
    seq(|ev|, i requires 0 <= i < |ev| => ev[i].msg)
  }

  predicate IsRelease(m: Msg) {
    !m.MotionMsg? && !m.down
  }

  function KeysAfter(keys: set<nat>, m: Msg): set<nat> {
    if m.KeyMsg? then (if m.down then keys + {m.kc} else keys - {m.kc}) else keys
  }

  function ButtonsAfter(buttons: set<nat>, m: Msg): set<nat> {
    if m.ButtonMsg? then (if m.down then buttons + {m.button} else buttons - {m.button}) else buttons
  }

  class Server {
    var keymap: KeyMap
    var keys: set<nat>
    var buttons: set<nat>
    var events: seq<Event>
    const width: nat
    const height: nat
    /** Whether the connection still carries requests. */
    var alive: bool
    /** Requests that failed so far. */
    ghost var faults: nat

    constructor (keymap: KeyMap, keys: set<nat>, buttons: set<nat>, width: nat, height: nat)
      ensures this.keymap == keymap && this.keys == keys && this.buttons == buttons
      ensures this.width == width && this.height == height && alive && events == [] && faults == 0
    {
      this.keymap, this.keys, this.buttons, this.width, this.height := keymap, keys, buttons, width, height;
      events, alive, faults := [], true, 0;
    }

    /** XTEST FakeInput. */
    method Fake(m: Msg) returns (ok: bool)
      modifies this`keys, this`buttons, this`events, this`alive, this`faults
      ensures alive ==> old(alive)
      ensures old(events) <= events
      ensures ok ==> alive && faults == old(faults)
                     && keys == KeysAfter(old(keys), m) && buttons == ButtonsAfter(old(buttons), m)
                     && events == old(events) + [Event(m, keymap, old(keys))]
      ensures !ok ==> old(faults) < faults
      ensures !ok && alive ==> !IsRelease(m) && keys == old(keys) && buttons == old(buttons) && events == old(events)
    {
      var carried: bool, lost: bool, late: bool := *, *, *;
      ok := alive && carried;
      if !ok {
        faults := faults + 1;
        // A request on a connection that breaks may still have arrived.
        lost := !alive || lost || IsRelease(m);
        late := alive && lost && late;
        alive := alive && !lost;
      }
      if ok || late {
        events := events + [Event(m, keymap, keys)];
        keys := KeysAfter(keys, m);
        buttons := ButtonsAfter(buttons, m);
      }
    }

    /** ChangeKeyboardMapping of one keycode, checked. */
    method ChangeRow(kc: nat, row: seq<nat>, giveBack: bool) returns (ok: bool)
      requires keymap.Valid() && keymap.min <= kc <= keymap.max
      modifies this`keymap, this`alive, this`faults
      ensures keymap.Valid() && keymap.min == old(keymap.min) && keymap.max == old(keymap.max)
      ensures alive ==> old(alive)
      ensures ok ==> alive && faults == old(faults) && RowSet(old(keymap), keymap, kc, row)
      ensures !ok ==> old(faults) < faults
      ensures !ok && alive ==> !giveBack && keymap == old(keymap)
    {
      WithRowAt(keymap, kc, row);
      var carried: bool, lost: bool, late: bool := *, *, *;
      ok := alive && carried;
      if !ok {
        faults := faults + 1;
        lost := !alive || lost || giveBack;
        late := alive && lost && late;
        alive := alive && !lost;
      }
      if ok || late { keymap := keymap.WithRow(kc, row); }
    }

    /** GetKeyboardMapping. */
    method GetKeymap() returns (m: Option<KeyMap>)
      modifies this`alive, this`faults
      ensures alive ==> old(alive)
      ensures m.Some? ==> alive && faults == old(faults) && m.value == keymap
      ensures m.None? ==> old(faults) < faults
    {
      var carried: bool, lost: bool := *, *;
      if alive && carried { return Some(keymap); }
      faults := faults + 1;
      alive := alive && !lost;
      m := None;
    }

    /** The root window's size; an empty one is refused, as `root_size` does. */
    method RootSize() returns (r: Option<(nat, nat)>)
      modifies this`alive, this`faults
      ensures alive ==> old(alive)
      ensures r.Some? ==> alive && faults == old(faults) && r.value == (width, height) && 0 < width && 0 < height
      ensures r.None? ==> old(faults) < faults || width == 0 || height == 0
      ensures old(faults) <= faults
    {
      var carried: bool, lost: bool := *, *;
      if alive && carried {
        return if width == 0 || height == 0 then None else Some((width, height));
      }
      faults := faults + 1;
      alive := alive && !lost;
      r := None;
    }

    /** Wait for an answer, behind which nothing sent earlier is left over. */
    method RoundTrip() returns (ok: bool)
      modifies this`alive, this`faults
      ensures alive ==> old(alive)
      ensures ok ==> alive && faults == old(faults)
      ensures !ok ==> old(faults) < faults
    {
      var carried: bool, lost: bool := *, *;
      if alive && carried { return true; }
      faults := faults + 1;
      alive := alive && !lost;
      ok := false;
    }
  }
}
