/** Requests for input, the keys that stand for their symbols, and the messages they are
    carried out by. */
module Requests {
  import opened Wrappers
  import opened Keysym
  import opened XServer

  datatype Error =
    | Io | Cancelled | NoScreen
    | NoRoom(missing: nat, spare: nat)
    | NoShift
    | Control(index: nat)
    | UnknownKey
    | OutOfRange

  datatype Outcome = Done | Failed(error: Error)

  /** Failures that need something to go wrong outside. */
  predicate IsFault(r: Outcome) {
    r == Failed(Io) || r == Failed(Cancelled)
  }

  /** Actions that begin with a motion. */
  predicate Aims(a: Action) {
    a.Click? || a.Drag? || a.Scroll?
  }

  predicate Pointed(q: Request) {
    q.Move? || q.Wake? || (q.Act? && Aims(q.action))
  }

  /** Why a request cannot be carried out though nothing outside fails. */
  predicate Refused(m: KeyMap, q: Request, e: Error, w: nat, h: nat) {
    match e
    case NoScreen => Pointed(q) && (w == 0 || h == 0)
    case NoRoom(missing, spare) =>
      || (q.Act? && q.chord.Chord? && |m.Spare()| == spare < missing == |Missing(m, q.chord.syms)|)
      || (q.Type? && m.Spare() == [] && exists s :: s in TextSyms(q.text) && m.KeyFor(s).None?)
    case NoShift => q.Type? && ShiftCode(m).None?
    case Control(i) => q.Type? && i == |TextSyms(q.text)| < |q.text|
    case UnknownKey => q.Act? && q.chord == BadChord
    case OutOfRange => q.Key? && (q.code + 8 < m.min || m.max < q.code + 8)
    case _ => false
  }

  /** A request whose keys, chord, characters and screen are all there. */
  predicate Possible(m: KeyMap, q: Request, w: nat, h: nat) {
    && (Pointed(q) ==> 0 < w && 0 < h)
    && (q.Act? ==> q.chord != BadChord)
    && (q.Act? && q.chord.Chord? ==> |Missing(m, q.chord.syms)| <= |m.Spare()|)
    && (q.Key? ==> m.min <= q.code + 8 <= m.max)
    && (q.Type? ==> |TextSyms(q.text)| == |q.text|)
  }

  /** The keys and buttons held when a request begins. */
  datatype Held = Held(keys: set<nat>, buttons: set<nat>)

  datatype Chord = NoChord | BadChord | Chord(syms: seq<nat>)

  datatype Action =
    | Tap
    | Wait
    | Click(x: int, y: int, button: nat, count: nat)
    | Drag(fromX: int, fromY: int, toX: int, toY: int, button: nat, steps: nat)
    | Scroll(x: int, y: int, dx: int, dy: int)

  datatype Request =
    | Move(x: int, y: int)
    | PointerButton(button: nat, down: bool)
    | Act(chord: Chord, action: Action)
    | Key(code: nat, down: bool)
    | Type(text: string)
    | Wake(pointerX: int, pointerY: int)

  /** What was down at the start of a request, on the server and in our books, and
      the keys and buttons the request may touch. `sane`: the layout is well formed
      and no modifier is held, so typed text can be read back. */
  datatype Scope = Scope(sane: bool, keys: set<nat>, downKeys: set<nat>, usedKeys: set<nat>,
                         buttons: set<nat>, downButtons: set<nat>, usedButtons: set<nat>)

  lemma HasMax(s: set<nat>) returns (m: nat)
    requires s != {}
    ensures m in s && forall k :: k in s ==> k <= m
  {
    m :| m in s;
    var rest := s - {m};
    assert forall k :: k in s ==> k == m || k in rest;
    if rest != {} {
      var n := HasMax(rest);
      OneAbove(s, m, n);
      m := Max(m, n);
    }
  }

  lemma OneAbove(s: set<nat>, x: nat, n: nat)
    requires x in s && n in s && forall k :: k in s - {x} ==> k <= n
    ensures Max(x, n) in s && forall k :: k in s ==> k <= Max(x, n)
  {
    forall k | k in s ensures k <= Max(x, n) {
      assert k == x || k in s - {x};
    }
  }

  lemma HasMin(s: set<nat>) returns (m: nat)
    requires s != {}
    ensures m in s && forall k :: k in s ==> m <= k
  {
    m :| m in s;
    var rest := s - {m};
    assert forall k :: k in s ==> k == m || k in rest;
    if rest != {} {
      var n := HasMin(rest);
      OneBelow(s, m, n);
      m := Min(m, n);
    }
  }

  lemma OneBelow(s: set<nat>, x: nat, n: nat)
    requires x in s && n in s && forall k :: k in s - {x} ==> n <= k
    ensures Min(x, n) in s && forall k :: k in s ==> Min(x, n) <= k
  {
    forall k | k in s ensures Min(x, n) <= k {
      assert k == x || k in s - {x};
    }
  }

  method Highest(s: set<nat>) returns (m: nat)
    requires s != {}
    ensures m in s && forall k :: k in s ==> k <= m
  {
    ghost var top := HasMax(s);
    m :| m in s && forall k :: k in s ==> k <= m;
  }

  method Lowest(s: set<nat>) returns (m: nat)
    requires s != {}
    ensures m in s && forall k :: k in s ==> m <= k
  {
    ghost var bottom := HasMin(s);
    m :| m in s && forall k :: k in s ==> m <= k;
  }

  // ---------- what typing means ----------

  /** The keysym a client reads when `s` is typed on the map `m`. */
  ghost function Produced(m: KeyMap, s: nat, cases: CaseTable): nat {
    var k := m.KeyFor(s);
    if k.Some? then Decode(m, k.value.kc, k.value.shift, cases) else s
  }

  ghost function ProducedAll(m: KeyMap, syms: seq<nat>, cases: CaseTable): seq<nat> {
    seq(|syms|, i requires 0 <= i < |syms| => Produced(m, syms[i], cases))
  }

  lemma ProducedAppend(m: KeyMap, a: seq<nat>, b: seq<nat>, cases: CaseTable)
    ensures ProducedAll(m, a + b, cases) == ProducedAll(m, a, cases) + ProducedAll(m, b, cases)
  {
  }

  lemma Cut(syms: seq<nat>, start: nat, end: nat)
    requires start <= end <= |syms|
    ensures syms[..end] == syms[..start] + syms[start..end]
  {
  }

  lemma Joined(before: seq<nat>, a: seq<nat>, b: seq<nat>)
    ensures before + a + b == before + (a + b)
  {
  }

  lemma ChunkProduced(m: KeyMap, syms: seq<nat>, start: nat, end: nat, before: seq<nat>, cases: CaseTable)
    requires start <= end <= |syms|
    ensures before + ProducedAll(m, syms[..start], cases) + ProducedAll(m, syms[start..end], cases)
         == before + ProducedAll(m, syms[..end], cases)
  {
    var a, b := syms[..start], syms[start..end];
    Cut(syms, start, end);
    ProducedAppend(m, a, b, cases);
    Joined(before, ProducedAll(m, a, cases), ProducedAll(m, b, cases));
  }

  lemma ChunkMissing(m: KeyMap, syms: seq<nat>, start: nat, end: nat)
    requires start <= end <= |syms|
    ensures Missing(m, syms[start..end]) == MissingIn(m, syms, start, end)
  {
    MissingSlice(m, syms, start, end, end);
  }

  lemma ChunkKeys(m: KeyMap, syms: seq<nat>, start: nat, end: nat)
    requires start <= end <= |syms|
    ensures forall s :: s in syms[start..end] ==> s in syms
    ensures KeysOf(m, syms[start..end]) <= KeysOf(m, syms)
  {
  }

  /** The text's keysyms up to the first control character. */
  function TextSyms(text: string): (r: seq<nat>)
    ensures |r| <= |text|
    ensures forall i :: 0 <= i < |r| ==> CharToKeysym(text[i]) == Some(r[i])
    ensures |r| < |text| ==> CharToKeysym(text[|r|]).None?
    ensures forall s :: s in r ==> IsTextSym(s)
  {
    if text == [] then []
    else
      var k := CharToKeysym(text[0]);
      if k.None? then []
      else
        CharRoundTrip(text[0]);
        [k.value] + TextSyms(text[1..])
  }

  /** `s` is looked up on the unshifted key of a lone uppercase letter. */
  ghost predicate OnLoneUpper(m: KeyMap, s: nat, cases: CaseTable) {
    var k := m.KeyFor(s);
    k.Some? && !k.value.shift && LoneUpper(m, k.value.kc, cases)
  }

  /** Typing a text yields that text, character for character, exactly when none of
      its symbols sits alone, uppercase, on its key. */
  lemma TypedIsTheText(m: KeyMap, text: string, cases: CaseTable)
    requires ValidCases(cases) && |TextSyms(text)| == |text|
    ensures ProducedAll(m, TextSyms(text), cases) == TextSyms(text)
            <==> forall i :: 0 <= i < |text| ==> !OnLoneUpper(m, TextSyms(text)[i], cases)
    ensures ProducedAll(m, TextSyms(text), cases) == TextSyms(text)
            ==> forall i :: 0 <= i < |text| ==> KeysymToChar(ProducedAll(m, TextSyms(text), cases)[i]) == Some(text[i])
  {
    var syms := TextSyms(text);
    forall i | 0 <= i < |text|
      ensures Produced(m, syms[i], cases) == syms[i] <==> !OnLoneUpper(m, syms[i], cases)
      ensures KeysymToChar(syms[i]) == Some(text[i])
    {
      CharRoundTrip(text[i]);
      if m.KeyFor(syms[i]).Some? { LookupDecodes(m, syms[i], cases); }
    }
    var made := ProducedAll(m, syms, cases);
    if made == syms {
      forall i | 0 <= i < |text| ensures !OnLoneUpper(m, syms[i], cases) { assert made[i] == syms[i]; }
    }
  }

  /** Symbols of `syms[lo..hi]` the map lacks, each once, in order of appearance. */
  function MissingIn(m: KeyMap, syms: seq<nat>, lo: nat, hi: nat): seq<nat>
    requires lo <= hi <= |syms|
  {
    if lo == hi then []
    else
      var p := MissingIn(m, syms, lo, hi - 1);
      if m.KeyFor(syms[hi - 1]).None? && syms[hi - 1] !in p then p + [syms[hi - 1]] else p
  }

  function Missing(m: KeyMap, syms: seq<nat>): seq<nat> {
    MissingIn(m, syms, 0, |syms|)
  }

  lemma MissingInHas(m: KeyMap, syms: seq<nat>, lo: nat, hi: nat)
    requires lo <= hi <= |syms|
    ensures forall k :: lo <= k < hi && m.KeyFor(syms[k]).None? ==> syms[k] in MissingIn(m, syms, lo, hi)
    ensures forall s :: s in MissingIn(m, syms, lo, hi) ==> s in syms && m.KeyFor(s).None?
    ensures forall i, j :: 0 <= i < j < |MissingIn(m, syms, lo, hi)| ==> MissingIn(m, syms, lo, hi)[i] != MissingIn(m, syms, lo, hi)[j]
  {
  }

  lemma MissingHas(m: KeyMap, syms: seq<nat>)
    ensures forall s :: s in Missing(m, syms) <==> s in syms && m.KeyFor(s).None?
    ensures forall i, j :: 0 <= i < j < |Missing(m, syms)| ==> Missing(m, syms)[i] != Missing(m, syms)[j]
  {
    MissingInHas(m, syms, 0, |syms|);
  }

  lemma MissingSome(m: KeyMap, syms: seq<nat>, lo: nat, hi: nat)
    requires lo <= hi <= |syms| && MissingIn(m, syms, lo, hi) != []
    ensures exists s :: s in syms && m.KeyFor(s).None?
  {
    if MissingIn(m, syms, lo, hi - 1) != [] {
      MissingSome(m, syms, lo, hi - 1);
    } else {
      assert syms[hi - 1] in syms && m.KeyFor(syms[hi - 1]).None?;
    }
  }

  lemma MissingSlice(m: KeyMap, syms: seq<nat>, lo: nat, mid: nat, hi: nat)
    requires lo <= mid <= hi <= |syms|
    ensures MissingIn(m, syms[lo..hi], 0, mid - lo) == MissingIn(m, syms, lo, mid)
  {
    if lo < mid {
      assert syms[lo..hi][mid - 1 - lo] == syms[mid - 1];
      MissingSlice(m, syms, lo, mid - 1, hi);
    }
  }

  lemma MissingSame(a: KeyMap, b: KeyMap, syms: seq<nat>, lo: nat, hi: nat)
    requires lo <= hi <= |syms| && forall s :: a.KeyFor(s) == b.KeyFor(s)
    ensures MissingIn(a, syms, lo, hi) == MissingIn(b, syms, lo, hi)
  {
  }

  lemma KeysSame(a: KeyMap, b: KeyMap)
    requires SameSymbols(a, b)
    ensures forall s :: a.KeyFor(s) == b.KeyFor(s)
  {
    forall s ensures a.KeyFor(s) == b.KeyFor(s) { KeyForSame(a, b, s); }
  }

  lemma SpareSame(a: KeyMap, b: KeyMap, kc: nat)
    requires a.Valid() && b.Valid() && SameSymbols(a, b) && (a.per == 0 <==> b.per == 0)
    ensures a.IsSpare(kc) == b.IsSpare(kc)
    ensures a.SpareFrom(kc) == b.SpareFrom(kc)
  {
    if a.min <= kc <= a.max && 0 < a.per {
      assert forall c: nat :: c < a.per ==> a.SymsOf(kc)[c] == a.At(kc, c) == b.At(kc, c);
      assert forall c: nat :: c < b.per ==> b.SymsOf(kc)[c] == b.At(kc, c) == a.At(kc, c);
      assert forall c: nat :: a.per <= c ==> a.At(kc, c) == NO_SYMBOL;
      assert forall c: nat :: b.per <= c ==> b.At(kc, c) == NO_SYMBOL;
    }
    if a.min <= kc && 0 < kc { SpareSame(a, b, kc - 1); }
  }

  /** The key codes of a request: mapped symbols by lookup, the `i`th missing one on
      the `i`th spare keycode. */
  ghost predicate IsBinding(m: KeyMap, syms: seq<nat>, codes: map<nat, Key>) {
    var missing := Missing(m, syms);
    && |missing| <= |m.Spare()|
    && (forall s :: s in syms ==> s in codes)
    && (forall i :: 0 <= i < |missing| ==> missing[i] in codes)
    && (forall s :: s in syms && m.KeyFor(s).Some? ==> codes[s] == m.KeyFor(s).value)
    && (forall i :: 0 <= i < |missing| ==> codes[missing[i]] == Keysym.Key(m.Spare()[i], false))
  }

  /** The key codes once the first `n` missing symbols are bound. */
  function BindCodes(mapped: map<nat, Key>, missing: seq<nat>, spare: seq<nat>, n: nat): map<nat, Key>
    requires n <= |missing| <= |spare|
  {
    if n == 0 then mapped
    else BindCodes(mapped, missing, spare, n - 1)[missing[n - 1] := Keysym.Key(spare[n - 1], false)]
  }

  lemma BindCodesAt(mapped: map<nat, Key>, missing: seq<nat>, spare: seq<nat>, n: nat)
    requires n <= |missing| <= |spare|
    requires forall i, j :: 0 <= i < j < |missing| ==> missing[i] != missing[j]
    ensures var codes := BindCodes(mapped, missing, spare, n);
            && (forall j :: 0 <= j < n ==> missing[j] in codes && codes[missing[j]] == Keysym.Key(spare[j], false))
            && (forall s :: s in mapped && (forall j :: 0 <= j < n ==> missing[j] != s) ==> s in codes && codes[s] == mapped[s])
  {
    if 0 < n { BindCodesAt(mapped, missing, spare, n - 1); }
  }

  lemma CodesDone(m: KeyMap, syms: seq<nat>, mapped: map<nat, Key>, spare: seq<nat>)
    requires spare == m.Spare() && |Missing(m, syms)| <= |spare|
    requires forall s :: s in mapped <==> s in syms && m.KeyFor(s).Some?
    requires forall s :: s in mapped ==> mapped[s] == m.KeyFor(s).value
    ensures IsBinding(m, syms, BindCodes(mapped, Missing(m, syms), spare, |Missing(m, syms)|))
  {
    var missing := Missing(m, syms);
    var codes := BindCodes(mapped, missing, spare, |missing|);
    MissingHas(m, syms);
    BindCodesAt(mapped, missing, spare, |missing|);
    forall j | 0 <= j < |missing| ensures missing[j] !in mapped && missing[j] in syms { assert missing[j] in missing; }
    forall s | s in syms ensures s in codes && (m.KeyFor(s).Some? ==> codes[s] == m.KeyFor(s).value) {
      if m.KeyFor(s).None? {
        assert s in missing;
        var j :| 0 <= j < |missing| && missing[j] == s;
      }
    }
  }

  /** Keycodes typing `syms` may press: theirs, and the spare ones. */
  function KeysOf(m: KeyMap, syms: seq<nat>): set<nat> {
    (set s | s in syms && m.KeyFor(s).Some? :: m.KeyFor(s).value.kc) + (set k | k in m.Spare())
  }

  function ShiftCode(m: KeyMap): Option<nat> {
    var k := m.KeyFor(SHIFT_L);
    if k.Some? then Some(k.value.kc) else None
  }

  /** A key that types text is no modifier. */
  lemma TextKeyIsNoModifier(m: KeyMap, kb: Keyboard, s: nat)
    requires WellFormed(m, kb) && IsTextSym(s) && m.KeyFor(s).Some?
    ensures m.KeyFor(s).value.kc !in kb.mods && !m.IsSpare(m.KeyFor(s).value.kc)
  {
    var k := m.KeyFor(s).value.kc;
    assert m.At(k, 0) != NO_SYMBOL || m.At(k, 1) != NO_SYMBOL;
    if 0x41 <= s <= 0x5a {
      assert IsTextSym(s + 0x20);
    }
  }

  // ---------- borrowed rows ----------

  /** `live` is `base` except for the rows of the borrowed keycodes. */
  ghost predicate DiffersOnlyOn(base: KeyMap, live: KeyMap, borrowed: seq<nat>) {
    && (live.per == base.per || (base.per == 1 && live.per == 2))
    && forall k: nat, c: nat :: k !in borrowed ==> live.At(k, c) == base.At(k, c)
  }

  /** Each borrowed keycode carries its symbol, shifted or not. */
  ghost predicate Carries(live: KeyMap, borrowed: seq<nat>, syms: seq<nat>) {
    |borrowed| <= |syms| && forall i :: 0 <= i < |borrowed| ==> live.At(borrowed[i], 0) == live.At(borrowed[i], 1) == syms[i]
  }

  /** With nothing borrowed the live map looks things up as the map of before. */
  lemma SameMap(base: KeyMap, live: KeyMap, syms: seq<nat>)
    requires base.Valid() && live.Valid() && live.min == base.min && live.max == base.max && DiffersOnlyOn(base, live, [])
    ensures forall s :: live.KeyFor(s) == base.KeyFor(s)
    ensures Missing(live, syms) == Missing(base, syms) && live.Spare() == base.Spare()
  {
    assert SameSymbols(base, live);
    KeysSame(base, live);
    MissingSame(base, live, syms, 0, |syms|);
    SpareSame(base, live, base.max);
  }

  lemma GivenBack(base: KeyMap, live: KeyMap)
    requires base.Valid() && live.Valid() && live.min == base.min && live.max == base.max && DiffersOnlyOn(base, live, [])
    ensures SameSymbols(base, live) && (base.per != 1 ==> live == base)
  {
    if base.per != 1 { SameSymbolsEqual(base, live); }
  }

  function BoundRow(s: nat, per: nat): seq<nat> {
    if per <= 2 then [s, s] else [s, s] + seq(per - 2, _ => NO_SYMBOL)
  }

  lemma BorrowOne(base: KeyMap, live: KeyMap, live': KeyMap, borrowed: seq<nat>, syms: seq<nat>, kc: nat, per: nat)
    requires base.Valid() && DiffersOnlyOn(base, live, borrowed) && Carries(live, borrowed, syms)
    requires 0 < base.per && per == Max(base.per, 2) && |borrowed| < |syms|
    requires forall j :: 0 <= j < |borrowed| ==> borrowed[j] != kc
    requires RowSet(live, live', kc, BoundRow(syms[|borrowed|], per))
    ensures DiffersOnlyOn(base, live', borrowed + [kc]) && Carries(live', borrowed + [kc], syms)
  {
    forall k: nat, c: nat | k !in borrowed + [kc] ensures live'.At(k, c) == base.At(k, c) {
      assert k !in borrowed && kc in borrowed + [kc];
    }
  }

  lemma GiveBackOne(base: KeyMap, live: KeyMap, live': KeyMap, todo: seq<nat>, per: nat)
    requires base.Valid() && todo != [] && base.IsSpare(todo[0]) && DiffersOnlyOn(base, live, todo)
    requires per == 2 || per == live.per
    requires RowSet(live, live', todo[0], seq(per, _ => NO_SYMBOL))
    ensures DiffersOnlyOn(base, live', todo[1..])
  {
    assert 0 < base.per;
    forall k: nat, c: nat | k !in todo[1..] ensures live'.At(k, c) == base.At(k, c) {
      if k == todo[0] {
        assert base.At(k, c) == NO_SYMBOL;
      } else {
        assert k !in todo;
      }
    }
  }

  /** The keys of the bound symbols, added to the mapped ones. */
  method AddCodes(mapped: map<nat, Key>, missing: seq<nat>, spare: seq<nat>) returns (codes: map<nat, Key>)
    requires |missing| <= |spare|
    ensures codes == BindCodes(mapped, missing, spare, |missing|)
  {
    codes := mapped;
    var i := 0;
    while i < |missing|
      invariant 0 <= i <= |missing| && codes == BindCodes(mapped, missing, spare, i)
    {
      codes := codes[missing[i] := Keysym.Key(spare[i], false)];
      i := i + 1;
    }
  }

  /** The lookup loop of `bind`: mapped symbols, and the missing ones in order. */
  method Resolve(m: KeyMap, syms: seq<nat>) returns (codes: map<nat, Key>, missing: seq<nat>)
    requires m.Valid()
    ensures missing == Missing(m, syms)
    ensures forall s :: s in codes <==> s in syms && m.KeyFor(s).Some?
    ensures forall s :: s in codes ==> codes[s] == m.KeyFor(s).value
  {
    codes, missing := map[], [];
    var i := 0;
    while i < |syms|
      invariant 0 <= i <= |syms| && missing == MissingIn(m, syms, 0, i) && Coded(m, syms, i, codes)
    {
      var s := syms[i];
      MissingInHas(m, syms, 0, i);
      if s !in codes && s !in missing {
        var key := m.Lookup(s);
        if key.Some? {
          CodedMore(m, syms, i, codes, key.value);
          codes := codes[s := key.value];
        } else {
          CodedStill(m, syms, i, codes);
          missing := missing + [s];
        }
      } else {
        CodedStill(m, syms, i, codes);
      }
      i := i + 1;
    }
    CodedAll(m, syms, codes);
  }

  /** The first `n` symbols that the map has are resolved, and no others but of the list. */
  predicate Coded(m: KeyMap, syms: seq<nat>, n: nat, codes: map<nat, Key>)
    requires n <= |syms|
  {
    && (forall k :: 0 <= k < n && m.KeyFor(syms[k]).Some? ==> syms[k] in codes)
    && (forall s :: s in codes ==> s in syms && m.KeyFor(s) == Some(codes[s]))
  }

  lemma CodedMore(m: KeyMap, syms: seq<nat>, n: nat, codes: map<nat, Key>, key: Key)
    requires n < |syms| && Coded(m, syms, n, codes) && m.KeyFor(syms[n]) == Some(key)
    ensures Coded(m, syms, n + 1, codes[syms[n] := key])
  {
  }

  lemma CodedStill(m: KeyMap, syms: seq<nat>, n: nat, codes: map<nat, Key>)
    requires n < |syms| && Coded(m, syms, n, codes) && (syms[n] in codes || m.KeyFor(syms[n]).None?)
    ensures Coded(m, syms, n + 1, codes)
  {
  }

  lemma CodedAll(m: KeyMap, syms: seq<nat>, codes: map<nat, Key>)
    requires Coded(m, syms, |syms|, codes)
    ensures forall s :: s in codes <==> s in syms && m.KeyFor(s).Some?
    ensures forall s :: s in codes ==> codes[s] == m.KeyFor(s).value
  {
  }

  /** The unshifted or shifted symbol a bound key yields on the map as it is now. */
  lemma BoundDecodes(base: KeyMap, live: KeyMap, borrowed: seq<nat>, syms: seq<nat>, codes: map<nat, Key>, s: nat, kb: Keyboard)
    requires WellFormed(base, kb) && IsTextSym(s) && s in syms && IsBinding(base, syms, codes)
    requires borrowed == base.Spare()[..|Missing(base, syms)|]
    requires DiffersOnlyOn(base, live, borrowed) && Carries(live, borrowed, Missing(base, syms))
    ensures codes[s].kc !in kb.mods
    ensures Decode(live, codes[s].kc, codes[s].shift, kb.cases) == Produced(base, s, kb.cases)
  {
    if base.KeyFor(s).Some? {
      TextKeyIsNoModifier(base, kb, s);
      var k := base.KeyFor(s).value;
      assert codes[s] == k;
      assert k.kc !in borrowed;
      assert live.At(k.kc, 0) == base.At(k.kc, 0) && live.At(k.kc, 1) == base.At(k.kc, 1);
    } else {
      var missing := Missing(base, syms);
      MissingHas(base, syms);
      assert s in missing;
      var i :| 0 <= i < |missing| && missing[i] == s;
      BoundMissing(base, live, borrowed, missing, codes[s].kc, i, s, kb);
    }
  }

  lemma BoundMissing(base: KeyMap, live: KeyMap, borrowed: seq<nat>, missing: seq<nat>, kc: nat, i: nat, s: nat, kb: Keyboard)
    requires WellFormed(base, kb) && IsTextSym(s) && i < |missing| <= |base.Spare()| && missing[i] == s
    requires borrowed == base.Spare()[..|missing|] && kc == base.Spare()[i] && Carries(live, borrowed, missing)
    ensures kc !in kb.mods
    ensures Decode(live, kc, false, kb.cases) == s
  {
    assert base.Spare()[i] in base.Spare();
    assert borrowed[i] == kc;
    assert live.At(kc, 0) == s && live.At(kc, 1) == s && s != NO_SYMBOL;
  }

  /** What typing a chunk needs to know of it. */
  lemma ChunkFacts(m: KeyMap, syms: seq<nat>, start: nat, end: nat, before: seq<nat>, cases: CaseTable)
    requires start <= end <= |syms|
    ensures before + ProducedAll(m, syms[..start], cases) + ProducedAll(m, syms[start..end], cases)
         == before + ProducedAll(m, syms[..end], cases)
    ensures Missing(m, syms[start..end]) == MissingIn(m, syms, start, end)
    ensures MissingIn(m, syms, start, end) != [] ==> exists s :: s in syms && m.KeyFor(s).None?
    ensures KeysOf(m, syms[start..end]) <= KeysOf(m, syms) && forall s :: s in syms[start..end] ==> s in syms
  {
    ChunkProduced(m, syms, start, end, before, cases);
    ChunkMissing(m, syms, start, end);
    if MissingIn(m, syms, start, end) != [] {
      MissingSome(m, syms, start, end);
    }
    ChunkKeys(m, syms, start, end);
  }

  /** The character loop of `type_text`. */
  method ReadText(text: string) returns (syms: seq<nat>)
    ensures syms == TextSyms(text)
  {
    syms := [];
    while |syms| < |text|
      invariant |syms| <= |text|
      invariant forall j :: 0 <= j < |syms| ==> CharToKeysym(text[j]) == Some(syms[j])
    {
      var k := CharToKeysym(text[|syms|]);
      if k.None? { break; }
      syms := syms + [k.value];
    }
    var want := TextSyms(text);
    assert |want| == |syms|;
    assert forall j :: 0 <= j < |want| ==> want[j] == syms[j];
  }

  /** Grow a chunk from `start` while its unmapped symbols fit `room`: as far as it goes. */
  method ChunkEnd(m: KeyMap, syms: seq<nat>, start: nat, room: nat) returns (end: nat)
    requires m.Valid() && start < |syms| && 0 < room
    ensures start < end <= |syms|
    ensures |MissingIn(m, syms, start, end)| <= room
    ensures end < |syms| ==> |MissingIn(m, syms, start, end + 1)| > room
  {
    var unmapped: seq<nat> := [];
    end := start;
    while end < |syms|
      invariant start <= end <= |syms|
      invariant unmapped == MissingIn(m, syms, start, end) && |unmapped| <= room
      invariant end == start ==> |unmapped| == 0
    {
      var s := syms[end];
      var key := m.Lookup(s);
      if key.None? && s !in unmapped {
        if |unmapped| == room { return; }
        unmapped := unmapped + [s];
      }
      end := end + 1;
    }
  }

  /** Stroking the key bound for `s` is allowed and yields what `s` yields on `base`. */
  ghost predicate KeyReady(base: KeyMap, live: KeyMap, key: Key, s: nat, g: Scope, kb: Keyboard) {
    && key.kc in g.usedKeys
    && (g.sane ==> key.kc !in kb.mods && Decode(live, key.kc, key.shift, kb.cases) == Produced(base, s, kb.cases))
  }

  ghost predicate AllReady(base: KeyMap, live: KeyMap, codes: map<nat, Key>, syms: seq<nat>, g: Scope, kb: Keyboard) {
    forall i :: 0 <= i < |syms| ==> syms[i] in codes && KeyReady(base, live, codes[syms[i]], syms[i], g, kb)
  }

  lemma BoundReady(base: KeyMap, live: KeyMap, borrowed: seq<nat>, syms: seq<nat>, codes: map<nat, Key>, g: Scope, kb: Keyboard)
    requires (g.sane ==> WellFormed(base, kb)) && (forall s :: s in syms ==> IsTextSym(s)) && IsBinding(base, syms, codes)
    requires borrowed == base.Spare()[..|Missing(base, syms)|] && KeysOf(base, syms) <= g.usedKeys
    requires DiffersOnlyOn(base, live, borrowed) && Carries(live, borrowed, Missing(base, syms))
    ensures AllReady(base, live, codes, syms, g, kb)
  {
    forall i | 0 <= i < |syms| ensures syms[i] in codes && KeyReady(base, live, codes[syms[i]], syms[i], g, kb) {
      BoundKeyUsed(base, syms, codes, syms[i]);
      if g.sane { BoundDecodes(base, live, borrowed, syms, codes, syms[i], kb); }
    }
  }

  lemma BoundKeyUsed(base: KeyMap, syms: seq<nat>, codes: map<nat, Key>, s: nat)
    requires s in syms && IsBinding(base, syms, codes)
    ensures s in codes && codes[s].kc in KeysOf(base, syms)
  {
    if base.KeyFor(s).None? {
      var missing := Missing(base, syms);
      MissingHas(base, syms);
      assert s in missing;
      var i :| 0 <= i < |missing| && missing[i] == s;
      assert base.Spare()[i] in base.Spare();
    }
  }

  // ---------- what goes over the wire ----------

  /** Rust's integer division, for a positive divisor. */
  function TruncDiv(a: int, b: int): int
    requires 0 < b
  {
    if 0 <= a then a / b else -((-a) / b)
  }

  function Clamp(v: int, n: nat): int
    requires 0 < n
  {
    if v < 0 then 0 else if n <= v then n - 1 else v
  }

  function MotionTo(x: int, y: int, w: nat, h: nat): Msg
    requires 0 < w && 0 < h
  {
    MotionMsg(Clamp(x, w), Clamp(y, h))
  }

  function StepsOf(steps: nat): nat {
    if steps < 1 then 1 else if 200 < steps then 200 else steps
  }

  function DragX(a: Action, i: nat): int
    requires a.Drag?
  {
    a.fromX + TruncDiv((a.toX - a.fromX) * i, StepsOf(a.steps))
  }

  function DragY(a: Action, i: nat): int
    requires a.Drag?
  {
    a.fromY + TruncDiv((a.toY - a.fromY) * i, StepsOf(a.steps))
  }

  /** The first `n` motions of a drag after the press. */
  function DragPath(a: Action, n: nat, w: nat, h: nat): seq<Msg>
    requires a.Drag? && 0 < w && 0 < h
  {
    seq(n, i requires 0 <= i => MotionTo(DragX(a, i + 1), DragY(a, i + 1), w, h))
  }

  /** `n` times down and up. */
  function Clicks(button: nat, n: nat): seq<Msg> {
    seq(2 * n, i => ButtonMsg(button, i % 2 == 0))
  }

  /** At most 50 detents each way: buttons 6 and 7, then 4 and 5. */
  function Wheel(dx: int, dy: int): seq<Msg> {
    Clicks(if dx > 0 then 7 else 6, Min(Abs(dx), 50)) + Clicks(if dy > 0 then 5 else 4, Min(Abs(dy), 50))
  }

  function ActionMsgs(a: Action, w: nat, h: nat): seq<Msg>
    requires 0 < w && 0 < h
  {
    match a
    case Tap => []
    case Wait => []
    case Click(x, y, button, count) => [MotionTo(x, y, w, h)] + Clicks(button, Max(count, 1))
    case Drag(_, _, _, _, _, steps) =>
      [MotionTo(a.fromX, a.fromY, w, h), ButtonMsg(a.button, true)]
      + DragPath(a, StepsOf(steps), w, h) + [ButtonMsg(a.button, false)]
    case Scroll(x, y, dx, dy) =>
      [MotionTo(x, y, w, h)] + Wheel(dx, dy)
  }

  lemma MsgsAppend(ev: seq<Event>, e: Event)
    ensures Msgs(ev + [e]) == Msgs(ev) + [e.msg]
  {
  }

  function IndexOf(list: seq<nat>, s: nat): (i: nat)
    ensures i <= |list| && (i < |list| ==> list[i] == s) && (s in list ==> i < |list|)
  {
    if list == [] || list[0] == s then 0 else 1 + IndexOf(list[1..], s)
  }

  /** The keycode that stands for `s` while a request for `syms` runs. */
  function CodeOf(m: KeyMap, syms: seq<nat>, s: nat): nat {
    var k := m.KeyFor(s);
    var i := IndexOf(Missing(m, syms), s);
    if k.Some? then k.value.kc else if i < |m.Spare()| then m.Spare()[i] else 0
  }

  /** The keycodes a chord presses, in order. */
  function ChordCodes(m: KeyMap, syms: seq<nat>): seq<nat> {
    seq(|syms|, i requires 0 <= i < |syms| => CodeOf(m, syms, syms[i]))
  }

  lemma ChordKeys(m: KeyMap, syms: seq<nat>, bound: map<nat, Key>, i: nat)
    requires IsBinding(m, syms, bound) && i < |syms|
    ensures syms[i] in bound && bound[syms[i]].kc in KeysOf(m, syms) && bound[syms[i]].kc == CodeOf(m, syms, syms[i])
  {
    BoundKeyUsed(m, syms, bound, syms[i]);
    if m.KeyFor(syms[i]).None? {
      var missing := Missing(m, syms);
      MissingHas(m, syms);
      assert syms[i] in missing;
      assert missing[IndexOf(missing, syms[i])] == syms[i];
    }
  }

  function CodesFor(m: KeyMap, chord: Chord): seq<nat> {
    if chord.Chord? then ChordCodes(m, chord.syms) else []
  }

  /** The codes of a chord, in its order. */
  method CodesOf(ghost m: KeyMap, syms: seq<nat>, bound: map<nat, Key>) returns (codes: seq<nat>)
    requires IsBinding(m, syms, bound)
    ensures codes == ChordCodes(m, syms)
    ensures forall i :: 0 <= i < |codes| ==> codes[i] in KeysOf(m, syms)
  {
    forall i | 0 <= i < |syms|
      ensures syms[i] in bound && bound[syms[i]].kc in KeysOf(m, syms) && bound[syms[i]].kc == CodeOf(m, syms, syms[i])
    {
      ChordKeys(m, syms, bound, i);
    }
    codes := seq(|syms|, i requires 0 <= i < |syms| && syms[i] in bound => bound[syms[i]].kc);
  }

  function KeyDowns(codes: seq<nat>): seq<Msg> {
    seq(|codes|, i requires 0 <= i < |codes| => KeyMsg(codes[i], true))
  }

  /** Releases in reverse order of the presses. */
  function KeyUps(codes: seq<nat>): seq<Msg> {
    seq(|codes|, i requires 0 <= i < |codes| => KeyMsg(codes[|codes| - 1 - i], false))
  }

  function ActionButtons(a: Action): set<nat> {
    match a
    case Click(_, _, button, _) => {button}
    case Drag(_, _, _, _, button, _) => {button}
    case Scroll(_, _, _, _) => {4, 5, 6, 7}
    case _ => {}
  }

  function UsedKeys(m: KeyMap, r: Request): set<nat> {
    match r
    case Act(Chord(syms), _) => KeysOf(m, syms)
    case Key(code, _) => {code + 8}
    case Type(text) => KeysOf(m, TextSyms(text)) + (if ShiftCode(m).Some? then {ShiftCode(m).value} else {})
    case _ => {}
  }

  function UsedButtons(r: Request): set<nat> {
    match r
    case PointerButton(button, _) => {button}
    case Act(_, a) => ActionButtons(a)
    case _ => {}
  }

  /** An action with keys held around it. */
  function Around(codes: seq<nat>, a: Action, w: nat, h: nat): seq<Msg>
    requires 0 < w && 0 < h
  {
    KeyDowns(codes) + ActionMsgs(a, w, h) + KeyUps(codes)
  }

  /** What a request other than typing puts on the wire. */
  function RequestMsgs(m: KeyMap, r: Request, w: nat, h: nat): seq<Msg>
    requires 0 < w && 0 < h
  {
    match r
    case Move(x, y) => [MotionTo(x, y, w, h)]
    case PointerButton(button, down) => [ButtonMsg(button, down)]
    case Act(chord, a) => Around(CodesFor(m, chord), a, w, h)
    case Key(code, down) => [KeyMsg(code + 8, down)]
    case Wake(x, y) => [MotionTo(x + 1, y, w, h), MotionTo(x, y, w, h)]
    case Type(_) => []
  }

  lemma NoChordParts(m: KeyMap, a: Action, w: nat, h: nat)
    ensures 0 < w && 0 < h ==> RequestMsgs(m, Act(NoChord, a), w, h) == ActionMsgs(a, w, h)
  {
    if 0 < w && 0 < h {
      Alone(KeyDowns([]), ActionMsgs(a, w, h), KeyUps([]));
    }
  }

  lemma Alone<T>(a: seq<T>, b: seq<T>, c: seq<T>)
    requires |a| == |c| == 0
    ensures a + b + c == b
  {
  }

  lemma AroundParts(before: seq<Msg>, codes: seq<nat>, a: Action, w: nat, h: nat)
    ensures 0 < w && 0 < h ==>
      before + KeyDowns(codes) + ActionMsgs(a, w, h) + KeyUps(codes) == before + Around(codes, a, w, h)
  {
    if 0 < w && 0 < h {
      InFour(before, KeyDowns(codes), ActionMsgs(a, w, h), KeyUps(codes));
    }
  }

  lemma InFour<T>(a: seq<T>, b: seq<T>, c: seq<T>, d: seq<T>)
    ensures a + b + c + d == a + (b + c + d)
  {
  }

  lemma ScrollParts(before: seq<Msg>, x: int, y: int, dx: int, dy: int, w: nat, h: nat)
    requires 0 < w && 0 < h
    ensures before + [MotionTo(x, y, w, h)] + Wheel(dx, dy) == before + ActionMsgs(Scroll(x, y, dx, dy), w, h)
  {
  }

  /** The one kind of request that may leave something down. */
  predicate BarePress(r: Request) {
    (r.PointerButton? || r.Key?) && r.down
  }
}
