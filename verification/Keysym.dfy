/** Characters to keysyms, and keysyms to keycodes of the server's keyboard map.
    `Decode` is the server side: section 5 "Keyboards" of the X Window System Protocol. */
module Keysym {
  import opened Wrappers

  const NO_SYMBOL: nat := 0
  const SHIFT_L: nat := 0xffe1
  const RETURN: nat := 0xff0d
  const TAB: nat := 0xff09
  const UNICODE_BASE: nat := 0x0100_0000

  predicate IsControl(cp: int) {
    cp < 0x20 || 0x7f <= cp <= 0x9f
  }

  function CharToKeysym(ch: char): Option<nat> {
    var cp := ch as int;
    if ch == '\n' then Some(RETURN)
    else if ch == '\t' then Some(TAB)
    else if 0x20 <= cp <= 0x7e then Some(cp)
    else if IsControl(cp) then None
    else if 0xa0 <= cp <= 0xff then Some(cp)
    else Some(UNICODE_BASE + cp)
  }

  /** The character a keysym stands for: the reading side of the encoding. */
  function KeysymToChar(s: nat): Option<char> {
    if s == RETURN then Some('\n')
    else if s == TAB then Some('\t')
    else if 0x20 <= s <= 0x7e || 0xa0 <= s <= 0xff then Some(s as char)
    else if UNICODE_BASE + 0x100 <= s < UNICODE_BASE + 0xd800
         || UNICODE_BASE + 0xe000 <= s < UNICODE_BASE + 0x11_0000 then Some((s - UNICODE_BASE) as char)
    else None
  }

  /** Keysyms a text can ask for. None of them is a modifier's. */
  predicate IsTextSym(s: nat) {
    KeysymToChar(s).Some?
  }

  lemma CharRoundTrip(ch: char)
    ensures CharToKeysym(ch).None? <==> IsControl(ch as int) && ch != '\n' && ch != '\t'
    ensures CharToKeysym(ch).Some? ==> KeysymToChar(CharToKeysym(ch).value) == Some(ch)
  {
    if 0xff < ch as int {
      assert KeysymToChar(UNICODE_BASE + ch as int) == Some(ch);
    }
  }

  datatype Key = Key(kc: nat, shift: bool)

  /** GetKeyboardMapping's flat list cut into rows, one for each keycode from `min` to
      `max`. A row's first symbol is the plain one and its second is typed with Shift. */
  datatype KeyMap = KeyMap(min: nat, max: nat, per: nat, rows: seq<seq<nat>>) {

    predicate Valid() {
      min <= max && |rows| == max - min + 1 && forall i :: 0 <= i < |rows| ==> |rows[i]| == per
    }

    function SymsOf(kc: nat): seq<nat> {
      if min <= kc <= max && kc - min < |rows| then rows[kc - min] else []
    }

    /** Column `col` of `kc`, NoSymbol past the end of the row. */
    function At(kc: nat, col: nat): nat {
      var row := SymsOf(kc);
      if col < |row| then row[col] else NO_SYMBOL
    }

    predicate IsSpare(kc: nat) {
      && min <= kc <= max
      && SymsOf(kc) != []
      && forall c :: 0 <= c < |SymsOf(kc)| ==> SymsOf(kc)[c] == NO_SYMBOL
    }

    /** Spare keycodes at or below `kc`, highest first. */
    function SpareFrom(kc: nat): (r: seq<nat>)
      ensures forall k :: k in r <==> min <= k <= kc && IsSpare(k)
      ensures forall i, j :: 0 <= i < j < |r| ==> r[j] < r[i]
    {
      if kc < min then []
      else
        var rest := if kc == 0 then [] else SpareFrom(kc - 1);
        assert forall i :: 0 <= i < |rest| ==> rest[i] in rest;
        if IsSpare(kc) then [kc] + rest else rest
    }

    function Spare(): seq<nat> {
      SpareFrom(max)
    }

    /** The first keycode at or after `from` holding `s` in column `col`. */
    function FirstAt(s: nat, col: nat, from: nat): (r: Option<nat>)
      ensures r.Some? ==> from <= r.value <= max && At(r.value, col) == s
                          && forall k :: from <= k < r.value ==> At(k, col) != s
      ensures r.None? ==> forall k :: from <= k <= max ==> At(k, col) != s
      decreases max + 1 - from
    {
      if from > max then None
      else if At(from, col) == s then Some(from)
      else FirstAt(s, col, from + 1)
    }

    /** The first keycode at or after `from` holding `s` and nothing shifted. */
    function FirstLone(s: nat, from: nat): (r: Option<nat>)
      ensures r.Some? ==> from <= r.value <= max && At(r.value, 0) == s && At(r.value, 1) == NO_SYMBOL
                          && forall k :: from <= k < r.value ==> !(At(k, 0) == s && At(k, 1) == NO_SYMBOL)
      ensures r.None? ==> forall k :: from <= k <= max ==> !(At(k, 0) == s && At(k, 1) == NO_SYMBOL)
      decreases max + 1 - from
    {
      if from > max then None
      else if At(from, 0) == s && At(from, 1) == NO_SYMBOL then Some(from)
      else FirstLone(s, from + 1)
    }

    /** The key that types `s`: unshifted column first, then the shifted one, then
        an uppercase ASCII letter on a key that holds its lowercase alone. */
    function KeyFor(s: nat): Option<Key> {
      if s == NO_SYMBOL then None
      else if FirstAt(s, 0, min).Some? then Some(Key(FirstAt(s, 0, min).value, false))
      else if FirstAt(s, 1, min).Some? then Some(Key(FirstAt(s, 1, min).value, true))
      else if 0x41 <= s <= 0x5a && FirstLone(s + 0x20, min).Some? then Some(Key(FirstLone(s + 0x20, min).value, true))
      else None
    }

    /** The scan of the source: at most two columns, keycodes upwards. */
    method Lookup(s: nat) returns (r: Option<Key>)
      requires Valid()
      ensures r == KeyFor(s)
    {
      if s == NO_SYMBOL { return None; }
      var col := 0;
      while col < per && col < 2
        invariant 0 <= col <= 2 && col <= per
        invariant forall c, k :: 0 <= c < col && min <= k <= max ==> At(k, c) != s
      {
        var kc := min;
        while kc <= max
          invariant min <= kc <= max + 1
          invariant forall k :: min <= k < kc ==> At(k, col) != s
        {
          assert At(kc, col) == SymsOf(kc)[col];
          if SymsOf(kc)[col] == s { return Some(Key(kc, col == 1)); }
          kc := kc + 1;
        }
        col := col + 1;
      }
      if 0x41 <= s <= 0x5a {
        var lower := s + 0x20;
        var kc := min;
        while kc <= max
          invariant min <= kc <= max + 1
          invariant forall k :: min <= k < kc ==> !(At(k, 0) == lower && At(k, 1) == NO_SYMBOL)
        {
          var row := SymsOf(kc);
          if |row| > 0 && row[0] == lower && (|row| <= 1 || row[1] == NO_SYMBOL) {
            assert At(kc, 0) == lower && At(kc, 1) == NO_SYMBOL;
            assert forall k :: min <= k <= max ==> At(k, 0) != s && At(k, 1) != s;
            return Some(Key(kc, true));
          }
          kc := kc + 1;
        }
      }
      return None;
    }

    /** ChangeKeyboardMapping of one keycode: the row is padded with NoSymbol, and
        every other row too when the new one is wider. */
    function WithRow(kc: nat, row: seq<nat>): KeyMap
      requires Valid() && min <= kc <= max
    {
      var w := if |row| > per then |row| else per;
      KeyMap(min, max, w, seq(|rows|, i requires 0 <= i < |rows| => Pad(if i == kc - min then row else rows[i], w)))
    }
  }

  /** The keycode of row `i` is spare when every symbol of the row, one at least, is 0; no
      other keycode is. */
  lemma SpareMeans(m: KeyMap, i: nat)
    requires m.Valid()
    ensures m.min + i in m.Spare() <==> i < |m.rows| && 1 <= m.per && forall c :: 0 <= c < m.per ==> m.rows[i][c] == 0
    ensures forall kc :: kc in m.Spare() ==> m.min <= kc <= m.max
  {
  }

  function Pad(row: seq<nat>, w: nat): (r: seq<nat>)
    requires |row| <= w
    ensures |r| == w
    ensures forall c :: 0 <= c < w ==> r[c] == if c < |row| then row[c] else NO_SYMBOL
  {
    row + seq(w - |row|, _ => NO_SYMBOL)
  }

  /** `m'` is `m` with the row of `kc` set to `row`. */
  ghost predicate RowSet(m: KeyMap, m': KeyMap, kc: nat, row: seq<nat>) {
    && m'.Valid() && m'.min == m.min && m'.max == m.max
    && m'.per == (if |row| > m.per then |row| else m.per)
    && (forall c: nat :: m'.At(kc, c) == if c < |row| then row[c] else NO_SYMBOL)
    && (forall k: nat, c: nat :: k != kc ==> m'.At(k, c) == m.At(k, c))
  }

  lemma RowOfKey(m: KeyMap, kc: nat, row: seq<nat>, k: nat)
    requires m.Valid() && m.min <= kc <= m.max && m.min <= k <= m.max
    ensures var m' := m.WithRow(kc, row); m'.SymsOf(k) == Pad(if k == kc then row else m.SymsOf(k), m'.per)
  {
  }

  lemma SymbolOfKey(m: KeyMap, kc: nat, row: seq<nat>, k: nat, c: nat)
    requires m.Valid() && m.min <= kc <= m.max
    ensures m.WithRow(kc, row).At(k, c) == if k == kc then (if c < |row| then row[c] else NO_SYMBOL) else m.At(k, c)
  {
    if m.min <= k <= m.max {
      RowOfKey(m, kc, row, k);
    }
  }

  /** Rebinding one keycode writes its row and leaves every other symbol. */
  lemma WithRowAt(m: KeyMap, kc: nat, row: seq<nat>)
    requires m.Valid() && m.min <= kc <= m.max
    ensures RowSet(m, m.WithRow(kc, row), kc, row)
  {
    forall k: nat, c: nat
      ensures m.WithRow(kc, row).At(k, c) == if k == kc then (if c < |row| then row[c] else NO_SYMBOL) else m.At(k, c)
    {
      SymbolOfKey(m, kc, row, k, c);
    }
  }

  ghost predicate SameSymbols(a: KeyMap, b: KeyMap) {
    a.min == b.min && a.max == b.max && forall k: nat, c: nat :: a.At(k, c) == b.At(k, c)
  }

  /** Maps of one width with the same symbols are the same value. */
  lemma SameSymbolsEqual(a: KeyMap, b: KeyMap)
    requires a.Valid() && b.Valid() && SameSymbols(a, b) && a.per == b.per
    ensures a == b
  {
    forall i: nat | i < |a.rows| ensures a.rows[i] == b.rows[i] {
      forall c: nat | c < a.per ensures a.rows[i][c] == b.rows[i][c] {
        assert a.At(i + a.min, c) == b.At(i + a.min, c);
      }
    }
  }

  /** Looking a key up depends on the symbols only. */
  lemma KeyForSame(a: KeyMap, b: KeyMap, s: nat)
    requires SameSymbols(a, b)
    ensures a.KeyFor(s) == b.KeyFor(s)
  {
  }

  // ---------- the server's reading ----------

  /** Lowercase keysym to uppercase keysym, for every letter that has both. */
  type CaseTable = map<nat, nat>

  ghost predicate ValidCases(cases: CaseTable) {
    && (forall l :: 0x61 <= l <= 0x7a ==> l in cases && cases[l] == l - 0x20)
    && cases.Keys !! cases.Values
    && (forall l :: l in cases ==> l != NO_SYMBOL && cases[l] != NO_SYMBOL)
    && (forall l, k :: l in cases && k in cases && cases[l] == cases[k] ==> l == k)
  }

  ghost predicate IsUpper(cases: CaseTable, s: nat) {
    exists l :: l in cases && cases[l] == s
  }

  ghost function LowerOf(cases: CaseTable, s: nat): nat
    requires IsUpper(cases, s)
  {
    var l :| l in cases && cases[l] == s; l
  }

  /** The two symbols of group 1 of a row. */
  ghost function Group1(k1: nat, k2: nat, cases: CaseTable): (nat, nat) {
    if k2 != NO_SYMBOL then (k1, k2)
    else if k1 in cases then (k1, cases[k1])
    else if IsUpper(cases, k1) then (LowerOf(cases, k1), k1)
    else (k1, k1)
  }

  /** The keysym of a KeyPress of `kc` with only Shift on or nothing. */
  ghost function Decode(m: KeyMap, kc: nat, shift: bool, cases: CaseTable): nat {
    var g := Group1(m.At(kc, 0), m.At(kc, 1), cases);
    if shift then g.1 else g.0
  }

  /** A row whose group 1 is one uppercase letter and nothing else. */
  ghost predicate LoneUpper(m: KeyMap, kc: nat, cases: CaseTable) {
    IsUpper(cases, m.At(kc, 0)) && m.At(kc, 1) == NO_SYMBOL
  }

  /** The key looked up for a symbol types that symbol, except the unshifted
      key of a lone uppercase letter, which types the lowercase one. */
  lemma LookupDecodes(m: KeyMap, s: nat, cases: CaseTable)
    requires ValidCases(cases) && m.KeyFor(s).Some?
    ensures var k := m.KeyFor(s).value;
            Decode(m, k.kc, k.shift, cases) == s <==> !(LoneUpper(m, k.kc, cases) && !k.shift)
  {
    var k := m.KeyFor(s).value;
    if k.shift && m.At(k.kc, 1) != s {
      assert s + 0x20 in cases && cases[s + 0x20] == s;
    }
    if LoneUpper(m, k.kc, cases) && !k.shift {
      assert LowerOf(cases, s) in cases.Keys && s in cases.Values;
    }
  }

  /** The failing family is not empty: a layout with a lone "A" types "a" for it. */
  lemma LoneUpperTypesLower(cases: CaseTable)
    requires ValidCases(cases)
    ensures var m := KeyMap(10, 11, 2, [[0x41, 0], [0, 0]]);
            && m.Valid() && m.KeyFor(0x41) == Some(Key(10, false))
            && Decode(m, 10, false, cases) == 0x61
  {
    var m := KeyMap(10, 11, 2, [[0x41, 0], [0, 0]]);
    assert m.SymsOf(10) == [0x41, 0];
    assert cases[0x61] == 0x41;
    assert 0x41 in cases.Values;
    assert LowerOf(cases, 0x41) == 0x61;
  }
}
