/** The writer itself: bytes appended to the file as access units come, and the index on
    `Finish`. */
module Mp4Writer {
  import opened Wrappers
  import opened IsoBoxes
  import opened AnnexB
  import opened Mp4

  /** `boxed`. */
  method Boxed(kind: Bytes, body: Bytes) returns (v: Bytes)
    ensures v == Print(Box(kind, body))
  {
    v := [];
    v := v + Be32(8 + |body|);
    v := v + kind;
    v := v + body;
  }

  /** The sizes, offsets and sync samples as table bytes. */
  method Table32Of(xs: seq<nat>) returns (v: Bytes)
    ensures v == Words32(xs)
  {
    v := [];
    for k := 0 to |xs|
      invariant v == Words32(xs[..k])
    {
      assert xs[..k + 1][..k] == xs[..k];
      v := v + Be32(xs[k]);
    }
    assert xs[..|xs|] == xs;
  }

  method Table64Of(xs: seq<nat>) returns (v: Bytes)
    ensures v == Words64(xs)
  {
    v := [];
    for k := 0 to |xs|
      invariant v == Words64(xs[..k])
    {
      assert xs[..k + 1][..k] == xs[..k];
      v := v + Be64(xs[k]);
    }
    assert xs[..|xs|] == xs;
  }

  /** What one unit adds to its sample. */
  function UnitBytes(nal: Bytes): Bytes {
    if NalType(nal) in {7, 8, 9} then [] else Be32(|nal|) + nal
  }

  lemma OneMoreUnit(nals: seq<Bytes>, k: nat)
    requires k < |nals|
    ensures Packed(Media(nals[..k + 1])) == Packed(Media(nals[..k])) + UnitBytes(nals[k])
  {
    assert nals[..k + 1][..k] == nals[..k];
    var m := Media(nals[..k]);
    if NalType(nals[k]) in {7, 8, 9} {
      assert m + [] == m && Packed(m) + [] == Packed(m);
    } else {
      assert (m + [nals[k]])[..|m|] == m;
      Assoc(Packed(m), Be32(|nals[k]|), nals[k]);
    }
  }

  lemma OneMoreSet(kept: Option<Bytes>, nals: seq<Bytes>, kind: nat, k: nat)
    requires k < |nals|
    ensures FirstOf(kept, nals[..k + 1], kind)
      == if FirstOf(kept, nals[..k], kind).None? && NalType(nals[k]) == kind then Some(nals[k]) else FirstOf(kept, nals[..k], kind)
  {
    assert nals[..k + 1][..k] == nals[..k];
  }

  lemma OneMoreKey(nals: seq<Bytes>, k: nat)
    requires k < |nals|
    ensures HasKey(nals[..k + 1]) <==> HasKey(nals[..k]) || NalType(nals[k]) == 5
  {
    assert nals[..k + 1][k] == nals[k];
    forall i | 0 <= i < k ensures nals[..k + 1][i] == nals[..k][i] {
    }
  }

  lemma Wraps(a: nat, b: nat)
    ensures (a % U32 + b) % U32 == (a + b) % U32
  {
  }

  /** A sample's size as 32 bits hold it. */
  function SizeOf(nals: seq<Bytes>): nat {
    |Packed(Media(nals))| % U32
  }

  lemma SizeStep(before: Bytes, more: Bytes)
    ensures |before + more| % U32 == (|before| % U32 + |more|) % U32
  {
    Wraps(|before|, |more|);
  }

  /** The bytes after the first `k` units of an access unit, and their number. */
  predicate AddedBytes(before: Track, nals: seq<Bytes>, k: nat, out: Bytes, size: nat)
    requires k <= |nals|
  {
    out == before.out + Packed(Media(nals[..k])) && size == SizeOf(nals[..k])
  }

  /** The parameter sets then, and whether a sync unit came. */
  predicate AddedSets(before: Track, nals: seq<Bytes>, k: nat, sps: Option<Bytes>, pps: Option<Bytes>, key: bool)
    requires k <= |nals|
  {
    && sps == FirstOf(before.sps, nals[..k], 7) && pps == FirstOf(before.pps, nals[..k], 8)
    && (key <==> HasKey(nals[..k]))
  }

  predicate Added(before: Track, nals: seq<Bytes>, k: nat, out: Bytes, sps: Option<Bytes>, pps: Option<Bytes>, key: bool, size: nat)
    requires k <= |nals|
  {
    AddedBytes(before, nals, k, out, size) && AddedSets(before, nals, k, sps, pps, key)
  }

  lemma BytesOne(before: Track, nals: seq<Bytes>, k: nat, out: Bytes, size: nat, more: Bytes)
    requires k < |nals| && more == UnitBytes(nals[k]) && AddedBytes(before, nals, k, out, size)
    ensures AddedBytes(before, nals, k + 1, out + more, (size + |more|) % U32)
  {
    var packed := Packed(Media(nals[..k]));
    OneMoreUnit(nals, k);
    SizeStep(packed, more);
    Assoc(before.out, packed, more);
  }

  lemma SetsOne(before: Track, nals: seq<Bytes>, k: nat, sps: Option<Bytes>, pps: Option<Bytes>, key: bool, kind: nat)
    requires k < |nals| && kind == NalType(nals[k]) && AddedSets(before, nals, k, sps, pps, key)
    ensures AddedSets(before, nals, k + 1, if sps.None? && kind == 7 then Some(nals[k]) else sps,
                      if pps.None? && kind == 8 then Some(nals[k]) else pps, key || kind == 5)
  {
    OneMoreSet(before.sps, nals, 7, k);
    OneMoreSet(before.pps, nals, 8, k);
    OneMoreKey(nals, k);
  }

  lemma AddedOne(before: Track, nals: seq<Bytes>, k: nat, out: Bytes, sps: Option<Bytes>, pps: Option<Bytes>, key: bool, size: nat,
                 nal: Bytes)
    requires k < |nals| && nal == nals[k] && nal != [] && Added(before, nals, k, out, sps, pps, key, size)
    ensures Added(before, nals, k + 1, out + UnitBytes(nal),
                  if sps.None? && NalType(nal) == 7 then Some(nal) else sps,
                  if pps.None? && NalType(nal) == 8 then Some(nal) else pps,
                  key || NalType(nal) == 5, (size + |UnitBytes(nal)|) % U32)
  {
    BytesOne(before, nals, k, out, size, UnitBytes(nal));
    SetsOne(before, nals, k, sps, pps, key, NalType(nal));
  }

  lemma AddedNone(before: Track, nals: seq<Bytes>)
    ensures Added(before, nals, 0, before.out, before.sps, before.pps, false, 0)
  {
    assert before.out + [] == before.out;
  }

  lemma Patch(out: Bytes, moov: Bytes, size: Bytes)
    requires |out| >= 48 && |size| == 8
    ensures (out + moov)[..40] + size + (out + moov)[48..] == out[..40] + size + out[48..] + moov
  {
  }

  lemma SplitNonempty(b: Bytes)
    ensures forall k :: 0 <= k < |NalUnits(b)| ==> NalUnits(b)[k] != []
  {
    NalUnitsProper(b);
  }

  /** The outcome of a write by what its units added. */
  function Outcome(t: Track, out: Bytes, sps: Option<Bytes>, pps: Option<Bytes>, key: bool, size: nat): (Track, bool) {
    var written := t.(out := out, sps := sps, pps := pps);
    if size == 0 then (written, true)
    else if sps.None? && t.sizes == [] then (written, false)
    else (written.(pos := t.pos + size, sizes := t.sizes + [size], offsets := t.offsets + [t.pos],
                   keys := t.keys + if key then [(|t.sizes| + 1) % U32] else []), true)
  }

  lemma WriteIs(t: Track, nals: seq<Bytes>, out: Bytes, sps: Option<Bytes>, pps: Option<Bytes>, key: bool, size: nat)
    requires Added(t, nals, |nals|, out, sps, pps, key, size)
    ensures Write(t, nals) == Outcome(t, out, sps, pps, key, size)
  {
    assert nals[..|nals|] == nals;
  }

  lemma MinfIs(t: Track, s: Bytes, p: Bytes, stbl: Bytes)
    requires |s| >= 4 && stbl == PrintAll(StblBoxes(t, s, p))
    ensures Print(Full(VMHD, 1, Zeros(8))) + Print(Box(DINF, Print(DrefBox()))) + Print(Box(STBL, stbl)) == PrintAll(MinfBoxes(t, s, p))
  {
    PrintThree(MinfBoxes(t, s, p));
  }

  lemma MdiaIs(t: Track, s: Bytes, p: Bytes, minf: Bytes)
    requires |s| >= 4 && minf == PrintAll(MinfBoxes(t, s, p))
    ensures Print(Full(MDHD, 0, Mdhd(t))) + Print(Full(HDLR, 0, Hdlr())) + Print(Box(MINF, minf)) == PrintAll(MdiaBoxes(t, s, p))
  {
    PrintThree(MdiaBoxes(t, s, p));
  }

  lemma TrakIs(t: Track, s: Bytes, p: Bytes, mdia: Bytes)
    requires |s| >= 4 && t.fps > 0 && mdia == PrintAll(MdiaBoxes(t, s, p))
    ensures Print(Full(TKHD, 3, Tkhd(t))) + Print(Box(MDIA, mdia)) == PrintAll(TrakBoxes(t, s, p))
  {
    PrintTwo(TrakBoxes(t, s, p));
  }

  lemma MoovIs(t: Track, s: Bytes, p: Bytes, trak: Bytes)
    requires |s| >= 4 && t.fps > 0 && trak == PrintAll(TrakBoxes(t, s, p))
    ensures Print(Full(MVHD, 0, Mvhd(t))) + Print(Box(TRAK, trak)) == PrintAll(MoovBoxes(t, s, p))
  {
    PrintTwo(MoovBoxes(t, s, p));
  }

  class Writer {
    var out: Bytes
    const width: nat
    const height: nat
    const fps: nat
    var pos: nat
    var sps: Option<Bytes>
    var pps: Option<Bytes>
    var sizes: seq<nat>
    var offsets: seq<nat>
    var keys: seq<nat>

    function View(): Track
      reads this
    {
      Track(out, width, height, fps, pos, sps, pps, sizes, offsets, keys)
    }

    predicate Valid()
      reads this
    {
      Begun(View())
    }

    constructor (width: nat, height: nat, fps: nat)
      ensures Valid() && View() == Created(width, height, fps)
    {
      this.width, this.height, this.fps := width, height, if fps == 0 then 1 else fps;
      out := Print(FtypBox()) + Be32(1) + MDAT + Be64(0);
      pos := MDAT_START + 16;
      sps, pps := None, None;
      sizes, offsets, keys := [], [], [];
    }

    /** One unit of an access unit: a parameter set to keep, or bytes of the sample. */
    method AddNal(nal: Bytes, size: nat) returns (total: nat)
      requires Valid() && nal != []
      modifies this`out, this`sps, this`pps
      ensures out == old(out) + UnitBytes(nal) && total == (size + |UnitBytes(nal)|) % U32
      ensures sps == if old(sps).None? && NalType(nal) == 7 then Some(nal) else old(sps)
      ensures pps == if old(pps).None? && NalType(nal) == 8 then Some(nal) else old(pps)
    {
      total := size % U32;
      match nal[0] % 0x20 {
        case 7 =>
          if sps.None? {
            sps := Some(nal);
          }
        case 8 =>
          if pps.None? {
            pps := Some(nal);
          }
        case 9 =>
        case _ =>
          ghost var before := out;
          out := out + Be32(|nal|);
          out := out + nal;
          Assoc(before, Be32(|nal|), nal);
          total := (size + 4 + |nal|) % U32;
      }
    }

    /** All units of an access unit, in order. */
    method AddNals(nals: seq<Bytes>) returns (size: nat, key: bool)
      requires Valid() && forall k :: 0 <= k < |nals| ==> nals[k] != []
      modifies this`out, this`sps, this`pps
      ensures Write(old(View()), nals) == Outcome(old(View()), out, sps, pps, key, size)
    {
      ghost var before := View();
      size, key := 0, false;
      AddedNone(before, nals);
      for k := 0 to |nals|
        invariant Valid() && Added(before, nals, k, out, sps, pps, key, size)
      {
        var nal := nals[k];
        AddedOne(before, nals, k, out, sps, pps, key, size, nal);
        key := key || nal[0] % 0x20 == 5;
        size := AddNal(nal, size);
      }
      WriteIs(before, nals, out, sps, pps, key, size);
    }

    /** The next sample: an access unit split, its samples packed, its parameter sets kept. */
    method WriteAnnexB(au: Bytes) returns (ok: bool)
      requires Valid()
      modifies this
      ensures Valid() && (View(), ok) == Write(old(View()), NalUnits(au))
    {
      var nals := SplitNals(au);
      SplitNonempty(au);
      var offset := pos;
      var size, key := AddNals(nals);
      if size == 0 {
        return true;
      }
      if sps.None? && sizes == [] {
        return false;
      }
      pos := pos + size;
      sizes := sizes + [size];
      offsets := offsets + [offset];
      assert keys + [] == keys;
      if key {
        keys := keys + [|sizes| % U32];
      }
      ok := true;
    }

    /** Patch the media data's size and append the index. */
    method Finish() returns (ok: bool)
      requires Valid()
      modifies this
      ensures ok <==> Finished(old(View())).Some?
      ensures ok ==> Finished(old(View())) == Some(out)
    {
      if sps.None? || pps.None? || |sps.value| < 4 {
        return false;
      }
      var moov := BuildMoov(sps.value, pps.value);
      Patch(out, moov, Be64(pos - MDAT_START));
      out := out + moov;
      out := out[..MDAT_START + 8] + Be64(pos - MDAT_START) + out[MDAT_START + 16..];
      ok := true;
    }

    /** The index, its innermost boxes first. */
    method BuildMoov(s: Bytes, p: Bytes) returns (moov: Bytes)
      requires Valid() && |s| >= 4
      ensures moov == Print(Moov(View(), s, p))
    {
      var t := View();
      var body := BuildMdia(s, p);
      body := Boxed(MDIA, body);
      body := Print(Full(TKHD, 3, Tkhd(t))) + body;
      TrakIs(t, s, p, PrintAll(MdiaBoxes(t, s, p)));
      body := Boxed(TRAK, body);
      body := Print(Full(MVHD, 0, Mvhd(t))) + body;
      MoovIs(t, s, p, PrintAll(TrakBoxes(t, s, p)));
      moov := Boxed(MOOV, body);
    }

    /** The media's boxes. */
    method BuildMdia(s: Bytes, p: Bytes) returns (mdia: Bytes)
      requires Valid() && |s| >= 4
      ensures mdia == PrintAll(MdiaBoxes(View(), s, p))
    {
      var t := View();
      var stbl := BuildStbl(s, p);
      var body := Boxed(STBL, stbl);
      body := Print(Full(VMHD, 1, Zeros(8))) + Print(Box(DINF, Print(DrefBox()))) + body;
      MinfIs(t, s, p, stbl);
      body := Boxed(MINF, body);
      mdia := Print(Full(MDHD, 0, Mdhd(t))) + Print(Full(HDLR, 0, Hdlr())) + body;
      MdiaIs(t, s, p, PrintAll(MinfBoxes(t, s, p)));
    }

    /** The sample table's boxes. */
    method BuildStbl(s: Bytes, p: Bytes) returns (stbl: Bytes)
      requires Valid() && |s| >= 4
      ensures stbl == PrintAll(StblBoxes(View(), s, p))
    {
      var t := View();
      var n := |sizes|;
      var stss := Table32Of(keys);
      var stsz := Table32Of(sizes);
      var co64 := Table64Of(offsets);
      stbl := Print(Full(STSD, 0, Stsd(t, s, p)));
      stbl := stbl + Print(Full(STTS, 0, Be32(1) + Be32(n) + Be32(1000)));
      stbl := stbl + Print(Full(STSS, 0, Be32(|keys|) + stss));
      stbl := stbl + Print(Full(STSC, 0, Be32(1) + Be32(1) + Be32(1) + Be32(1)));
      stbl := stbl + Print(Full(STSZ, 0, Be32(0) + Be32(n) + stsz));
      stbl := stbl + Print(Full(CO64, 0, Be32(n) + co64));
      PrintSix(StblBoxes(t, s, p));
    }
  }

  lemma PrintTwo(b: seq<Box>)
    requires |b| == 2
    ensures PrintAll(b) == Print(b[0]) + Print(b[1])
  {
    var t := b[1..];
    assert PrintAll(t) == Print(t[0]) + PrintAll(t[1..]);
    assert Print(b[1]) + [] == Print(b[1]);
  }

  lemma PrintThree(b: seq<Box>)
    requires |b| == 3
    ensures PrintAll(b) == Print(b[0]) + Print(b[1]) + Print(b[2])
  {
    PrintTwo(b[1..]);
    Assoc(Print(b[0]), Print(b[1]), Print(b[2]));
  }

  lemma PrintSix(b: seq<Box>)
    requires |b| == 6
    ensures PrintAll(b) == Print(b[0]) + Print(b[1]) + Print(b[2]) + Print(b[3]) + Print(b[4]) + Print(b[5])
  {
    var c := b[1..];
    PrintFive(c);
    Five(Print(b[0]), Print(c[0]), Print(c[1]), Print(c[2]), Print(c[3]), Print(c[4]));
  }

  lemma PrintFive(b: seq<Box>)
    requires |b| == 5
    ensures PrintAll(b) == Print(b[0]) + Print(b[1]) + Print(b[2]) + Print(b[3]) + Print(b[4])
  {
    var c := b[1..];
    var d := c[1..];
    PrintThree(d);
    assert PrintAll(c) == Print(c[0]) + PrintAll(d);
    Four(Print(b[0]), Print(c[0]), Print(d[0]), Print(d[1]), Print(d[2]));
  }

  lemma Four(a: Bytes, b: Bytes, c: Bytes, d: Bytes, e: Bytes)
    ensures a + (b + (c + d + e)) == a + b + c + d + e
  {
  }

  lemma Five(a: Bytes, b: Bytes, c: Bytes, d: Bytes, e: Bytes, f: Bytes)
    ensures a + (b + c + d + e + f) == a + b + c + d + e + f
  {
  }
}
