/** Reading a finished file back, with the parser of `IsoBoxes` alone, and what it finds. */
module Mp4Reader {
  import opened Wrappers
  import opened Arith
  import opened IsoBoxes
  import opened AnnexB
  import opened Mp4

  datatype Movie = Movie(sps: Bytes, pps: Bytes, samples: seq<seq<Bytes>>, keys: seq<nat>)

  // ---------- the reader ----------

  /** The first box of a kind in a body that boxes tile. */
  function Child(body: Option<Bytes>, kind: Bytes): Option<Bytes> {
    if body.None? || Parse(body.value).None? then None else Find(Parse(body.value).value, kind)
  }

  /** The body of a box inside another one, behind that one's own `skip` bytes. */
  function Inside(body: Option<Bytes>, skip: nat, kind: Bytes): Option<Bytes> {
    if body.None? || |body.value| < skip then None else Child(Some(body.value[skip..]), kind)
  }

  function SampleTable(file: Bytes): Option<Bytes> {
    Child(Child(Child(Child(Child(Some(file), MOOV), TRAK), MDIA), MINF), STBL)
  }

  function Count32(body: Option<Bytes>, at: nat): Option<seq<nat>> {
    if body.None? || |body.value| < at + 4 then None else Table32(body.value, at + 4, Read32(body.value, at))
  }

  function Count64(body: Option<Bytes>, at: nat): Option<seq<nat>> {
    if body.None? || |body.value| < at + 4 then None else Table64(body.value, at + 4, Read32(body.value, at))
  }

  /** The sizes of the samples (section 8.7.3 of ISO/IEC 14496-12): one for all if it is not
      0, else a table. */
  function SampleSizes(stsz: Option<Bytes>): Option<seq<nat>> {
    if stsz.None? || |stsz.value| < 12 then None
    else if Read32(stsz.value, 4) != 0 then Some(seq(Read32(stsz.value, 8), _ => Read32(stsz.value, 4)))
    else Count32(stsz, 8)
  }

  /** A run of chunks of as many samples each, from chunk `first` on, counted from 1
      (section 8.7.4). */
  datatype ChunkRun = ChunkRun(first: nat, samples: nat, entry: nat)

  function ChunkRuns(stsc: Option<Bytes>): Option<seq<ChunkRun>> {
    if stsc.None? || |stsc.value| < 8 then None
    else
      var words := Table32(stsc.value, 8, 3 * Read32(stsc.value, 4));
      if words.None? then None else Some(Triples(words.value))
  }

  function Triples(words: seq<nat>): seq<ChunkRun> {
    seq(|words| / 3, k requires 0 <= k < |words| / 3 => ChunkRun(words[3 * k], words[3 * k + 1], words[3 * k + 2]))
  }

  /** The run a chunk is in: the last that has begun. */
  function RunOf(runs: seq<ChunkRun>, chunk: nat): ChunkRun {
    if runs == [] then ChunkRun(0, 0, 0)
    else if runs[|runs| - 1].first <= chunk then runs[|runs| - 1]
    else RunOf(runs[..|runs| - 1], chunk)
  }

  /** The chunk sample `k` is in and that chunk's first sample, searched from a chunk and its
      first sample on. */
  function ChunkFor(runs: seq<ChunkRun>, chunks: nat, k: nat, chunk: nat, first: nat): Option<(nat, nat)>
    decreases chunks - chunk
  {
    if chunk >= chunks || k < first then None
    else if k < first + RunOf(runs, chunk + 1).samples then Some((chunk, first))
    else ChunkFor(runs, chunks, k, chunk + 1, first + RunOf(runs, chunk + 1).samples)
  }

  /** The bytes of samples `from` to `to`. */
  function SizesBetween(sizes: seq<nat>, from: nat, to: nat): nat
    requires from <= to <= |sizes|
  {
    if from == to then 0 else SizesBetween(sizes, from, to - 1) + sizes[to - 1]
  }

  /** A sample lies in its chunk behind the samples before it there. */
  function OffsetOf(runs: seq<ChunkRun>, offsets: seq<nat>, sizes: seq<nat>, k: nat): Option<nat>
    requires k < |sizes|
  {
    match ChunkFor(runs, |offsets|, k, 0, 0)
    case None => None
    case Some((chunk, first)) =>
      if chunk < |offsets| && first <= k && RunOf(runs, chunk + 1).entry == 1 then
        Some(offsets[chunk] + SizesBetween(sizes, first, k))
      else None
  }

  function Sample(file: Bytes, offset: nat, size: nat): Option<seq<Bytes>> {
    if offset + size > |file| then None else Unpack(file[offset..offset + size])
  }

  /** The first `n` samples, each where its chunk, the sizes and the offsets say. */
  function Samples(file: Bytes, runs: seq<ChunkRun>, offsets: seq<nat>, sizes: seq<nat>, n: nat): Option<seq<seq<Bytes>>>
    requires n <= |sizes|
  {
    if n == 0 then Some([])
    else
      var before := Samples(file, runs, offsets, sizes, n - 1);
      var at := OffsetOf(runs, offsets, sizes, n - 1);
      if before.None? || at.None? || Sample(file, at.value, sizes[n - 1]).None? then None
      else Some(before.value + [Sample(file, at.value, sizes[n - 1]).value])
  }

  /** The two parameter sets of a decoder configuration record (section 5.3.3.1 of ISO/IEC
      14496-15): version 1, the profile of the first set, lengths of 4 bytes, one set each. */
  function ParameterSets(avcc: Option<Bytes>): Option<(Bytes, Bytes)> {
    if avcc.None? || |avcc.value| < 8 || avcc.value[0] != 1 || avcc.value[4] % 4 != 3 || avcc.value[5] % 0x20 != 1 then None
    else
      var b := avcc.value;
      var n := Read16(b, 6);
      if n < 4 || |b| < 8 + n + 3 || b[1..4] != b[9..12] || b[8 + n] != 1 then None
      else
        var m := Read16(b, 9 + n);
        if |b| != 11 + n + m then None else Some((b[8..8 + n], b[11 + n..]))
  }

  function ReadMovie(file: Bytes): Option<Movie> {
    var stbl := SampleTable(file);
    var sizes, offsets, keys := SampleSizes(Child(stbl, STSZ)), Count64(Child(stbl, CO64), 4), Count32(Child(stbl, STSS), 4);
    var runs := ChunkRuns(Child(stbl, STSC));
    var sets := ParameterSets(Inside(Inside(Child(stbl, STSD), 8, AVC1), 78, AVCC));
    if sizes.None? || offsets.None? || keys.None? || runs.None? || sets.None? then None
    else
      var samples := Samples(file, runs.value, offsets.value, sizes.value, |sizes.value|);
      if samples.None? then None else Some(Movie(sets.value.0, sets.value.1, samples.value, keys.value))
  }

  // ---------- the index ----------

  predicate Kinds(boxes: seq<Box>) {
    forall k :: 0 <= k < |boxes| ==> |boxes[k].kind| == 4
  }

  lemma AllSmall(boxes: seq<Box>)
    requires Kinds(boxes) && |PrintAll(boxes)| < U32
    ensures forall k :: 0 <= k < |boxes| ==> Small(boxes[k]) && |boxes[k].body| < |PrintAll(boxes)|
  {
    forall k | 0 <= k < |boxes| ensures Small(boxes[k]) && |boxes[k].body| < |PrintAll(boxes)| {
      PrintAllLength(boxes, k);
    }
  }

  /** Boxes printed one after the other are found again. */
  lemma ChildOf(boxes: seq<Box>, k: nat)
    requires Kinds(boxes) && |PrintAll(boxes)| < U32
    requires k < |boxes| && forall j :: 0 <= j < k ==> boxes[j].kind != boxes[k].kind
    ensures Child(Some(PrintAll(boxes)), boxes[k].kind) == Some(boxes[k].body)
    ensures |boxes[k].body| < |PrintAll(boxes)|
  {
    AllSmall(boxes);
    ParsePrintAll(boxes, []);
    assert PrintAll(boxes) + [] == PrintAll(boxes) && boxes + [] == boxes;
    FindIs(boxes, boxes[k].kind, k);
  }

  lemma ChildOfOne(box: Box)
    requires |box.kind| == 4 && |Print(box)| < U32
    ensures Child(Some(Print(box)), box.kind) == Some(box.body)
  {
    assert PrintAll([box]) == Print(box);
    ChildOf([box], 0);
  }

  lemma TrakIn(t: Track, sps: Bytes, pps: Bytes)
    requires |sps| >= 4 && t.fps > 0 && |PrintAll(MoovBoxes(t, sps, pps))| < U32
    ensures Child(Some(PrintAll(MoovBoxes(t, sps, pps))), TRAK) == Some(PrintAll(TrakBoxes(t, sps, pps)))
    ensures |PrintAll(TrakBoxes(t, sps, pps))| < U32
  {
    ChildOf(MoovBoxes(t, sps, pps), 1);
  }

  lemma MdiaIn(t: Track, sps: Bytes, pps: Bytes)
    requires |sps| >= 4 && t.fps > 0 && |PrintAll(TrakBoxes(t, sps, pps))| < U32
    ensures Child(Some(PrintAll(TrakBoxes(t, sps, pps))), MDIA) == Some(PrintAll(MdiaBoxes(t, sps, pps)))
    ensures |PrintAll(MdiaBoxes(t, sps, pps))| < U32
  {
    ChildOf(TrakBoxes(t, sps, pps), 1);
  }

  lemma MinfIn(t: Track, sps: Bytes, pps: Bytes)
    requires |sps| >= 4 && |PrintAll(MdiaBoxes(t, sps, pps))| < U32
    ensures Child(Some(PrintAll(MdiaBoxes(t, sps, pps))), MINF) == Some(PrintAll(MinfBoxes(t, sps, pps)))
    ensures |PrintAll(MinfBoxes(t, sps, pps))| < U32
  {
    ChildOf(MdiaBoxes(t, sps, pps), 2);
  }

  lemma StblIn(t: Track, sps: Bytes, pps: Bytes)
    requires |sps| >= 4 && |PrintAll(MinfBoxes(t, sps, pps))| < U32
    ensures Child(Some(PrintAll(MinfBoxes(t, sps, pps))), STBL) == Some(PrintAll(StblBoxes(t, sps, pps)))
    ensures |PrintAll(StblBoxes(t, sps, pps))| < U32
  {
    ChildOf(MinfBoxes(t, sps, pps), 2);
  }

  /** The index holds the sample table at the end of its path of boxes. */
  lemma IndexPath(t: Track, sps: Bytes, pps: Bytes)
    requires |sps| >= 4 && t.fps > 0 && |Moov(t, sps, pps).body| < U32
    ensures Child(Child(Child(Child(Some(Moov(t, sps, pps).body), TRAK), MDIA), MINF), STBL)
      == Some(PrintAll(StblBoxes(t, sps, pps)))
    ensures |PrintAll(StblBoxes(t, sps, pps))| < U32
  {
    TrakIn(t, sps, pps);
    MdiaIn(t, sps, pps);
    MinfIn(t, sps, pps);
    StblIn(t, sps, pps);
  }

  // ---------- the tables in it ----------

  lemma SizesIn(t: Track, sps: Bytes, pps: Bytes)
    requires |sps| >= 4 && |PrintAll(StblBoxes(t, sps, pps))| < U32
    requires |t.sizes| < U32 && forall k :: 0 <= k < |t.sizes| ==> t.sizes[k] < U32
    ensures SampleSizes(Child(Some(PrintAll(StblBoxes(t, sps, pps))), STSZ)) == Some(t.sizes)
  {
    ChildOf(StblBoxes(t, sps, pps), 4);
    SizesBody(t.sizes);
  }

  lemma SizesBody(sizes: seq<nat>)
    requires |sizes| < U32 && forall k :: 0 <= k < |sizes| ==> sizes[k] < U32
    ensures SampleSizes(Some(Full(STSZ, 0, Be32(0) + Be32(|sizes|) + Words32(sizes)).body)) == Some(sizes)
  {
    var z, n, words := Be32(0), Be32(|sizes|), Words32(sizes);
    Table32Body(z + z, sizes);
    Regroup(z, z, n, words);
    Assoc(z + z, n, words);
    Assoc(z, z, n + words);
    Read32Be(z, 0, n + words);
    TableSizes(z + (z + n + words), sizes);
  }

  lemma TableSizes(stsz: Bytes, sizes: seq<nat>)
    requires |stsz| >= 12 && Read32(stsz, 4) == 0 && Count32(Some(stsz), 8) == Some(sizes)
    ensures SampleSizes(Some(stsz)) == Some(sizes)
  {
  }

  /** One sample in every chunk, as the writer's only run says. */
  const ONE_EACH := [ChunkRun(1, 1, 1)]

  lemma RunsIn(t: Track, sps: Bytes, pps: Bytes)
    requires |sps| >= 4 && |PrintAll(StblBoxes(t, sps, pps))| < U32
    ensures ChunkRuns(Child(Some(PrintAll(StblBoxes(t, sps, pps))), STSC)) == Some(ONE_EACH)
  {
    ChildOf(StblBoxes(t, sps, pps), 3);
    RunsBody();
  }

  lemma OneWords()
    ensures Words32([1, 1, 1]) == Be32(1) + Be32(1) + Be32(1)
  {
    assert [1, 1, 1][..2] == [1, 1] && [1, 1][..1] == [1];
    assert Words32([1]) == Be32(1) && Words32([1, 1]) == Be32(1) + Be32(1);
  }

  lemma RunsBody()
    ensures ChunkRuns(Some(Full(STSC, 0, Be32(1) + Be32(1) + Be32(1) + Be32(1)).body)) == Some(ONE_EACH)
  {
    var one, z := Be32(1), Be32(0);
    OneWords();
    assert z + (one + one + one + one) == z + one + Words32([1, 1, 1]);
    Read32Be(z, 1, Words32([1, 1, 1]));
    Table32Words(z + one, [1, 1, 1]);
    RunsAre(z + one + Words32([1, 1, 1]), [1, 1, 1]);
  }

  lemma RunsAre(body: Bytes, words: seq<nat>)
    requires |body| >= 8 && 3 * Read32(body, 4) == |words| && Table32(body, 8, |words|) == Some(words)
    ensures ChunkRuns(Some(body)) == Some(Triples(words))
    ensures words == [1, 1, 1] ==> Triples(words) == ONE_EACH
  {
  }

  lemma {:induction false} OneInEach(chunks: nat, k: nat, chunk: nat)
    requires chunk <= k < chunks
    ensures ChunkFor(ONE_EACH, chunks, k, chunk, chunk) == Some((k, k))
    decreases k - chunk
  {
    assert RunOf(ONE_EACH, chunk + 1) == ChunkRun(1, 1, 1);
    if chunk < k {
      OneInEach(chunks, k, chunk + 1);
    }
  }

  lemma {:induction false} ChunkWith(n: nat, chunks: nat, k: nat, chunk: nat, q: nat)
    requires 0 < n && chunk <= q < chunks && n * q <= k < n * q + n
    ensures ChunkFor([ChunkRun(1, n, 1)], chunks, k, chunk, n * chunk) == Some((q, n * q))
    decreases q - chunk
  {
    assert RunOf([ChunkRun(1, n, 1)], chunk + 1) == ChunkRun(1, n, 1);
    if chunk < q {
      MulMono(n, chunk + 1, q);
      MulNext(n, chunk);
      ChunkWith(n, chunks, k, chunk + 1, q);
    } else {
      MulNat(n, q);
    }
  }

  lemma MulNext(n: nat, k: nat)
    ensures n * (k + 1) == n * k + n && n * k >= 0
  {
  }

  /** How the reader takes a table it did not see written: with `n` samples in every chunk,
      sample `k` lies in chunk `q` behind those before it there. */
  lemma EvenChunks(n: nat, offsets: seq<nat>, sizes: seq<nat>, k: nat, q: nat)
    requires 0 < n && k < |sizes| && q < |offsets| && n * q <= k < n * q + n
    ensures OffsetOf([ChunkRun(1, n, 1)], offsets, sizes, k) == Some(offsets[q] + SizesBetween(sizes, n * q, k))
  {
    assert n * 0 == 0;
    ChunkWith(n, |offsets|, k, 0, q);
    assert RunOf([ChunkRun(1, n, 1)], q + 1) == ChunkRun(1, n, 1);
  }

  /** Bytes between samples add up, and between a sample and the next are its own. */
  lemma {:induction false} SizesAdd(sizes: seq<nat>, from: nat, mid: nat, to: nat)
    requires from <= mid <= to <= |sizes|
    ensures SizesBetween(sizes, from, mid) + SizesBetween(sizes, mid, to) == SizesBetween(sizes, from, to)
    ensures from < |sizes| ==> SizesBetween(sizes, from, from + 1) == sizes[from]
  {
    if mid < to {
      SizesAdd(sizes, from, mid, to - 1);
    }
  }

  lemma OwnOffset(offsets: seq<nat>, sizes: seq<nat>, k: nat)
    requires k < |offsets| == |sizes|
    ensures OffsetOf(ONE_EACH, offsets, sizes, k) == Some(offsets[k])
  {
    OneInEach(|offsets|, k, 0);
    assert RunOf(ONE_EACH, k + 1) == ChunkRun(1, 1, 1);
  }

  lemma Regroup(a: Bytes, b: Bytes, c: Bytes, d: Bytes)
    ensures a + (b + c + d) == a + b + c + d
  {
  }

  lemma KeysIn(t: Track, sps: Bytes, pps: Bytes)
    requires |sps| >= 4 && |PrintAll(StblBoxes(t, sps, pps))| < U32
    requires |t.keys| < U32 && forall k :: 0 <= k < |t.keys| ==> t.keys[k] < U32
    ensures Count32(Child(Some(PrintAll(StblBoxes(t, sps, pps))), STSS), 4) == Some(t.keys)
  {
    ChildOf(StblBoxes(t, sps, pps), 2);
    Table32Body(Be32(0), t.keys);
    Assoc(Be32(0), Be32(|t.keys|), Words32(t.keys));
  }

  lemma OffsetsIn(t: Track, sps: Bytes, pps: Bytes)
    requires |sps| >= 4 && |PrintAll(StblBoxes(t, sps, pps))| < U32
    requires |t.offsets| == |t.sizes| < U32 && forall k :: 0 <= k < |t.offsets| ==> t.offsets[k] < U64
    ensures Count64(Child(Some(PrintAll(StblBoxes(t, sps, pps))), CO64), 4) == Some(t.offsets)
  {
    ChildOf(StblBoxes(t, sps, pps), 5);
    Table64Body(Be32(0), t.offsets);
    Assoc(Be32(0), Be32(|t.sizes|), Words64(t.offsets));
  }

  lemma Table32Body(before: Bytes, xs: seq<nat>)
    requires |xs| < U32 && forall k :: 0 <= k < |xs| ==> xs[k] < U32
    ensures Count32(Some(before + Be32(|xs|) + Words32(xs)), |before|) == Some(xs)
  {
    Read32Be(before, |xs|, Words32(xs));
    Table32Words(before + Be32(|xs|), xs);
  }

  lemma Table64Body(before: Bytes, xs: seq<nat>)
    requires |xs| < U32 && forall k :: 0 <= k < |xs| ==> xs[k] < U64
    ensures Count64(Some(before + Be32(|xs|) + Words64(xs)), |before|) == Some(xs)
  {
    Read32Be(before, |xs|, Words64(xs));
    Table64Words(before + Be32(|xs|), xs);
  }

  // ---------- the parameter sets in it ----------

  lemma SetsBack(sps: Bytes, pps: Bytes)
    requires 4 <= |sps| < U16 && |pps| < U16
    ensures ParameterSets(Some(Avcc(sps, pps))) == Some((sps, pps))
  {
    var b := Avcc(sps, pps);
    var n := |sps|;
    var head := [1, sps[1], sps[2], sps[3], 0xff, 0xe1];
    assert b == head + Be16(n) + (sps + [1] + Be16(|pps|) + pps);
    Read16Be(head, n, sps + [1] + Be16(|pps|) + pps);
    var front := head + Be16(n) + sps + [1];
    assert b == front + Be16(|pps|) + pps && |front| == 9 + n;
    Read16Be(front, |pps|, pps);
    assert b[1..4] == sps[1..4] == b[9..12];
    assert b[8..8 + n] == sps && b[8 + n] == front[8 + n] == 1 && b[11 + n..] == pps;
  }

  lemma SetsIn(t: Track, sps: Bytes, pps: Bytes)
    requires 4 <= |sps| < U16 && |pps| < U16 && |PrintAll(StblBoxes(t, sps, pps))| < U32
    ensures ParameterSets(Inside(Inside(Child(Some(PrintAll(StblBoxes(t, sps, pps))), STSD), 8, AVC1), 78, AVCC)) == Some((sps, pps))
  {
    ChildOf(StblBoxes(t, sps, pps), 0);
    SetsBack(sps, pps);
    AvcIn(t, sps, pps);
  }

  lemma AvcIn(t: Track, sps: Bytes, pps: Bytes)
    requires 4 <= |sps| && |Be32(0) + Stsd(t, sps, pps)| < U32
    ensures Inside(Inside(Some(Be32(0) + Stsd(t, sps, pps)), 8, AVC1), 78, AVCC) == Some(Avcc(sps, pps))
  {
    var avcc := Box(AVCC, Avcc(sps, pps));
    var avc1 := Box(AVC1, Avc1Head(t) + Print(avcc));
    assert (Be32(0) + Stsd(t, sps, pps))[8..] == Print(avc1);
    ChildOfOne(avc1);
    assert avc1.body[78..] == Print(avcc);
    ChildOfOne(avcc);
  }

  // ---------- the writer's bookkeeping ----------

  /** The sync samples, counted from 1. */
  function KeysOf(fed: seq<seq<Bytes>>, n: nat): seq<nat>
    requires n <= |fed|
  {
    if n == 0 then [] else KeysOf(fed, n - 1) + if HasKey(fed[n - 1]) then [n % U32] else []
  }

  predicate SampleOk(t: Track, fed: seq<seq<Bytes>>, k: nat)
    requires k < |fed| == |t.sizes| == |t.offsets|
  {
    && MDAT_START + 16 <= t.offsets[k] && t.offsets[k] + t.sizes[k] <= |t.out| && t.sizes[k] < U32
    && t.out[t.offsets[k]..t.offsets[k] + t.sizes[k]] == Packed(fed[k])
  }

  /** Every sample fed is in the file, where the writer has noted it. */
  predicate SamplesOk(t: Track, fed: seq<seq<Bytes>>) {
    |fed| == |t.sizes| == |t.offsets| && forall k :: 0 <= k < |fed| ==> SampleOk(t, fed, k)
  }

  /** The file begins as it should, and everything fed is in it. */
  predicate Intact(t: Track, fed: seq<seq<Bytes>>) {
    && t.fps > 0 && |t.out| >= MDAT_START + 16 && t.out[..MDAT_START + 16] == Head(0) && t.pos == |t.out|
    && t.keys == KeysOf(fed, |fed|) && SamplesOk(t, fed)
  }

  lemma {:induction false} KeysOfPrefix(fed: seq<seq<Bytes>>, more: seq<seq<Bytes>>, n: nat)
    requires n <= |fed|
    ensures KeysOf(fed + more, n) == KeysOf(fed, n)
  {
    if n > 0 {
      KeysOfPrefix(fed, more, n - 1);
    }
  }

  /** What a successful write of an access unit adds to what was fed. */
  function Fed(nals: seq<Bytes>): seq<seq<Bytes>> {
    if Media(nals) == [] then [] else [Media(nals)]
  }

  lemma MediaOne(b: seq<Bytes>)
    requires |b| == 1
    ensures Media(b) == if NalType(b[0]) in {7, 8, 9} then [] else b
  {
    assert b[..0] == [];
  }

  /** A sample's units are those that are neither a parameter set nor a delimiter, in order. */
  lemma {:induction false} MediaAppend(a: seq<Bytes>, b: seq<Bytes>)
    ensures Media(a + b) == Media(a) + Media(b)
    ensures |b| == 1 ==> Media(b) == if NalType(b[0]) in {7, 8, 9} then [] else b
  {
    if b == [] {
      assert a + b == a;
    } else {
      var n := |b| - 1;
      var kept := if NalType(b[n]) in {7, 8, 9} then [] else [b[n]];
      MediaAppend(a, b[..n]);
      assert (a + b)[..|a| + n] == a + b[..n];
      Assoc(Media(a), Media(b[..n]), kept);
      if n == 0 {
        MediaOne(b);
      }
    }
  }

  lemma MediaKeys(nals: seq<Bytes>)
    ensures HasKey(Media(nals)) <==> HasKey(nals)
  {
    if nals != [] {
      var n := |nals| - 1;
      var init, last := nals[..n], nals[n];
      MediaKeys(init);
      var one := if NalType(last) in {7, 8, 9} then [] else [last];
      HasKeyAppend(Media(init), one);
      HasKeyAppend(init, [last]);
      assert init + [last] == nals;
    }
  }

  lemma HasKeyAppend(a: seq<Bytes>, b: seq<Bytes>)
    ensures HasKey(a + b) <==> HasKey(a) || HasKey(b)
  {
    if HasKey(a) {
      var k :| 0 <= k < |a| && NalType(a[k]) == 5;
      assert NalType((a + b)[k]) == 5;
    }
    if HasKey(b) {
      var k :| 0 <= k < |b| && NalType(b[k]) == 5;
      assert NalType((a + b)[|a| + k]) == 5;
    }
  }

  lemma SampleKept(t: Track, fed: seq<seq<Bytes>>, t': Track, fed': seq<seq<Bytes>>, k: nat)
    requires k < |fed| == |t.sizes| == |t.offsets| && SampleOk(t, fed, k)
    requires |fed'| == |t'.sizes| == |t'.offsets| && k < |fed'|
    requires fed'[k] == fed[k] && t'.sizes[k] == t.sizes[k] && t'.offsets[k] == t.offsets[k]
    requires t.out <= t'.out
    ensures SampleOk(t', fed', k)
  {
    assert t'.out[..|t.out|] == t.out;
    assert t'.out[t.offsets[k]..t.offsets[k] + t.sizes[k]] == t.out[t.offsets[k]..t.offsets[k] + t.sizes[k]];
  }

  lemma SampleAdded(t: Track, fed: seq<seq<Bytes>>, t': Track, units: seq<Bytes>, bytes: Bytes)
    requires |fed| == |t.sizes| == |t.offsets| && bytes == Packed(units) && |bytes| < U32 && MDAT_START + 16 <= |t.out|
    requires t'.out == t.out + bytes && t'.sizes == t.sizes + [|bytes|] && t'.offsets == t.offsets + [|t.out|]
    ensures SampleOk(t', fed + [units], |fed|)
  {
    assert t'.out[|t.out|..|t.out| + |bytes|] == bytes;
  }

  lemma SamplesMore(t: Track, fed: seq<seq<Bytes>>, t': Track, units: seq<Bytes>, bytes: Bytes)
    requires SamplesOk(t, fed) && bytes == Packed(units) && |bytes| < U32 && MDAT_START + 16 <= |t.out|
    requires t'.out == t.out + bytes && t'.sizes == t.sizes + [|bytes|] && t'.offsets == t.offsets + [|t.out|]
    ensures SamplesOk(t', fed + [units])
  {
    SampleAdded(t, fed, t', units, bytes);
    forall k | 0 <= k < |fed| ensures SampleOk(t', fed + [units], k) {
      SampleKept(t, fed, t', fed + [units], k);
    }
  }

  /** What a write does to the file and the tables, and when it fails. */
  lemma NoteMoves(t: Track, bytes: Bytes, sps: Option<Bytes>, pps: Option<Bytes>, key: bool)
    requires |bytes| < U32
    ensures var (w, ok) := Note(t, bytes, sps, pps, key);
      && w.out == t.out + bytes && w.pos == t.pos + (if ok then |bytes| else 0) && w.fps == t.fps && w.sps == sps
      && (ok <==> bytes == [] || sps.Some? || t.sizes != [])
      && w.offsets == (if ok && bytes != [] then t.offsets + [t.pos] else t.offsets)
      && w.sizes == (if ok && bytes != [] then t.sizes + [|bytes|] else t.sizes)
      && w.keys == (if ok && bytes != [] && key then t.keys + [(|t.sizes| + 1) % U32] else t.keys)
  {
  }

  lemma WriteMoves(t: Track, nals: seq<Bytes>, bytes: Bytes)
    requires bytes == Packed(Media(nals)) && |bytes| < U32
    ensures var (w, ok) := Write(t, nals);
      && w.out == t.out + bytes && w.pos == t.pos + (if ok then |bytes| else 0) && w.fps == t.fps && w.sps == FirstOf(t.sps, nals, 7)
      && (ok <==> bytes == [] || w.sps.Some? || t.sizes != [])
      && w.offsets == (if ok && bytes != [] then t.offsets + [t.pos] else t.offsets)
      && w.sizes == (if ok && bytes != [] then t.sizes + [|bytes|] else t.sizes)
      && w.keys == (if ok && bytes != [] && HasKey(nals) then t.keys + [(|t.sizes| + 1) % U32] else t.keys)
  {
    NoteMoves(t, bytes, FirstOf(t.sps, nals, 7), FirstOf(t.pps, nals, 8), HasKey(nals));
  }

  lemma SomethingPacked(units: seq<Bytes>)
    ensures Packed(units) == [] <==> units == []
  {
  }

  lemma KeysMore(fed: seq<seq<Bytes>>, nals: seq<Bytes>)
    ensures KeysOf(fed + [Media(nals)], |fed| + 1) == KeysOf(fed, |fed|) + if HasKey(nals) then [(|fed| + 1) % U32] else []
  {
    KeysOfPrefix(fed, [Media(nals)], |fed|);
    MediaKeys(nals);
  }

  lemma SamePrefix(a: Bytes, b: Bytes, n: nat)
    requires n <= |a|
    ensures (a + b)[..n] == a[..n]
  {
  }

  lemma WriteNothing(t: Track, fed: seq<seq<Bytes>>, nals: seq<Bytes>)
    requires Intact(t, fed) && Media(nals) == []
    ensures Intact(Write(t, nals).0, fed)
  {
    WriteMoves(t, nals, []);
    var t' := Write(t, nals).0;
    assert t'.out == t.out;
    forall k | 0 <= k < |fed| ensures SampleOk(t', fed, k) {
      SampleKept(t, fed, t', fed, k);
    }
  }

  /** `w` is `t` with a sample behind it. */
  predicate SampleAppended(t: Track, w: Track, nals: seq<Bytes>, bytes: Bytes) {
    && w.fps == t.fps && w.out == t.out + bytes && w.pos == t.pos + |bytes|
    && w.offsets == t.offsets + [t.pos] && w.sizes == t.sizes + [|bytes|]
    && w.keys == t.keys + if HasKey(nals) then [(|t.sizes| + 1) % U32] else []
  }

  lemma IntactMore(t: Track, fed: seq<seq<Bytes>>, w: Track, nals: seq<Bytes>, bytes: Bytes)
    requires Intact(t, fed) && bytes == Packed(Media(nals)) && |bytes| < U32 && SampleAppended(t, w, nals, bytes)
    ensures Intact(w, fed + [Media(nals)])
  {
    SamplesMore(t, fed, w, Media(nals), bytes);
    KeysMore(fed, nals);
    SamePrefix(t.out, bytes, MDAT_START + 16);
  }

  lemma WriteSample(t: Track, fed: seq<seq<Bytes>>, nals: seq<Bytes>, bytes: Bytes)
    requires Intact(t, fed) && Media(nals) != [] && bytes == Packed(Media(nals)) && |bytes| < U32 && Write(t, nals).1
    ensures Intact(Write(t, nals).0, fed + [Media(nals)])
  {
    SomethingPacked(Media(nals));
    assert SampleAppended(t, Write(t, nals).0, nals, bytes) by {
      WriteMoves(t, nals, bytes);
    }
    IntactMore(t, fed, Write(t, nals).0, nals, bytes);
  }

  /** A successful write puts its sample where the index will say. */
  lemma WriteKeeps(t: Track, fed: seq<seq<Bytes>>, nals: seq<Bytes>)
    requires Intact(t, fed) && |Packed(Media(nals))| < U32 && Write(t, nals).1
    ensures Intact(Write(t, nals).0, fed + Fed(nals))
  {
    if Media(nals) == [] {
      WriteNothing(t, fed, nals);
      assert fed + Fed(nals) == fed;
    } else {
      WriteSample(t, fed, nals, Packed(Media(nals)));
    }
  }

  /** A write fails exactly on a first sample no parameter set precedes, and then the file
      is ahead of the writer's position for good. */
  lemma FailedWrite(t: Track, fed: seq<seq<Bytes>>, nals: seq<Bytes>)
    requires Intact(t, fed) && |Packed(Media(nals))| < U32
    ensures !Write(t, nals).1 <==> Media(nals) != [] && t.sps.None? && fed == [] && forall k :: 0 <= k < |nals| ==> NalType(nals[k]) != 7
    ensures !Write(t, nals).1 ==> Write(t, nals).0.pos < |Write(t, nals).0.out|
  {
    WriteMoves(t, nals, Packed(Media(nals)));
    SomethingPacked(Media(nals));
    FirstOfNone(t.sps, nals, 7);
  }

  lemma {:induction false} FirstOfNone(kept: Option<Bytes>, nals: seq<Bytes>, kind: nat)
    ensures FirstOf(kept, nals, kind).None? <==> kept.None? && forall k :: 0 <= k < |nals| ==> NalType(nals[k]) != kind
  {
    if nals != [] {
      FirstOfNone(kept, nals[..|nals| - 1], kind);
    }
  }

  // ---------- the whole file ----------

  lemma PatchHead(front: Bytes, size: Bytes, rest: Bytes, out: Bytes, moov: Bytes)
    requires |front| == 40 && |size| == 8 && |out| >= 48 && out[..40] == front && out[48..] == rest
    ensures out[..40] + size + out[48..] + moov == front + (size + rest + moov)
  {
  }

  lemma HeadParts(out: Bytes, size: nat)
    requires |out| >= 48 && out[..48] == Head(size)
    ensures out[..40] == Print(FtypBox()) + (Be32(1) + MDAT)
  {
    assert out[..48][..40] == out[..40];
  }

  lemma LargeParts(kind: Bytes, body: Bytes, moov: Bytes)
    ensures (Be32(1) + kind) + (Be64(16 + |body|) + body + moov) == PrintLarge(Box(kind, body)) + moov
  {
  }

  /** The three boxes of a finished file. */
  lemma FileBoxes(t: Track, fed: seq<seq<Bytes>>, file: Bytes)
    requires Intact(t, fed) && Finished(t) == Some(file)
    ensures file == Print(FtypBox()) + (PrintLarge(Box(MDAT, t.out[48..])) + Print(Moov(t, t.sps.value, t.pps.value)))
  {
    var ftyp, large := Print(FtypBox()), Be32(1) + MDAT;
    var media, moov := t.out[48..], Print(Moov(t, t.sps.value, t.pps.value));
    HeadParts(t.out, 0);
    PatchHead(ftyp + large, Be64(t.pos - 32), media, t.out, moov);
    Assoc(ftyp, large, Be64(t.pos - 32) + media + moov);
    LargeParts(MDAT, media, moov);
  }

  lemma LastBox(c: Box, end: Bytes)
    requires Small(c) && |end| == 0
    ensures Parse(Print(c)) == Some([c])
  {
    ParsePrint(c, end);
    assert Print(c) + end == Print(c) && [c] + Parse(end).value == [c];
  }

  lemma LargeThen(b: Box, rest: Bytes, c: Box)
    requires |b.kind| == 4 && 16 + |b.body| < U64 && Parse(rest) == Some([c])
    ensures Parse(PrintLarge(b) + rest) == Some([b, c])
  {
    ParsePrintLarge(b, rest);
    assert [b] + [c] == [b, c];
  }

  lemma SmallThen(a: Box, rest: Bytes, b: Box, c: Box)
    requires Small(a) && Parse(rest) == Some([b, c])
    ensures Parse(Print(a) + rest) == Some([a, b, c])
  {
    ParsePrint(a, rest);
    assert [a] + [b, c] == [a, b, c];
  }

  lemma ThreeBoxes(a: Box, b: Box, c: Box)
    requires Small(a) && Small(c) && |b.kind| == 4 && 16 + |b.body| < U64
    ensures Parse(Print(a) + (PrintLarge(b) + Print(c))) == Some([a, b, c])
  {
    LastBox(c, []);
    LargeThen(b, Print(c), c);
    SmallThen(a, PrintLarge(b) + Print(c), b, c);
  }

  /** File type, media data and index tile the file, and the media is what was written. */
  lemma FileTiles(t: Track, fed: seq<seq<Bytes>>, file: Bytes)
    requires Intact(t, fed) && Finished(t) == Some(file) && |t.out| < U64
    requires |Print(Moov(t, t.sps.value, t.pps.value))| < U32
    ensures Parse(file) == Some([FtypBox(), Box(MDAT, t.out[48..]), Moov(t, t.sps.value, t.pps.value)])
  {
    FileBoxes(t, fed, file);
    ThreeBoxes(FtypBox(), Box(MDAT, t.out[48..]), Moov(t, t.sps.value, t.pps.value));
  }

  lemma MoovFound(file: Bytes, ftyp: Box, mdat: Box, moov: Box)
    requires Parse(file) == Some([ftyp, mdat, moov]) && ftyp.kind != MOOV && mdat.kind != MOOV && moov.kind == MOOV
    ensures Child(Some(file), MOOV) == Some(moov.body)
  {
    FindIs([ftyp, mdat, moov], MOOV, 2);
  }

  /** A file is the writer's output behind the head. */
  predicate SameFrom(file: Bytes, out: Bytes) {
    |file| >= |out| && forall i :: MDAT_START + 16 <= i < |out| ==> file[i] == out[i]
  }

  lemma PatchKeeps(out: Bytes, size: Bytes, moov: Bytes, file: Bytes)
    requires |out| >= 48 && |size| == 8 && file == out[..40] + size + out[48..] + moov
    ensures SameFrom(file, out)
  {
  }

  lemma SamePart(a: Bytes, b: Bytes, from: nat, to: nat)
    requires SameFrom(a, b) && MDAT_START + 16 <= from <= to <= |b|
    ensures a[from..to] == b[from..to]
  {
  }

  /** Patching the head leaves the samples where they were. */
  lemma SampleInFile(t: Track, fed: seq<seq<Bytes>>, file: Bytes, k: nat)
    requires SamplesOk(t, fed) && k < |fed| && SameFrom(file, t.out)
    ensures Sample(file, t.offsets[k], t.sizes[k]) == Some(fed[k])
  {
    assert SampleOk(t, fed, k);
    SamePart(file, t.out, t.offsets[k], t.offsets[k] + t.sizes[k]);
    SampleIs(file, t.offsets[k], t.sizes[k], Packed(fed[k]), fed[k]);
  }

  lemma SampleIs(file: Bytes, offset: nat, size: nat, bytes: Bytes, units: seq<Bytes>)
    requires offset + size <= |file| && file[offset..offset + size] == bytes && bytes == Packed(units) && |bytes| < U32
    ensures Sample(file, offset, size) == Some(units)
  {
    UnpackWhole(units);
  }

  lemma UnpackWhole(units: seq<Bytes>)
    requires |Packed(units)| < U32
    ensures Unpack(Packed(units)) == Some(units)
  {
    forall k | 0 <= k < |units| ensures |units[k]| < U32 {
      PackedLength(units, k);
    }
    UnpackPacked(units, []);
    assert Packed(units) + [] == Packed(units) && units + [] == units;
  }

  lemma {:induction false} PackedLength(units: seq<Bytes>, k: nat)
    requires k < |units|
    ensures |units[k]| <= |Packed(units)|
  {
    if k < |units| - 1 {
      PackedLength(units[..|units| - 1], k);
    }
  }

  lemma {:induction false} SamplesInFile(t: Track, fed: seq<seq<Bytes>>, file: Bytes, n: nat)
    requires SamplesOk(t, fed) && n <= |fed| && SameFrom(file, t.out)
    ensures Samples(file, ONE_EACH, t.offsets, t.sizes, n) == Some(fed[..n])
  {
    if n > 0 {
      SamplesInFile(t, fed, file, n - 1);
      SampleInFile(t, fed, file, n - 1);
      OwnOffset(t.offsets, t.sizes, n - 1);
      assert fed[..n] == fed[..n - 1] + [fed[n - 1]];
    }
  }

  lemma AllSamples(t: Track, fed: seq<seq<Bytes>>, file: Bytes)
    requires Intact(t, fed) && Finished(t) == Some(file)
    ensures Samples(file, ONE_EACH, t.offsets, t.sizes, |t.sizes|) == Some(fed)
  {
    PatchKeeps(t.out, Be64(t.pos - MDAT_START), Print(Moov(t, t.sps.value, t.pps.value)), file);
    SamplesInFile(t, fed, file, |fed|);
    assert fed[..|fed|] == fed;
  }

  lemma {:induction false} KeysSmall(fed: seq<seq<Bytes>>, n: nat)
    requires n <= |fed|
    ensures |KeysOf(fed, n)| <= n && forall k :: 0 <= k < |KeysOf(fed, n)| ==> KeysOf(fed, n)[k] < U32
  {
    if n > 0 {
      KeysSmall(fed, n - 1);
    }
  }

  lemma CountSmall(t: Track, sps: Bytes, pps: Bytes)
    requires |sps| >= 4 && |PrintAll(StblBoxes(t, sps, pps))| < U32
    ensures |t.sizes| < U32
  {
    ChildOf(StblBoxes(t, sps, pps), 4);
    Words32Length(t.sizes);
  }

  /** The sizes the format has room for. */
  predicate Fits(t: Track)
    requires t.fps > 0
  {
    && t.sps.Some? && t.pps.Some? && 4 <= |t.sps.value| < U16 && |t.pps.value| < U16 && |t.out| < U64
    && |Print(Moov(t, t.sps.value, t.pps.value))| < U32
  }

  /** A finished file reads back as everything that was fed. */
  lemma ReadBack(t: Track, fed: seq<seq<Bytes>>, file: Bytes)
    requires Intact(t, fed) && Finished(t) == Some(file) && Fits(t)
    ensures ReadMovie(file) == Some(Movie(t.sps.value, t.pps.value, fed, KeysOf(fed, |fed|)))
  {
    StblFound(t, fed, file);
    TablesRead(t, fed);
    AllSamples(t, fed, file);
    Assemble(file, PrintAll(StblBoxes(t, t.sps.value, t.pps.value)), t.sizes, t.offsets,
             Movie(t.sps.value, t.pps.value, fed, t.keys));
  }

  lemma Assemble(file: Bytes, stbl: Bytes, sizes: seq<nat>, offsets: seq<nat>, movie: Movie)
    requires SampleTable(file) == Some(stbl) && |sizes| == |offsets|
    requires SampleSizes(Child(Some(stbl), STSZ)) == Some(sizes) && ChunkRuns(Child(Some(stbl), STSC)) == Some(ONE_EACH)
    requires Count64(Child(Some(stbl), CO64), 4) == Some(offsets)
    requires Count32(Child(Some(stbl), STSS), 4) == Some(movie.keys)
    requires ParameterSets(Inside(Inside(Child(Some(stbl), STSD), 8, AVC1), 78, AVCC)) == Some((movie.sps, movie.pps))
    requires Samples(file, ONE_EACH, offsets, sizes, |sizes|) == Some(movie.samples)
    ensures ReadMovie(file) == Some(movie)
  {
  }

  lemma StblFound(t: Track, fed: seq<seq<Bytes>>, file: Bytes)
    requires Intact(t, fed) && Finished(t) == Some(file) && Fits(t)
    ensures SampleTable(file) == Some(PrintAll(StblBoxes(t, t.sps.value, t.pps.value)))
    ensures |PrintAll(StblBoxes(t, t.sps.value, t.pps.value))| < U32 && |t.sizes| < U32
  {
    var sps, pps := t.sps.value, t.pps.value;
    FileTiles(t, fed, file);
    MoovFound(file, FtypBox(), Box(MDAT, t.out[48..]), Moov(t, sps, pps));
    IndexPath(t, sps, pps);
    CountSmall(t, sps, pps);
  }

  lemma TablesRead(t: Track, fed: seq<seq<Bytes>>)
    requires Intact(t, fed) && Fits(t) && |PrintAll(StblBoxes(t, t.sps.value, t.pps.value))| < U32 && |t.sizes| < U32
    ensures var stbl := Some(PrintAll(StblBoxes(t, t.sps.value, t.pps.value)));
      && SampleSizes(Child(stbl, STSZ)) == Some(t.sizes) && ChunkRuns(Child(stbl, STSC)) == Some(ONE_EACH)
      && Count64(Child(stbl, CO64), 4) == Some(t.offsets)
      && Count32(Child(stbl, STSS), 4) == Some(t.keys)
      && ParameterSets(Inside(Inside(Child(stbl, STSD), 8, AVC1), 78, AVCC)) == Some((t.sps.value, t.pps.value))
  {
    var sps, pps := t.sps.value, t.pps.value;
    KeysSmall(fed, |fed|);
    forall k | 0 <= k < |t.sizes| ensures t.sizes[k] < U32 && t.offsets[k] < U64 {
      assert SampleOk(t, fed, k);
    }
    SizesIn(t, sps, pps);
    RunsIn(t, sps, pps);
    OffsetsIn(t, sps, pps);
    KeysIn(t, sps, pps);
    SetsIn(t, sps, pps);
  }

  // ---------- all runs of the writer ----------

  /** Access units in Annex B form as the writer splits them. */
  ghost function NalsOf(aus: seq<Bytes>): seq<seq<Bytes>> {
    seq(|aus|, i requires 0 <= i < |aus| => NalUnits(aus[i]))
  }

  /** A run of writes of access units. */
  function WriteAll(t: Track, units: seq<seq<Bytes>>): Track {
    if units == [] then t else Write(WriteAll(t, units[..|units| - 1]), units[|units| - 1]).0
  }

  predicate AllWritten(t: Track, units: seq<seq<Bytes>>) {
    if units == [] then true
    else
      var n := |units| - 1;
      AllWritten(t, units[..n]) && Write(WriteAll(t, units[..n]), units[n]).1
  }

  lemma WriteMore(t: Track, units: seq<seq<Bytes>>, last: seq<Bytes>, w: Track)
    requires w == WriteAll(t, units)
    ensures WriteAll(t, units + [last]) == Write(w, last).0
    ensures AllWritten(t, units + [last]) <==> AllWritten(t, units) && Write(w, last).1
  {
    assert (units + [last])[..|units|] == units;
  }

  /** An access unit: NAL units joined with start codes. */
  ghost predicate StreamOf(au: Bytes, nals: seq<Bytes>) {
    exists zeros: seq<nat>, tail: nat :: |zeros| == |nals| && AllProper(nals) && au == Join(nals, zeros, tail)
  }

  ghost predicate StreamsOf(aus: seq<Bytes>, units: seq<seq<Bytes>>) {
    |aus| == |units| && forall k :: 0 <= k < |aus| ==> StreamOf(aus[k], units[k])
  }

  function FedBy(units: seq<seq<Bytes>>): seq<seq<Bytes>> {
    if units == [] then [] else FedBy(units[..|units| - 1]) + Fed(units[|units| - 1])
  }

  /** Every sample is shorter than a 32-bit size can say. */
  predicate SamplesFit(units: seq<seq<Bytes>>) {
    forall k :: 0 <= k < |units| ==> |Packed(Media(units[k]))| < U32
  }

  lemma CreatedIntact(width: nat, height: nat, fps: nat)
    ensures Intact(Created(width, height, fps), [])
  {
  }

  lemma StreamSplits(au: Bytes, nals: seq<Bytes>)
    requires StreamOf(au, nals)
    ensures NalUnits(au) == nals
  {
    var zeros: seq<nat>, tail: nat :| |zeros| == |nals| && AllProper(nals) && au == Join(nals, zeros, tail);
    SplitOfJoin(nals, zeros, tail);
  }

  lemma StreamsSplit(aus: seq<Bytes>, units: seq<seq<Bytes>>)
    requires StreamsOf(aus, units)
    ensures NalsOf(aus) == units
  {
    forall k | 0 <= k < |aus| ensures NalUnits(aus[k]) == units[k] {
      assert StreamOf(aus[k], units[k]);
      StreamSplits(aus[k], units[k]);
    }
  }

  lemma FitsMore(units: seq<seq<Bytes>>, last: seq<Bytes>)
    requires SamplesFit(units + [last])
    ensures SamplesFit(units) && |Packed(Media(last))| < U32
  {
    var more := units + [last];
    assert more[|units|] == last;
    forall k | 0 <= k < |units| ensures |Packed(Media(units[k]))| < U32 {
      assert more[k] == units[k];
    }
  }

  /** The bytes that refused writes of a run leave in the file. */
  function Refused(t: Track, units: seq<seq<Bytes>>): nat {
    if units == [] then 0
    else
      var n := |units| - 1;
      Refused(t, units[..n]) + if Write(WriteAll(t, units[..n]), units[n]).1 then 0 else |Packed(Media(units[n]))|
  }

  lemma RefusedMore(t: Track, units: seq<seq<Bytes>>, last: seq<Bytes>, w: Track)
    requires w == WriteAll(t, units)
    ensures Refused(t, units + [last]) == Refused(t, units) + if Write(w, last).1 then 0 else |Packed(Media(last))|
  {
    assert (units + [last])[..|units|] == units;
  }

  /** The writer's position falls behind the file's end by what refused writes left, which is
      nothing exactly if there were none. */
  lemma {:induction false} BehindByRefused(t: Track, units: seq<seq<Bytes>>, w: Track)
    requires t.pos == |t.out| && SamplesFit(units) && w == WriteAll(t, units)
    ensures |w.out| == w.pos + Refused(t, units) && (Refused(t, units) == 0 <==> AllWritten(t, units))
  {
    if units != [] {
      var init, last := units[..|units| - 1], units[|units| - 1];
      assert units == init + [last];
      var before := WriteAll(t, init);
      FitsMore(init, last);
      BehindByRefused(t, init, before);
      WriteMore(t, init, last, before);
      RefusedMore(t, init, last, before);
      WriteMoves(before, last, Packed(Media(last)));
    }
  }

  predicate HasSps(nals: seq<Bytes>) {
    exists k :: 0 <= k < |nals| && NalType(nals[k]) == 7
  }

  predicate AnySps(units: seq<seq<Bytes>>) {
    exists k :: 0 <= k < |units| && HasSps(units[k])
  }

  /** No sample comes before the first sequence parameter set. */
  predicate SpsFirst(units: seq<seq<Bytes>>) {
    forall k :: 0 <= k < |units| ==> SpsBy(units, k)
  }

  predicate SpsBy(units: seq<seq<Bytes>>, k: nat)
    requires k < |units|
  {
    Media(units[k]) != [] ==> AnySps(units[..k + 1])
  }

  lemma AnySpsMore(units: seq<seq<Bytes>>, last: seq<Bytes>)
    ensures AnySps(units + [last]) <==> AnySps(units) || HasSps(last)
  {
    var more := units + [last];
    assert more[|units|] == last;
    if AnySps(units) {
      var k :| 0 <= k < |units| && HasSps(units[k]);
      assert HasSps(more[k]);
    }
  }

  lemma SpsByPrefix(units: seq<seq<Bytes>>, last: seq<Bytes>, k: nat)
    requires k < |units|
    ensures SpsBy(units + [last], k) <==> SpsBy(units, k)
  {
    assert (units + [last])[..k + 1] == units[..k + 1];
  }

  lemma SpsFirstMore(units: seq<seq<Bytes>>, last: seq<Bytes>)
    ensures SpsFirst(units + [last]) <==> SpsFirst(units) && (Media(last) != [] ==> AnySps(units) || HasSps(last))
  {
    var more := units + [last];
    AnySpsMore(units, last);
    assert more[..|units| + 1] == more && more[|units|] == last;
    assert SpsBy(more, |units|) <==> (Media(last) != [] ==> AnySps(units) || HasSps(last));
    forall k | 0 <= k < |units| ensures SpsBy(more, k) <==> SpsBy(units, k) {
      SpsByPrefix(units, last, k);
    }
  }

  lemma FedMore(units: seq<seq<Bytes>>, last: seq<Bytes>)
    ensures FedBy(units + [last]) == FedBy(units) + Fed(last)
  {
    assert (units + [last])[..|units|] == units;
  }

  lemma {:induction false} FedSome(units: seq<seq<Bytes>>)
    requires FedBy(units) != [] && SpsFirst(units)
    ensures AnySps(units)
  {
    var init, last := units[..|units| - 1], units[|units| - 1];
    assert units == init + [last];
    FedMore(init, last);
    SpsFirstMore(init, last);
    AnySpsMore(init, last);
    if Media(last) == [] {
      FedSome(init);
    }
  }

  lemma LastWritten(t: Track, before: seq<seq<Bytes>>, last: seq<Bytes>)
    requires SpsFirst(before) && Intact(t, FedBy(before)) && |Packed(Media(last))| < U32
    requires t.sps.Some? <==> AnySps(before)
    ensures Write(t, last).1 <==> SpsFirst(before + [last])
  {
    SpsFirstMore(before, last);
    FailedWrite(t, FedBy(before), last);
    if FedBy(before) != [] {
      FedSome(before);
    }
  }

  /** The writer after a run: what was written decided, what was fed in place, and the
      parameter set kept once one came. */
  predicate RunOk(units: seq<seq<Bytes>>, w: Track, written: bool) {
    && (written <==> SpsFirst(units)) && (written ==> Intact(w, FedBy(units)))
    && (w.sps.Some? <==> AnySps(units))
  }

  lemma RunStep(units: seq<seq<Bytes>>, last: seq<Bytes>, w: Track, written: bool)
    requires RunOk(units, w, written) && |Packed(Media(last))| < U32
    ensures RunOk(units + [last], Write(w, last).0, written && Write(w, last).1)
  {
    SpsFirstMore(units, last);
    AnySpsMore(units, last);
    FirstOfNone(w.sps, last, 7);
    WriteMoves(w, last, Packed(Media(last)));
    if written {
      LastWritten(w, units, last);
      if Write(w, last).1 {
        WriteKeeps(w, FedBy(units), last);
        FedMore(units, last);
      }
    }
  }

  lemma {:induction false} RunKeeps(t: Track, units: seq<seq<Bytes>>, w: Track, written: bool)
    requires Intact(t, []) && t.sps.None? && SamplesFit(units)
    requires w == WriteAll(t, units) && (written <==> AllWritten(t, units))
    ensures RunOk(units, w, written)
  {
    if units != [] {
      var init, last := units[..|units| - 1], units[|units| - 1];
      assert units == init + [last];
      var before, so := WriteAll(t, init), AllWritten(t, init);
      FitsMore(init, last);
      RunKeeps(t, init, before, so);
      WriteMore(t, init, last, before);
      RunStep(init, last, before, so);
    }
  }

  /** Every write of a run succeeds exactly when no sample comes before the first sequence
      parameter set. */
  lemma WrittenExactly(width: nat, height: nat, fps: nat, units: seq<seq<Bytes>>)
    requires SamplesFit(units)
    ensures var t := Created(width, height, fps);
      && (AllWritten(t, units) <==> SpsFirst(units))
      && (SpsFirst(units) ==> Intact(WriteAll(t, units), FedBy(units)))
  {
    var t := Created(width, height, fps);
    CreatedIntact(width, height, fps);
    RunKeeps(t, units, WriteAll(t, units), AllWritten(t, units));
  }

  /** The file position the writer keeps is the file's end exactly on those runs. */
  lemma AlignedRun(width: nat, height: nat, fps: nat, units: seq<seq<Bytes>>)
    requires SamplesFit(units)
    ensures var w := WriteAll(Created(width, height, fps), units);
      w.pos <= |w.out| && (w.pos == |w.out| <==> SpsFirst(units))
  {
    var t := Created(width, height, fps);
    CreatedIntact(width, height, fps);
    BehindByRefused(t, units, WriteAll(t, units));
    WrittenExactly(width, height, fps, units);
  }

  /** The round trip: whatever access units came, in whatever start codes, if none had a
      sample before the first sequence parameter set, the finished file reads back as their
      sample units, in order. */
  lemma RoundTrip(width: nat, height: nat, fps: nat, aus: seq<Bytes>, units: seq<seq<Bytes>>)
    requires StreamsOf(aus, units) && SamplesFit(units) && SpsFirst(units)
    ensures var t, fed := WriteAll(Created(width, height, fps), NalsOf(aus)), FedBy(units);
      && Intact(t, fed)
      && (Finished(t).Some? && Fits(t) ==>
            ReadMovie(Finished(t).value) == Some(Movie(t.sps.value, t.pps.value, fed, KeysOf(fed, |fed|))))
  {
    StreamsSplit(aus, units);
    WrittenExactly(width, height, fps, units);
    var t, fed := WriteAll(Created(width, height, fps), units), FedBy(units);
    if Finished(t).Some? && Fits(t) {
      ReadBack(t, fed, Finished(t).value);
    }
  }
}
