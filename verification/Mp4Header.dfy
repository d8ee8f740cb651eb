/** What the boxes beside the sample table say of the movie: picture size, time, track. */
module Mp4Header {
  import opened Wrappers
  import opened Arith
  import opened IsoBoxes
  import opened AnnexB
  import opened Mp4
  import opened Mp4Reader

  /** A run of samples of one duration each, in ticks of the media (section 8.6.1.2 of ISO/IEC
      14496-12). */
  datatype TimeRun = TimeRun(count: nat, delta: nat)

  /** The picture of the sample entry and that of the track in whole pixels, the ticks of media
      and movie per second and how many there are, the durations of the samples, what marks the
      track as enabled video with its data in the file, the number of sample entries, and whether
      movie and track are shown as they are. */
  datatype Header = Header(picture: (nat, nat), track: (nat, nat), mediaScale: nat, mediaTicks: nat,
                           movieScale: nat, movieTicks: nat, times: TimeRun, handler: Bytes, flags: nat, id: nat, local: bool,
                           entries: nat, upright: bool)

  // ---------- the reader ----------

  function Big32(body: Option<Bytes>, at: nat): Option<nat> {
    if body.None? || |body.value| < at + 4 then None else Some(Read32(body.value, at))
  }

  function Big16(body: Option<Bytes>, at: nat): Option<nat> {
    if body.None? || |body.value| < at + 2 then None else Some(Read16(body.value, at))
  }

  /** A 16.16 number's whole part. */
  function Whole(n: nat): nat {
    n / U16
  }

  function Trak(file: Bytes): Option<Bytes> {
    Child(Child(Some(file), MOOV), TRAK)
  }

  /** The only run of a time-to-sample box. */
  function Times(stts: Option<Bytes>): Option<TimeRun> {
    if Big32(stts, 0) != Some(0) || Big32(stts, 4) != Some(1) || Big32(stts, 8).None? || Big32(stts, 12).None? then None
    else Some(TimeRun(Big32(stts, 8).value, Big32(stts, 12).value))
  }

  /** When a sample is decoded, in ticks. */
  function DecodeTime(times: TimeRun, k: nat): nat {
    if k == 0 then 0 else DecodeTime(times, k - 1) + times.delta
  }

  /** The nine numbers of the matrix that changes nothing (section 8.2.2.1). */
  predicate Unity(b: Bytes, at: nat) {
    && at + 36 <= |b|
    && Read32(b, at) == 0x1_0000 && Read32(b, at + 4) == 0 && Read32(b, at + 8) == 0
    && Read32(b, at + 12) == 0 && Read32(b, at + 16) == 0x1_0000 && Read32(b, at + 20) == 0
    && Read32(b, at + 24) == 0 && Read32(b, at + 28) == 0 && Read32(b, at + 32) == 0x4000_0000
  }

  function ReadHeader(file: Bytes): Option<Header> {
    var moov, trak := Child(Some(file), MOOV), Trak(file);
    var mvhd, tkhd, mdia := Child(moov, MVHD), Child(trak, TKHD), Child(trak, MDIA);
    var mdhd, hdlr, minf := Child(mdia, MDHD), Child(mdia, HDLR), Child(mdia, MINF);
    var stbl := Child(minf, STBL);
    var avc1, entries := Inside(Child(stbl, STSD), 8, AVC1), Big32(Child(stbl, STSD), 4);
    var url := Inside(Child(Child(minf, DINF), DREF), 8, URL_);
    var w, h := Big16(avc1, 24), Big16(avc1, 26);
    var tw, th, flags, id := Big32(tkhd, 76), Big32(tkhd, 80), Big32(tkhd, 0), Big32(tkhd, 12);
    var scale, ticks, mscale, mticks := Big32(mdhd, 12), Big32(mdhd, 16), Big32(mvhd, 12), Big32(mvhd, 16);
    var times := Times(Child(stbl, STTS));
    if w.None? || h.None? || tw.None? || th.None? || flags.None? || id.None? then None
    else if scale.None? || ticks.None? || mscale.None? || mticks.None? || times.None? then None
    else if hdlr.None? || |hdlr.value| < 12 || Big32(url, 0).None? || entries.None? || mvhd.None? || tkhd.None? then None
    else Some(Header((w.value, h.value), (Whole(tw.value), Whole(th.value)), scale.value, ticks.value, mscale.value, mticks.value,
                     times.value, hdlr.value[8..12], flags.value, id.value, Big32(url, 0).value % 2 == 1,
                     entries.value, Unity(mvhd.value, 36) && Unity(tkhd.value, 40)))
  }

  // ---------- the fields ----------

  lemma Field16(b: Bytes, at: nat, n: nat)
    requires at + 2 <= |b| && n < U16 && b[at..at + 2] == Be16(n)
    ensures Big16(Some(b), at) == Some(n)
  {
    assert b == b[..at] + Be16(n) + b[at + 2..];
    Read16Be(b[..at], n, b[at + 2..]);
  }

  /** Two numbers of 32 bits behind each other. */
  lemma TwoFields(before: Bytes, m: nat, n: nat, after: Bytes, b: Bytes)
    requires m < U32 && n < U32 && b == before + Be32(m) + Be32(n) + after
    ensures Big32(Some(b), |before|) == Some(m) && Big32(Some(b), |before| + 4) == Some(n)
  {
    assert before + Be32(m) + (Be32(n) + after) == b;
    Read32Be(before, m, Be32(n) + after);
    Read32Be(before + Be32(m), n, after);
  }

  /** The durations fit their 32 bits. */
  predicate Timely(t: Track) {
    t.fps > 0 && t.fps * 1000 < U32 && |t.sizes| * 1000 < U32
  }

  lemma DurationFits(t: Track)
    requires Timely(t)
    ensures MovieDuration(t) == |t.sizes| * 1000 / t.fps < U32
  {
    var n := |t.sizes| * 1000;
    if n / t.fps > n {
      MulMono(n / t.fps, 1, t.fps);
    }
  }

  lemma MvhdFields(t: Track, ticks: nat)
    requires t.fps > 0 && ticks == MovieDuration(t) < U32
    ensures var b := Some(Full(MVHD, 0, Mvhd(t)).body); Big32(b, 12) == Some(1000) && Big32(b, 16) == Some(ticks)
  {
    var before := Be32(0) + Zeros(8);
    var rest := Be32(0x1_0000) + Be16(0x100) + Zeros(10) + Matrix() + Zeros(24) + Be32(2);
    var b := Full(MVHD, 0, Mvhd(t)).body;
    assert b == before + Be32(1000) + Be32(ticks) + rest;
    TwoFields(before, 1000, ticks, rest, b);
  }

  lemma MdhdFields(t: Track)
    requires Timely(t)
    ensures var b := Some(Full(MDHD, 0, Mdhd(t)).body);
      Big32(b, 12) == Some(t.fps * 1000) && Big32(b, 16) == Some(|t.sizes| * 1000)
  {
    var before, rest := Be32(0) + Zeros(8), Be16(0x55c4) + Zeros(2);
    var b := Full(MDHD, 0, Mdhd(t)).body;
    assert b == before + Be32(t.fps * 1000) + Be32(|t.sizes| * 1000) + rest;
    TwoFields(before, t.fps * 1000, |t.sizes| * 1000, rest, b);
  }

  lemma HdlrFields()
    ensures |Full(HDLR, 0, Hdlr()).body| >= 12 && Full(HDLR, 0, Hdlr()).body[8..12] == VIDE
  {
  }

  lemma SttsFields(n: nat)
    requires n < U32
    ensures Times(Some(Full(STTS, 0, Be32(1) + Be32(n) + Be32(1000)).body)) == Some(TimeRun(n, 1000))
  {
    var b := Full(STTS, 0, Be32(1) + Be32(n) + Be32(1000)).body;
    assert b == Be32(0) + Be32(1) + Be32(n) + Be32(1000);
    TwoFields(Be32(0), 1, n, Be32(1000), b);
    assert b == [] + Be32(0) + Be32(1) + (Be32(n) + Be32(1000));
    TwoFields([], 0, 1, Be32(n) + Be32(1000), b);
    assert b == Be32(0) + Be32(1) + Be32(n) + Be32(1000) + [];
    TwoFields(Be32(0) + Be32(1), n, 1000, [], b);
  }

  lemma TkhdSize(t: Track)
    requires t.fps > 0 && t.width < U16 && t.height < U16
    ensures var b := Some(Full(TKHD, 3, Tkhd(t)).body);
      Big32(b, 76) == Some(t.width * U16) && Big32(b, 80) == Some(t.height * U16)
  {
    var before := Be32(3) + Zeros(8) + Be32(1) + Zeros(4) + Be32(MovieDuration(t)) + Zeros(8) + Zeros(8) + Matrix();
    var b := Full(TKHD, 3, Tkhd(t)).body;
    assert b == before + Be32(t.width * U16) + Be32(t.height * U16) + [];
    TwoFields(before, t.width * U16, t.height * U16, [], b);
  }

  lemma MatrixIn(b: Bytes, at: nat)
    requires at + 36 <= |b| && b[at..at + 36] == Matrix()
    ensures Unity(b, at)
  {
    assert forall k :: 0 <= k < 36 ==> b[at + k] == Matrix()[k];
  }

  lemma MovieUpright(t: Track)
    requires t.fps > 0
    ensures Unity(Full(MVHD, 0, Mvhd(t)).body, 36)
  {
    var head := Be32(0) + Zeros(8) + Be32(1000) + Be32(MovieDuration(t)) + Be32(0x1_0000) + Be16(0x100) + Zeros(10);
    assert Full(MVHD, 0, Mvhd(t)).body == head + Matrix() + (Zeros(24) + Be32(2));
    MatrixBehind(head, Zeros(24) + Be32(2));
  }

  lemma TrackUpright(t: Track)
    requires t.fps > 0
    ensures Unity(Full(TKHD, 3, Tkhd(t)).body, 40)
  {
    var head := Be32(3) + Zeros(8) + Be32(1) + Zeros(4) + Be32(MovieDuration(t)) + Zeros(8) + Zeros(8);
    assert Full(TKHD, 3, Tkhd(t)).body == head + Matrix() + (Be32(t.width * U16) + Be32(t.height * U16));
    MatrixBehind(head, Be32(t.width * U16) + Be32(t.height * U16));
  }

  lemma MatrixBehind(head: Bytes, rest: Bytes)
    ensures Unity(head + Matrix() + rest, |head|)
  {
    assert (head + Matrix() + rest)[|head|..|head| + 36] == Matrix();
    MatrixIn(head + Matrix() + rest, |head|);
  }

  lemma TkhdMarks(t: Track)
    requires t.fps > 0
    ensures var b := Some(Full(TKHD, 3, Tkhd(t)).body); Big32(b, 0) == Some(3) && Big32(b, 12) == Some(1)
  {
    var rest := Zeros(4) + Be32(MovieDuration(t)) + Zeros(8) + Zeros(8) + Matrix() + Be32(t.width * U16) + Be32(t.height * U16);
    var b := Full(TKHD, 3, Tkhd(t)).body;
    MarksIn(b, Zeros(8), rest);
  }

  lemma FieldBetween(before: Bytes, n: nat, after: Bytes)
    requires n < U32
    ensures Big32(Some(before + Be32(n) + after), |before|) == Some(n)
  {
    Read32Be(before, n, after);
  }

  lemma Regrouped(a: Bytes, z: Bytes, c: Bytes, d: Bytes)
    ensures a + (z + c + d) == [] + a + (z + c + d) == a + z + c + d
  {
  }

  lemma MarksIn(b: Bytes, z: Bytes, rest: Bytes)
    requires |z| == 8 && b == Be32(3) + (z + Be32(1) + rest)
    ensures Big32(Some(b), 0) == Some(3) && Big32(Some(b), 12) == Some(1)
  {
    Regrouped(Be32(3), z, Be32(1), rest);
    FieldBetween([], 3, z + Be32(1) + rest);
    FieldBetween(Be32(3) + z, 1, rest);
  }

  lemma Avc1Size(t: Track, sps: Bytes, pps: Bytes)
    requires |sps| >= 4 && t.width < U16 && t.height < U16
    ensures var b := Some(Avc1Head(t) + Print(Box(AVCC, Avcc(sps, pps)))); Big16(b, 24) == Some(t.width) && Big16(b, 26) == Some(t.height)
  {
    var b := Avc1Head(t) + Print(Box(AVCC, Avcc(sps, pps)));
    assert Avc1Head(t)[24..26] == Be16(t.width) && Avc1Head(t)[26..28] == Be16(t.height);
    assert b[24..26] == Be16(t.width) && b[26..28] == Be16(t.height);
    Field16(b, 24, t.width);
    Field16(b, 26, t.height);
  }

  // ---------- the boxes ----------

  /** A box behind 8 bytes of a full box. */
  lemma BehindCount(head: Bytes, count: Bytes, box: Box)
    requires |head| == |count| == 4 && |box.kind| == 4 && |Print(box)| < U32
    ensures Inside(Some(head + (count + Print(box))), 8, box.kind) == Some(box.body)
  {
    assert (head + (count + Print(box)))[8..] == Print(box);
    ChildOfOne(box);
  }

  /** The data reference says that the data is in the file itself. */
  lemma UrlIn()
    ensures Inside(Child(Some(Print(DrefBox())), DREF), 8, URL_) == Some(Be32(1)) && Big32(Some(Be32(1)), 0) == Some(1)
  {
    var url := Full(URL_, 1, []);
    assert url.body == Be32(1);
    ChildOfOne(DrefBox());
    BehindCount(Be32(0), Be32(1), url);
    assert [] + Be32(1) + [] == Be32(1);
    Read32Be([], 1, []);
  }

  lemma Avc1In(t: Track, sps: Bytes, pps: Bytes)
    requires |sps| >= 4 && |PrintAll(StblBoxes(t, sps, pps))| < U32
    ensures Inside(Child(Some(PrintAll(StblBoxes(t, sps, pps))), STSD), 8, AVC1)
      == Some(Avc1Head(t) + Print(Box(AVCC, Avcc(sps, pps))))
  {
    ChildOf(StblBoxes(t, sps, pps), 0);
    var avc1 := Box(AVC1, Avc1Head(t) + Print(Box(AVCC, Avcc(sps, pps))));
    assert (Be32(0) + Stsd(t, sps, pps))[8..] == Print(avc1);
    ChildOfOne(avc1);
  }

  lemma EntriesIn(t: Track, sps: Bytes, pps: Bytes)
    requires |sps| >= 4 && |PrintAll(StblBoxes(t, sps, pps))| < U32
    ensures Big32(Child(Some(PrintAll(StblBoxes(t, sps, pps))), STSD), 4) == Some(1)
  {
    ChildOf(StblBoxes(t, sps, pps), 0);
    var avc1 := Print(Box(AVC1, Avc1Head(t) + Print(Box(AVCC, Avcc(sps, pps)))));
    assert Be32(0) + (Be32(1) + avc1) == Be32(0) + Be32(1) + avc1;
    FieldBetween(Be32(0), 1, avc1);
  }

  lemma TimesIn(t: Track, sps: Bytes, pps: Bytes)
    requires |sps| >= 4 && |PrintAll(StblBoxes(t, sps, pps))| < U32 && |t.sizes| < U32
    ensures Times(Child(Some(PrintAll(StblBoxes(t, sps, pps))), STTS)) == Some(TimeRun(|t.sizes|, 1000))
  {
    ChildOf(StblBoxes(t, sps, pps), 1);
    SttsFields(|t.sizes|);
  }

  lemma MinfParts(t: Track, sps: Bytes, pps: Bytes)
    requires |sps| >= 4 && |PrintAll(MinfBoxes(t, sps, pps))| < U32
    ensures var minf := Some(PrintAll(MinfBoxes(t, sps, pps)));
      Child(minf, STBL) == Some(PrintAll(StblBoxes(t, sps, pps))) && Child(minf, DINF) == Some(Print(DrefBox()))
    ensures |PrintAll(StblBoxes(t, sps, pps))| < U32
  {
    StblIn(t, sps, pps);
    ChildOf(MinfBoxes(t, sps, pps), 1);
  }

  lemma MdiaParts(t: Track, sps: Bytes, pps: Bytes)
    requires |sps| >= 4 && |PrintAll(MdiaBoxes(t, sps, pps))| < U32
    ensures var mdia := Some(PrintAll(MdiaBoxes(t, sps, pps)));
      && Child(mdia, MDHD) == Some(Full(MDHD, 0, Mdhd(t)).body) && Child(mdia, HDLR) == Some(Full(HDLR, 0, Hdlr()).body)
      && Child(mdia, MINF) == Some(PrintAll(MinfBoxes(t, sps, pps)))
    ensures |PrintAll(MinfBoxes(t, sps, pps))| < U32
  {
    ChildOf(MdiaBoxes(t, sps, pps), 0);
    ChildOf(MdiaBoxes(t, sps, pps), 1);
    MinfIn(t, sps, pps);
  }

  lemma MoovParts(t: Track, sps: Bytes, pps: Bytes)
    requires |sps| >= 4 && t.fps > 0 && |PrintAll(MoovBoxes(t, sps, pps))| < U32
    ensures var moov := Some(PrintAll(MoovBoxes(t, sps, pps)));
      && Child(moov, MVHD) == Some(Full(MVHD, 0, Mvhd(t)).body) && Child(Child(moov, TRAK), TKHD) == Some(Full(TKHD, 3, Tkhd(t)).body)
      && Child(Child(moov, TRAK), MDIA) == Some(PrintAll(MdiaBoxes(t, sps, pps)))
    ensures |PrintAll(MdiaBoxes(t, sps, pps))| < U32
  {
    ChildOf(MoovBoxes(t, sps, pps), 0);
    TrakIn(t, sps, pps);
    ChildOf(TrakBoxes(t, sps, pps), 0);
    MdiaIn(t, sps, pps);
  }

  lemma WholeOf(n: nat)
    ensures Whole(n * U16) == n
  {
  }

  /** What the boxes of a track say. */
  function HeaderOf(t: Track): Header
    requires t.fps > 0
  {
    Header((t.width, t.height), (t.width, t.height), t.fps * 1000, |t.sizes| * 1000, 1000, |t.sizes| * 1000 / t.fps,
           TimeRun(|t.sizes|, 1000), VIDE, 3, 1, true, 1, true)
  }

  lemma FieldsBack(t: Track, sps: Bytes, pps: Bytes)
    requires |sps| >= 4 && Timely(t) && t.width < U16 && t.height < U16
    ensures Big16(Some(Avc1Head(t) + Print(Box(AVCC, Avcc(sps, pps)))), 24) == Some(t.width)
    ensures Big16(Some(Avc1Head(t) + Print(Box(AVCC, Avcc(sps, pps)))), 26) == Some(t.height)
    ensures Big32(Some(Full(TKHD, 3, Tkhd(t)).body), 76) == Some(t.width * U16)
    ensures Big32(Some(Full(TKHD, 3, Tkhd(t)).body), 80) == Some(t.height * U16)
    ensures Big32(Some(Full(TKHD, 3, Tkhd(t)).body), 0) == Some(3) && Big32(Some(Full(TKHD, 3, Tkhd(t)).body), 12) == Some(1)
    ensures Big32(Some(Full(MDHD, 0, Mdhd(t)).body), 12) == Some(t.fps * 1000)
    ensures Big32(Some(Full(MDHD, 0, Mdhd(t)).body), 16) == Some(|t.sizes| * 1000)
    ensures Big32(Some(Full(MVHD, 0, Mvhd(t)).body), 12) == Some(1000)
    ensures Big32(Some(Full(MVHD, 0, Mvhd(t)).body), 16) == Some(|t.sizes| * 1000 / t.fps)
  {
    Avc1Size(t, sps, pps);
    TkhdSize(t);
    TkhdMarks(t);
    MdhdFields(t);
    DurationFits(t);
    MvhdFields(t, MovieDuration(t));
  }

  /** A finished file says the size, the rate and the duration of what was written, and marks
      its track as enabled video whose data is in the file. */
  lemma HeaderBack(t: Track, fed: seq<seq<Bytes>>, file: Bytes)
    requires Intact(t, fed) && Finished(t) == Some(file) && Fits(t) && Timely(t) && t.width < U16 && t.height < U16
    ensures ReadHeader(file) == Some(HeaderOf(t))
  {
    var sps, pps := t.sps.value, t.pps.value;
    FileTiles(t, fed, file);
    MoovFound(file, FtypBox(), Box(MDAT, t.out[48..]), Moov(t, sps, pps));
    MoovParts(t, sps, pps);
    MdiaParts(t, sps, pps);
    MinfParts(t, sps, pps);
    Avc1In(t, sps, pps);
    TimesIn(t, sps, pps);
    EntriesIn(t, sps, pps);
    MovieUpright(t);
    TrackUpright(t);
    UrlIn();
    HdlrFields();
    FieldsBack(t, sps, pps);
    WholeOf(t.width);
    WholeOf(t.height);
  }

  lemma {:induction false} Evenly(n: nat, k: nat)
    ensures DecodeTime(TimeRun(n, 1000), k) == 1000 * k
  {
    if k > 0 {
      Evenly(n, k - 1);
    }
  }

  /** In seconds, sample `k` is decoded at `k` over the frame rate, exactly. */
  lemma TimesBack(t: Track, k: nat)
    requires t.fps > 0
    ensures DecodeTime(HeaderOf(t).times, k) * t.fps == k * HeaderOf(t).mediaScale
  {
    Evenly(|t.sizes|, k);
  }
}
