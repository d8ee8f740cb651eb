/** The MP4 writer of one H.264 track, and an independent reader of what it writes. */
module Mp4 {
  import opened Wrappers
  import opened IsoBoxes
  import opened AnnexB

  const FTYP: Bytes := [0x66, 0x74, 0x79, 0x70]
  const MDAT: Bytes := [0x6d, 0x64, 0x61, 0x74]
  const MOOV: Bytes := [0x6d, 0x6f, 0x6f, 0x76]
  const MVHD: Bytes := [0x6d, 0x76, 0x68, 0x64]
  const TRAK: Bytes := [0x74, 0x72, 0x61, 0x6b]
  const TKHD: Bytes := [0x74, 0x6b, 0x68, 0x64]
  const MDIA: Bytes := [0x6d, 0x64, 0x69, 0x61]
  const MDHD: Bytes := [0x6d, 0x64, 0x68, 0x64]
  const HDLR: Bytes := [0x68, 0x64, 0x6c, 0x72]
  const MINF: Bytes := [0x6d, 0x69, 0x6e, 0x66]
  const VMHD: Bytes := [0x76, 0x6d, 0x68, 0x64]
  const DINF: Bytes := [0x64, 0x69, 0x6e, 0x66]
  const DREF: Bytes := [0x64, 0x72, 0x65, 0x66]
  const URL_: Bytes := [0x75, 0x72, 0x6c, 0x20]
  const STBL: Bytes := [0x73, 0x74, 0x62, 0x6c]
  const STSD: Bytes := [0x73, 0x74, 0x73, 0x64]
  const STTS: Bytes := [0x73, 0x74, 0x74, 0x73]
  const STSS: Bytes := [0x73, 0x74, 0x73, 0x73]
  const STSC: Bytes := [0x73, 0x74, 0x73, 0x63]
  const STSZ: Bytes := [0x73, 0x74, 0x73, 0x7a]
  const CO64: Bytes := [0x63, 0x6f, 0x36, 0x34]
  const AVC1: Bytes := [0x61, 0x76, 0x63, 0x31]
  const AVCC: Bytes := [0x61, 0x76, 0x63, 0x43]
  const ISOM: Bytes := [0x69, 0x73, 0x6f, 0x6d]
  const ISO2: Bytes := [0x69, 0x73, 0x6f, 0x32]
  const MP41: Bytes := [0x6d, 0x70, 0x34, 0x31]
  const VIDE: Bytes := [0x76, 0x69, 0x64, 0x65]

  // ---------- what the writer makes ----------

  /** The writer's fields; `out` is the file so far. */
  datatype Track = Track(out: Bytes, width: nat, height: nat, fps: nat, pos: nat, sps: Option<Bytes>, pps: Option<Bytes>,
                         sizes: seq<nat>, offsets: seq<nat>, keys: seq<nat>)

  const MDAT_START := 32

  function FtypBox(): Box {
    Box(FTYP, ISOM + Be32(512) + ISOM + ISO2 + AVC1 + MP41)
  }

  /** The head of the media data box; its 64-bit size comes with `Finish`. */
  function Head(size: nat): Bytes {
    Print(FtypBox()) + Be32(1) + MDAT + Be64(size)
  }

  /** The track an empty file begins with. */
  function Created(width: nat, height: nat, fps: nat): Track {
    Track(Head(0), width, height, if fps == 0 then 1 else fps, MDAT_START + 16, None, None, [], [], [])
  }

  function NalType(nal: Bytes): nat {
    if nal == [] then 0 else nal[0] % 0x20
  }

  /** The units that make up a sample: no parameter sets, no delimiters. */
  function Media(nals: seq<Bytes>): seq<Bytes> {
    if nals == [] then []
    else
      var n := |nals| - 1;
      Media(nals[..n]) + if NalType(nals[n]) in {7, 8, 9} then [] else [nals[n]]
  }

  function FirstOf(kept: Option<Bytes>, nals: seq<Bytes>, kind: nat): Option<Bytes> {
    if nals == [] then kept
    else
      var n := |nals| - 1;
      var before := FirstOf(kept, nals[..n], kind);
      if before.None? && NalType(nals[n]) == kind then Some(nals[n]) else before
  }

  predicate HasKey(nals: seq<Bytes>) {
    exists k :: 0 <= k < |nals| && NalType(nals[k]) == 5
  }

  /** The next sample, or a failure that leaves its bytes in the file. */
  function Write(t: Track, nals: seq<Bytes>): (Track, bool) {
    Note(t, Packed(Media(nals)), FirstOf(t.sps, nals, 7), FirstOf(t.pps, nals, 8), HasKey(nals))
  }

  /** A sample's bytes appended, and noted for the index. */
  function Note(t: Track, bytes: Bytes, sps: Option<Bytes>, pps: Option<Bytes>, key: bool): (Track, bool) {
    var size := |bytes| % U32;
    var written := t.(out := t.out + bytes, sps := sps, pps := pps);
    if size == 0 then (written, true)
    else if sps.None? && t.sizes == [] then (written, false)
    else
      (written.(pos := t.pos + size, sizes := t.sizes + [size], offsets := t.offsets + [t.pos],
                keys := t.keys + if key then [(|t.sizes| + 1) % U32] else []), true)
  }

  function Matrix(): Bytes {
    seq(36, i => if i == 1 || i == 17 then 1 else if i == 32 then 0x40 else 0)
  }

  function Full(kind: Bytes, flags: nat, body: Bytes): Box {
    Box(kind, Be32(flags % 0x100_0000) + body)
  }

  function MovieDuration(t: Track): nat
    requires t.fps > 0
  {
    |t.sizes| % U32 * 1000 / t.fps
  }

  function Mvhd(t: Track): Bytes
    requires t.fps > 0
  {
    Zeros(8) + Be32(1000) + Be32(MovieDuration(t)) + Be32(0x1_0000) + Be16(0x100) + Zeros(10) + Matrix() + Zeros(24) + Be32(2)
  }

  function Tkhd(t: Track): Bytes
    requires t.fps > 0
  {
    Zeros(8) + Be32(1) + Zeros(4) + Be32(MovieDuration(t)) + Zeros(8) + Zeros(8) + Matrix()
      + Be32(t.width * U16) + Be32(t.height * U16)
  }

  function Mdhd(t: Track): Bytes {
    Zeros(8) + Be32(t.fps * 1000) + Be32(|t.sizes| * 1000) + Be16(0x55c4) + Zeros(2)
  }

  function Hdlr(): Bytes {
    Zeros(4) + VIDE + Zeros(12) + [0x56, 0x69, 0x64, 0x65, 0x6f, 0x48, 0x61, 0x6e, 0x64, 0x6c, 0x65, 0x72, 0]
  }

  /** The decoder configuration record: the parameter sets behind 16-bit lengths. */
  function Avcc(sps: Bytes, pps: Bytes): Bytes
    requires |sps| >= 4
  {
    [1, sps[1], sps[2], sps[3], 0xff, 0xe1] + Be16(|sps|) + sps + [1] + Be16(|pps|) + pps
  }

  function Avc1Head(t: Track): (b: Bytes)
    ensures |b| == 78
  {
    Zeros(6) + Be16(1) + Zeros(16) + Be16(t.width) + Be16(t.height) + Be32(0x48_0000) + Be32(0x48_0000) + Zeros(4)
      + Be16(1) + Zeros(32) + Be16(0x18) + Be16(0xffff)
  }

  function Stsd(t: Track, sps: Bytes, pps: Bytes): Bytes
    requires |sps| >= 4
  {
    Be32(1) + Print(Box(AVC1, Avc1Head(t) + Print(Box(AVCC, Avcc(sps, pps)))))
  }

  function StblBoxes(t: Track, sps: Bytes, pps: Bytes): seq<Box>
    requires |sps| >= 4
  {
    [Full(STSD, 0, Stsd(t, sps, pps)),
     Full(STTS, 0, Be32(1) + Be32(|t.sizes|) + Be32(1000)),
     Full(STSS, 0, Be32(|t.keys|) + Words32(t.keys)),
     Full(STSC, 0, Be32(1) + Be32(1) + Be32(1) + Be32(1)),
     Full(STSZ, 0, Be32(0) + Be32(|t.sizes|) + Words32(t.sizes)),
     Full(CO64, 0, Be32(|t.sizes|) + Words64(t.offsets))]
  }

  function DrefBox(): Box {
    Full(DREF, 0, Be32(1) + Print(Full(URL_, 1, [])))
  }

  function MinfBoxes(t: Track, sps: Bytes, pps: Bytes): seq<Box>
    requires |sps| >= 4
  {
    [Full(VMHD, 1, Zeros(8)), Box(DINF, Print(DrefBox())), Box(STBL, PrintAll(StblBoxes(t, sps, pps)))]
  }

  function MdiaBoxes(t: Track, sps: Bytes, pps: Bytes): seq<Box>
    requires |sps| >= 4
  {
    [Full(MDHD, 0, Mdhd(t)), Full(HDLR, 0, Hdlr()), Box(MINF, PrintAll(MinfBoxes(t, sps, pps)))]
  }

  function TrakBoxes(t: Track, sps: Bytes, pps: Bytes): seq<Box>
    requires |sps| >= 4 && t.fps > 0
  {
    [Full(TKHD, 3, Tkhd(t)), Box(MDIA, PrintAll(MdiaBoxes(t, sps, pps)))]
  }

  function MoovBoxes(t: Track, sps: Bytes, pps: Bytes): seq<Box>
    requires |sps| >= 4 && t.fps > 0
  {
    [Full(MVHD, 0, Mvhd(t)), Box(TRAK, PrintAll(TrakBoxes(t, sps, pps)))]
  }

  function Moov(t: Track, sps: Bytes, pps: Bytes): Box
    requires |sps| >= 4 && t.fps > 0
  {
    Box(MOOV, PrintAll(MoovBoxes(t, sps, pps)))
  }

  /** The media data box has been begun. */
  predicate Begun(t: Track) {
    t.fps > 0 && t.pos >= MDAT_START + 16 && |t.out| >= MDAT_START + 16
  }

  /** The finished file: the index appended, the media data's size patched in. */
  function Finished(t: Track): Option<Bytes>
    requires Begun(t)
  {
    if t.sps.None? || t.pps.None? || |t.sps.value| < 4 then None
    else
      Some(t.out[..MDAT_START + 8] + Be64(t.pos - MDAT_START) + t.out[MDAT_START + 16..] + Print(Moov(t, t.sps.value, t.pps.value)))
  }
}
