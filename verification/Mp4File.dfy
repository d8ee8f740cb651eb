/** A file from its first byte to its index: the writer run over access units, read back. */
module Mp4File {
  import opened Wrappers
  import opened IsoBoxes
  import opened AnnexB
  import opened Mp4
  import opened Mp4Reader
  import opened Mp4Writer

  /** Every access unit written, refused ones passed over, and the file finished. For units
      in Annex B form all are written exactly if no sample precedes the first sequence
      parameter set, and then what is read back is what was fed. */
  method WriteFile(width: nat, height: nat, fps: nat, aus: seq<Bytes>, ghost units: seq<seq<Bytes>>)
    returns (file: Option<Bytes>, written: bool)
    ensures var t := WriteAll(Created(width, height, fps), NalsOf(aus)); Begun(t) && file == Finished(t)
    ensures StreamsOf(aus, units) && SamplesFit(units) ==> (written <==> SpsFirst(units))
    ensures var t, fed := WriteAll(Created(width, height, fps), NalsOf(aus)), FedBy(units);
      StreamsOf(aus, units) && SamplesFit(units) && written && file.Some? && Fits(t) ==>
        ReadMovie(file.value) == Some(Movie(t.sps.value, t.pps.value, fed, KeysOf(fed, |fed|)))
  {
    var writer := new Writer(width, height, fps);
    ghost var t := Created(width, height, fps);
    written := true;
    for k := 0 to |aus|
      invariant writer.Valid() && writer.View() == WriteAll(t, NalsOf(aus)[..k])
      invariant written <==> AllWritten(t, NalsOf(aus)[..k])
    {
      assert NalsOf(aus)[..k + 1] == NalsOf(aus)[..k] + [NalUnits(aus[k])];
      WriteMore(t, NalsOf(aus)[..k], NalUnits(aus[k]), writer.View());
      var ok := writer.WriteAnnexB(aus[k]);
      written := written && ok;
    }
    assert NalsOf(aus)[..|aus|] == NalsOf(aus);
    var ok := writer.Finish();
    file := if ok then Some(writer.out) else None;
    if StreamsOf(aus, units) && SamplesFit(units) {
      StreamsSplit(aus, units);
      WrittenExactly(width, height, fps, units);
      if written {
        RoundTrip(width, height, fps, aus, units);
      }
    }
  }

  // ---------- after a refused write ----------

  /** A later sample lies as far behind the offset noted for it as refused writes left bytes. */
  lemma OffsetOff(t: Track, units: seq<seq<Bytes>>, nals: seq<Bytes>, bytes: Bytes)
    requires t.pos == |t.out| && bytes == Packed(Media(nals)) && 0 < |bytes| < U32 && SamplesFit(units)
    requires Write(WriteAll(t, units), nals).1
    ensures var before, w := WriteAll(t, units), Write(WriteAll(t, units), nals).0;
      && w.offsets == before.offsets + [before.pos] && before.pos + Refused(t, units) <= |w.out|
      && w.out[before.pos + Refused(t, units)..] == bytes
  {
    BehindByRefused(t, units, WriteAll(t, units));
    WriteMoves(WriteAll(t, units), nals, bytes);
  }

  const EARLY: Bytes := [0x65, 9]
  const LATER: Bytes := [0x65, 8]
  const SPS: Bytes := [0x67, 1, 2, 3]
  const PPS: Bytes := [0x68, 4]

  lemma MediaOneMore(nals: seq<Bytes>, last: Bytes)
    ensures Media(nals + [last]) == Media(nals) + if NalType(last) in {7, 8, 9} then [] else [last]
  {
    assert (nals + [last])[..|nals|] == nals;
  }

  lemma FirstOneMore(kept: Option<Bytes>, nals: seq<Bytes>, last: Bytes, kind: nat)
    ensures var before := FirstOf(kept, nals, kind);
      FirstOf(kept, nals + [last], kind) == if before.None? && NalType(last) == kind then Some(last) else before
  {
    assert (nals + [last])[..|nals|] == nals;
  }

  lemma OneMore(nals: seq<Bytes>, last: Bytes)
    ensures Media(nals + [last]) == Media(nals) + if NalType(last) in {7, 8, 9} then [] else [last]
    ensures FirstOf(None, nals + [last], 7)
      == if FirstOf(None, nals, 7).None? && NalType(last) == 7 then Some(last) else FirstOf(None, nals, 7)
    ensures FirstOf(None, nals + [last], 8)
      == if FirstOf(None, nals, 8).None? && NalType(last) == 8 then Some(last) else FirstOf(None, nals, 8)
  {
    MediaOneMore(nals, last);
    FirstOneMore(None, nals, last, 7);
    FirstOneMore(None, nals, last, 8);
  }

  lemma MediaThree()
    ensures Media([SPS, PPS, LATER]) == [LATER]
    ensures FirstOf(None, [SPS, PPS, LATER], 7) == Some(SPS) && FirstOf(None, [SPS, PPS, LATER], 8) == Some(PPS)
  {
    OneMore([], SPS);
    OneMore([SPS], PPS);
    OneMore([SPS, PPS], LATER);
    assert [] + [SPS] == [SPS] && [SPS] + [PPS] == [SPS, PPS] && [SPS, PPS] + [LATER] == [SPS, PPS, LATER];
  }

  lemma PackedOne(unit: Bytes)
    ensures Packed([unit]) == Be32(|unit|) + unit && |Packed([unit])| == 4 + |unit|
  {
    assert [unit][..0] == [];
  }

  lemma RefusesEarly(t: Track)
    requires t.sps.None? && t.pps.None? && t.sizes == []
    ensures Write(t, [EARLY]) == (t.(out := t.out + Packed([EARLY])), false)
  {
    OneMore([], EARLY);
    assert [] + [EARLY] == [EARLY] && FirstOf(None, [], 7) == None && FirstOf(None, [], 8) == None;
    PackedOne(EARLY);
  }

  lemma WritesLater(t: Track)
    requires t.sps.None? && t.pps.None?
    ensures var (w, ok) := Write(t, [SPS, PPS, LATER]);
      && ok && w.out == t.out + Packed([LATER]) && w.pos == t.pos + 6 && w.sps == Some(SPS) && w.pps == Some(PPS)
      && w.offsets == t.offsets + [t.pos] && w.sizes == t.sizes + [6]
  {
    MediaThree();
    PackedOne(LATER);
  }

  /** The only sample in the index is the refused unit; the one accepted lies behind it. */
  predicate ReadsRefused(w: Track) {
    && w.offsets == [48] && w.sizes == [6] && |w.out| == 60 && Begun(w) && Finished(w).Some?
    && w.out[48..54] == Packed([EARLY]) && w.out[54..] == Packed([LATER])
  }

  lemma BothWritten(t: Track)
    requires t == Created(16, 16, 30)
    ensures ReadsRefused(Write(t.(out := t.out + Packed([EARLY])), [SPS, PPS, LATER]).0)
  {
    WritesLater(t.(out := t.out + Packed([EARLY])));
    PackedOne(EARLY);
    PackedOne(LATER);
    HeadLength();
  }

  lemma HeadLength()
    ensures |Head(0)| == 48
  {
  }

  lemma StreamFor(nals: seq<Bytes>) returns (au: Bytes)
    requires AllProper(nals)
    ensures NalUnits(au) == nals
  {
    var zeros := seq(|nals|, i => 0);
    au := Join(nals, zeros, 0);
    SplitOfJoin(nals, zeros, 0);
  }

  /** A slice before its parameter sets, and one behind them: the first write is refused,
      the second is not, and its sample is the first one's bytes. */
  lemma RefusedWrite()
    ensures exists aus: seq<Bytes> ::
      !AllWritten(Created(16, 16, 30), NalsOf(aus)) && ReadsRefused(WriteAll(Created(16, 16, 30), NalsOf(aus)))
  {
    assert AllProper([EARLY]) && AllProper([SPS, PPS, LATER]);
    var early := StreamFor([EARLY]);
    var later := StreamFor([SPS, PPS, LATER]);
    var t := Created(16, 16, 30);
    RefusesEarly(t);
    WriteMore(t, [], [EARLY], t);
    assert [] + [[EARLY]] == [[EARLY]];
    WriteMore(t, [[EARLY]], [SPS, PPS, LATER], t.(out := t.out + Packed([EARLY])));
    assert NalsOf([early, later]) == [[EARLY]] + [[SPS, PPS, LATER]];
    BothWritten(t);
  }
}
