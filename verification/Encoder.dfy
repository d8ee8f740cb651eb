/** The zero-copy encoder's surfaces: free ones, ones the hardware holds, and cached imports. */
module Encoder {
  import opened Wrappers
  import opened Arith
  import opened ImportCache

  const SLOTS := 4

  /** A grab: the scanout buffer and the cursor on it. */
  datatype Scanout = Scanout(key: BufKey, cursor: Option<nat>)

  /** What a push sends: an import and the cursor to blend over it. */
  datatype Frame = Frame(src: Surface, cursor: Option<nat>)

  /** What one of our surfaces shows: a converted import, the cursor it was tried to blend
      with, and the one blended in. */
  datatype Picture = Picture(src: Surface, tried: Option<nat>, cursor: Option<nat>)

  /** A picture queued, and when it is to be shown, in microseconds. */
  datatype Queued = Queued(picture: Picture, pts: nat)

  /** A picture of a frame; a cursor that cannot be blended is left out. */
  predicate Shows(p: Picture, f: Frame) {
    p.src == f.src && p.tried == f.cursor && (p.cursor.Some? ==> p.cursor == f.cursor)
  }

  /** One picture more was queued, which shows the frame. */
  ghost predicate Appends(after: seq<Queued>, before: seq<Queued>, f: Frame, pts: nat) {
    exists p :: Shows(p, f) && after == before + [Queued(p, pts)]
  }

  /** The hardware encoder: it holds the surfaces queued to it and gives each back once, and
      gives out an access unit for each picture queued, in their order. */
  class Hardware {
    var held: set<nat>
    /** What each surface shows, and all that was queued. */
    var content: map<nat, Picture>
    var sent: seq<Queued>
    /** How many access units it gave out. */
    var coded: nat
    /** Whether it had no surface to give back, and no access unit, when last asked. */
    ghost var noSlot: bool
    ghost var noUnit: bool
    /** What failed so far, here and at the file. */
    ghost var faults: nat

    constructor ()
      ensures held == {} && sent == [] && coded == 0
    {
      held, content, sent, coded := {}, map[], [], 0;
      noSlot, noUnit, faults := true, true, 0;
    }

    /** Whether a buffer can be imported. */
    method MapBuffer() returns (ok: bool)
      modifies this`faults
      ensures faults == if ok then old(faults) else old(faults) + 1
    {
      ok := *;
      faults := if ok then faults else faults + 1;
    }

    /** A surface goes to the encoder with what it shows. */
    method Queue(slot: nat, pts: nat) returns (ok: bool)
      requires slot !in held
      modifies this`held, this`sent, this`faults, this`noSlot, this`noUnit
      ensures held == if ok then old(held) + {slot} else old(held)
      ensures sent == if ok && slot in content then old(sent) + [Queued(content[slot], pts)] else old(sent)
      ensures faults == if ok then old(faults) else old(faults) + 1
    {
      ok := *;
      if ok {
        held := held + {slot};
        sent := if slot in content then sent + [Queued(content[slot], pts)] else sent;
        noSlot, noUnit := false, false;
      } else {
        faults := faults + 1;
      }
    }

    /** One surface given back, none ready, or an error; when waited for, none is an error. */
    method Reclaim(wait: bool) returns (slot: Option<nat>, failed: bool)
      modifies this`held, this`faults, this`noSlot
      ensures slot.Some? ==> slot.value in old(held) && held == old(held) - {slot.value} && !failed
      ensures slot.None? ==> held == old(held)
      ensures noSlot == slot.None? && faults == old(faults) + if failed || (wait && slot.None?) then 1 else 0
    {
      slot, failed := None, *;
      var ready: bool := *;
      if held != {} && ready {
        var s :| s in held;
        held := held - {s};
        slot, failed := Some(s), false;
      }
      noSlot := slot.None?;
      faults := faults + if failed || (wait && slot.None?) then 1 else 0;
    }

    /** The conversion writes `slot`: it must not be the hardware's. */
    method Convert(src: Surface, slot: nat) returns (ok: bool)
      requires slot !in held
      modifies this`content, this`faults
      ensures content == if ok then old(content)[slot := Picture(src, None, None)] else old(content) - {slot}
      ensures faults == if ok then old(faults) else old(faults) + 1
    {
      ok := *;
      content := if ok then content[slot := Picture(src, None, None)] else content - {slot};
      faults := if ok then faults else faults + 1;
    }

    /** The cursor over a converted picture. */
    method Blend(slot: nat, cursor: nat) returns (ok: bool)
      requires slot !in held && slot in content
      modifies this`content
      ensures content == old(content)[slot := old(content)[slot].(tried := Some(cursor), cursor := if ok then Some(cursor) else None)]
    {
      ok := *;
      content := content[slot := content[slot].(tried := Some(cursor), cursor := if ok then Some(cursor) else None)];
    }

    /** The access unit of the next picture, none in time, or an error; when waited for, none
        is an error. */
    method Dequeue(wait: bool) returns (unit: Option<Queued>, failed: bool)
      modifies this`coded, this`faults, this`noUnit
      ensures if unit.Some? then old(coded) < |sent| && coded == old(coded) + 1 && unit.value == sent[old(coded)] && !failed
        else coded == old(coded)
      ensures noUnit == unit.None? && faults == old(faults) + if failed || (wait && unit.None?) then 1 else 0
    {
      unit, failed := None, *;
      var ready: bool := *;
      if coded < |sent| && ready {
        unit, failed := Some(sent[coded]), false;
        coded := coded + 1;
      }
      noUnit := unit.None?;
      faults := faults + if failed || (wait && unit.None?) then 1 else 0;
    }
  }

  /** Every slot is free, held by the hardware or in `hand`, and only one of these. */
  ghost predicate Partition(free: seq<nat>, held: set<nat>, hand: set<nat>) {
    && (forall i, j :: 0 <= i < j < |free| ==> free[i] != free[j])
    && (forall i :: 0 <= i < |free| ==> free[i] !in held && free[i] !in hand && free[i] < SLOTS)
    && held !! hand
    && (forall s :: s in held || s in hand ==> s < SLOTS)
    && (forall s :: 0 <= s < SLOTS ==> s in free || s in held || s in hand)
  }

  lemma PopKeeps(free: seq<nat>, held: set<nat>)
    requires Partition(free, held, {}) && free != []
    ensures Partition(free[..|free| - 1], held, {free[|free| - 1]})
  {
    var n := |free| - 1;
    forall s | 0 <= s < SLOTS && s in free && s != free[n] ensures s in free[..n] {
      var i :| 0 <= i < |free| && free[i] == s;
      assert free[..n][i] == s;
    }
  }

  lemma PushKeeps(free: seq<nat>, held: set<nat>, slot: nat)
    requires Partition(free, held, {slot})
    ensures Partition(free + [slot], held, {})
  {
    forall s | 0 <= s < SLOTS && (s in free || s == slot) ensures s in free + [slot] {
    }
  }

  class ZeroCopyEncoder {
    const hardware: Hardware
    const fps: nat
    var free: seq<nat>
    /** Frames queued and not yet written out, in all queued, and written. */
    var pending: nat
    var queued: nat
    var written: nat
    /** The access units in the file. */
    var file: seq<Queued>
    var imports: seq<Entry>
    var last: Option<Frame>
    var serial: nat
    /** All pushes so far, the frames they sent, and which push sent each. */
    ghost var pushes: seq<Pushed>
    ghost var frames: seq<Frame>
    ghost var from: seq<nat>
    /** The buffers used since the cache was dropped, and whether that was in this window. */
    ghost var uses: seq<BufKey>
    ghost var current: bool

    ghost predicate Valid()
      reads this, hardware
    {
      && fps > 0 && Partition(free, hardware.held, {}) && pending + written == queued
      && CacheValid() && RunValid() && FileValid()
    }

    /** As many units are in the file as were written; unless one was lost there, they are
        those of the first pictures queued. */
    predicate FileValid()
      reads this, hardware
    {
      && |file| == written <= hardware.coded <= |hardware.sent|
      && (hardware.coded == written ==> file == hardware.sent[..written])
    }

    /** What was queued is what the pushes so far send, in order and at its time. */
    ghost predicate RunValid()
      reads this, hardware
    {
      fps > 0 && RunOk(fps, pushes, Cache(imports, queued), from, frames, hardware.sent) && last == LastOf(frames)
    }

    ghost predicate CacheValid()
      reads this
    {
      fps > 0 && CacheOk(imports) && Holds(imports, uses) && (current ==> Current(imports, queued, fps))
    }

    constructor (hardware: Hardware, fps: nat)
      requires hardware.held == {} && hardware.sent == [] && hardware.coded == 0 && fps > 0
      ensures Valid() && this.hardware == hardware && this.fps == fps && queued == 0 && imports == [] && last.None? && current && pushes == []
    {
      this.hardware, this.fps := hardware, fps;
      free := [3, 2, 1, 0];
      pending, queued, written, serial := 0, 0, 0, 0;
      imports, last, file, uses, current := [], None, [], [], true;
      pushes, frames, from := [], [], [];
    }

    /** The cached import of a key, or a new one, which is cached. */
    method CachedOr(key: BufKey) returns (s: Option<Surface>, ghost made: Option<nat>)
      requires fps > 0
      modifies this`imports, this`serial, hardware`faults
      ensures (imports, s) == Grabbed(Cache(old(imports), queued), fps, key, made)
      ensures if s.None? then hardware.faults > old(hardware.faults) else hardware.faults == old(hardware.faults)
      ensures if made.Some? then made == Some(old(serial)) && serial == old(serial) + 1 else serial == old(serial)
    {
      made := None;
      if queued % Period(fps) == 0 {
        imports := [];
      }
      var i := IndexOf(imports, key);
      if i < |imports| {
        var hit := imports[i];
        imports := Without(imports, i);
        imports := [hit] + imports;
        s := Some(hit.surface);
      } else {
        var works := hardware.MapBuffer();
        if !works {
          return None, None;
        }
        s, made := Some(Surface(serial, key, queued)), Some(serial);
        imports := Truncated([Entry(key, s.value)] + imports, IMPORT_CACHE);
        serial := serial + 1;
      }
    }

    /** The surface of a grabbed frame's buffer: the cached import, or a new one. */
    method ImportShot(key: BufKey) returns (s: Option<Surface>, ghost made: Option<nat>)
      requires CacheValid()
      modifies this`imports, this`serial, this`uses, this`current, hardware`faults
      ensures CacheValid()
      ensures s.Some? ==> s.value.key == key
      ensures if s.None? then hardware.faults > old(hardware.faults) else hardware.faults == old(hardware.faults)
      ensures if made.Some? then made == Some(old(serial)) && serial == old(serial) + 1 else serial == old(serial)
      ensures (imports, s) == Grabbed(Cache(old(imports), queued), fps, key, made)
      ensures current == (queued % Period(fps) == 0 || old(current))
      ensures s.Some? && current ==> s.value.at / Period(fps) == queued / Period(fps)
    {
      ghost var before := imports;
      s, made := CachedOr(key);
      ImportAll(before, uses, current, queued, fps, key, Made(made, key, queued));
      uses := (if queued % Period(fps) == 0 then [] else uses) + if s.Some? then [key] else [];
      current := queued % Period(fps) == 0 || current;
    }

    /** A surface the hardware does not hold, now in the caller's hand. */
    method FreeSlot() returns (slot: Option<nat>)
      requires Partition(free, hardware.held, {})
      modifies this`free, hardware`held, hardware`faults, hardware`noSlot
      ensures slot.Some? ==> Partition(free, hardware.held, {slot.value})
      ensures slot.None? ==> Partition(free, hardware.held, {})
      ensures if slot.None? then hardware.faults > old(hardware.faults) else hardware.faults == old(hardware.faults)
    {
      if free != [] {
        PopKeeps(free, hardware.held);
        slot := Some(free[|free| - 1]);
        free := free[..|free| - 1];
      } else {
        var failed: bool;
        slot, failed := hardware.Reclaim(true);
      }
    }

    /** Give a surface back unused. */
    method PutBack(slot: nat)
      requires Partition(free, hardware.held, {slot})
      modifies this`free
      ensures Partition(free, hardware.held, {})
    {
      PushKeeps(free, hardware.held, slot);
      free := free + [slot];
    }

    /** An access unit into the file. */
    method Write(unit: Queued) returns (ok: bool)
      modifies this`file, hardware`faults
      ensures file == if ok then old(file) + [unit] else old(file)
      ensures hardware.faults == if ok then old(hardware.faults) else old(hardware.faults) + 1
    {
      ok := *;
      if ok {
        file := file + [unit];
      } else {
        hardware.faults := hardware.faults + 1;
      }
    }

    /** One finished frame, if there is one by now, goes to the file. */
    method Pull(wait: bool) returns (pulled: bool, failed: bool)
      modifies this`pending, this`written, this`file, hardware`coded, hardware`faults, hardware`noUnit
      requires pending + written == queued && pending > 0 && FileValid()
      ensures pending + written == queued && FileValid()
      ensures if pulled then !failed && written == old(written) + 1 && file == old(file) + [hardware.sent[hardware.coded - 1]]
        else written == old(written) && file == old(file)
      ensures if failed || (wait && !pulled) then hardware.faults > old(hardware.faults) else hardware.faults == old(hardware.faults)
      ensures !pulled && !failed ==> hardware.noUnit
    {
      var unit, broken := hardware.Dequeue(wait);
      if unit.None? {
        return false, broken;
      }
      var ok := Write(unit.value);
      if !ok {
        return false, true;
      }
      pending := pending - 1;
      written := written + 1;
      pulled, failed := true, false;
    }

    /** Collect every surface the hardware gives back by now. */
    method DrainSlots() returns (failed: bool)
      requires Partition(free, hardware.held, {})
      modifies this`free, hardware`held, hardware`faults, hardware`noSlot
      ensures Partition(free, hardware.held, {}) && hardware.noSlot
      ensures if failed then hardware.faults > old(hardware.faults) else hardware.faults == old(hardware.faults)
    {
      var slot: Option<nat>;
      slot, failed := hardware.Reclaim(false);
      while slot.Some?
        invariant slot.Some? ==> Partition(free, hardware.held, {slot.value})
        invariant slot.None? ==> Partition(free, hardware.held, {}) && hardware.noSlot
        invariant if failed then hardware.faults > old(hardware.faults) else hardware.faults == old(hardware.faults)
        invariant slot.Some? ==> !failed
        decreases |hardware.held|, if slot.Some? then 1 else 0
      {
        PutBack(slot.value);
        slot, failed := hardware.Reclaim(false);
      }
    }

    /** Write out every frame that is ready by now. */
    method DrainFrames() returns (failed: bool)
      requires pending + written == queued && FileValid()
      modifies this`pending, this`written, this`file, hardware`coded, hardware`faults, hardware`noUnit
      ensures pending + written == queued && written >= old(written) && FileValid()
      ensures if failed then hardware.faults > old(hardware.faults) else hardware.faults == old(hardware.faults)
      ensures !failed ==> pending == 0 || hardware.noUnit
    {
      failed := false;
      var pulled := true;
      while pending > 0 && pulled
        invariant pending + written == queued && written >= old(written) && FileValid()
        invariant if failed then hardware.faults > old(hardware.faults) else hardware.faults == old(hardware.faults)
        invariant pulled ==> !failed
        invariant !pulled && !failed ==> hardware.noUnit
        decreases pending, if pulled then 1 else 0
      {
        pulled, failed := Pull(false);
      }
    }

    /** The frame is with the hardware: account for it. */
    method Account(f: Frame)
      requires fps > 0 && pending + written == queued && CacheValid()
      modifies this`queued, this`pending, this`last, this`current
      ensures pending + written == queued == old(queued) + 1 && last == Some(f) && CacheValid()
      ensures current == if queued % Period(fps) == 0 then imports == [] else old(current)
    {
      NextFrame(imports, queued, fps);
      queued := queued + 1;
      pending := pending + 1;
      last := Some(f);
      if queued % Period(fps) == 0 {
        current := imports == [];
      }
    }

    /** Convert into a surface of our own, blend the cursor and queue it; none if that fails. */
    method Draw(f: Frame, slot: nat) returns (fine: bool)
      requires slot !in hardware.held && fps > 0
      modifies hardware
      ensures fine ==>
        && hardware.held == old(hardware.held) + {slot}
        && Appends(hardware.sent, old(hardware.sent), f, PtsOf(queued, fps))
      ensures !fine ==> hardware.held == old(hardware.held) && hardware.sent == old(hardware.sent)
      ensures hardware.coded == old(hardware.coded)
      ensures if fine then hardware.faults == old(hardware.faults) else hardware.faults > old(hardware.faults)
    {
      fine := hardware.Convert(f.src, slot);
      if fine {
        if f.cursor.Some? {
          var blended := hardware.Blend(slot, f.cursor.value);
        }
        assert Shows(hardware.content[slot], f);
        fine := hardware.Queue(slot, queued * 1_000_000 / fps);
      }
    }

    /** Collect the surfaces and the access units that are ready by now. */
    method Collect() returns (failed: bool)
      requires Partition(free, hardware.held, {}) && pending + written == queued && FileValid()
      modifies this`free, this`pending, this`written, this`file
      modifies hardware`held, hardware`coded, hardware`faults, hardware`noSlot, hardware`noUnit
      ensures Partition(free, hardware.held, {}) && pending + written == queued && FileValid()
      ensures !failed ==> hardware.noSlot && (pending == 0 || hardware.noUnit)
      ensures if failed then hardware.faults > old(hardware.faults) else hardware.faults == old(hardware.faults)
    {
      failed := DrainSlots();
      if !failed {
        failed := DrainFrames();
      }
    }

    /** A frame into a surface of our own and to the hardware; then collect what is done. */
    method Send(f: Frame) returns (ok: bool, failed: bool)
      requires fps > 0 && Partition(free, hardware.held, {}) && pending + written == queued && CacheValid() && FileValid()
      modifies this`free, this`pending, this`queued, this`written, this`file, this`last, this`current, hardware
      ensures Partition(free, hardware.held, {}) && pending + written == queued && CacheValid() && FileValid()
      ensures ok ==> hardware.noSlot && (pending == 0 || hardware.noUnit)
      ensures if failed then hardware.faults > old(hardware.faults) else hardware.faults == old(hardware.faults)
      ensures (ok <==> !failed) && (ok ==> queued == old(queued) + 1)
      ensures queued == old(queued) ==> last == old(last) && current == old(current) && hardware.sent == old(hardware.sent)
      ensures queued != old(queued) ==>
        && queued == old(queued) + 1 && last == Some(f)
        && current == (if queued % Period(fps) == 0 then imports == [] else old(current))
        && Appends(hardware.sent, old(hardware.sent), f, PtsOf(old(queued), fps))
    {
      ok, failed := false, true;
      var slot := FreeSlot();
      if slot.None? {
        return;
      }
      var fine := Draw(f, slot.value);
      if !fine {
        PutBack(slot.value);
        return;
      }
      Account(f);
      failed := Collect();
      ok := !failed;
    }

    /** Encode one frame; without a grab the last one is repeated, so video time keeps pace. */
    method Push(shot: Option<Scanout>) returns (ok: bool, failed: bool, ghost e: Pushed)
      requires Valid()
      modifies this, hardware
      ensures Valid() && pushes == old(pushes) + [e]
      ensures e.shot == KeyOf(shot) && e.cursor == CursorOf(shot) && (e.sent <==> queued != old(queued))
      ensures ok ==> !failed && e.sent
      ensures !failed && !ok <==> shot.None? && old(last).None?
      // It fails only when something outside does; after success nothing is left to collect.
      ensures failed <==> hardware.faults > old(hardware.faults)
      ensures ok ==> hardware.noSlot && (pending == 0 || hardware.noUnit)
      // What is queued: the import of the grab's buffer, or the frame before.
      ensures !e.sent ==> queued == old(queued) && hardware.sent == old(hardware.sent)
      ensures e.sent ==>
        && queued == old(queued) + 1 && last.Some?
        && Appends(hardware.sent, old(hardware.sent), last.value, PtsOf(old(queued), fps))
        && (if shot.None? then last == old(last) else last.value.src.key == shot.value.key && last.value.cursor == shot.value.cursor)
      ensures e.sent && shot.Some? && (old(current) || old(queued) % Period(fps) == 0) ==>
        last.value.src.at / Period(fps) == old(queued) / Period(fps)
      ensures e.sent ==>
        current == if queued % Period(fps) == 0 then imports == [] else old(current) || (shot.Some? && old(queued) % Period(fps) == 0)
    {
      ghost var c, sent := Cache(imports, queued), hardware.sent;
      ghost var f;
      ok, failed, e, f := Encode(shot);
      ghost var from', frames' := RunGrows(fps, pushes, e, c, from, frames, f, sent, Cache(imports, queued), hardware.sent);
      pushes, from, frames := pushes + [e], from', frames';
    }

    /** What a push does: pick the frame, draw it and send it. */
    method Encode(shot: Option<Scanout>) returns (ok: bool, failed: bool, ghost e: Pushed, ghost f: Option<Frame>)
      requires fps > 0 && Partition(free, hardware.held, {}) && pending + written == queued && CacheValid() && FileValid()
      modifies this`free, this`pending, this`queued, this`written, this`file, this`last, this`current
      modifies this`imports, this`serial, this`uses, hardware
      ensures Partition(free, hardware.held, {}) && pending + written == queued && CacheValid() && FileValid()
      ensures ok ==> hardware.noSlot && (pending == 0 || hardware.noUnit)
      ensures if failed then hardware.faults > old(hardware.faults) else hardware.faults == old(hardware.faults)
      ensures e.shot == KeyOf(shot) && e.cursor == CursorOf(shot) && (e.sent <==> queued != old(queued))
      ensures f == FrameOf(Cache(old(imports), old(queued)), fps, old(last), e)
      ensures Cache(imports, queued) == Next(Cache(old(imports), old(queued)), fps, e)
      ensures queued == if e.sent then old(queued) + 1 else old(queued)
      ensures last == if e.sent then f else old(last)
      ensures if e.sent then f.Some? && Appends(hardware.sent, old(hardware.sent), f.value, PtsOf(old(queued), fps))
        else hardware.sent == old(hardware.sent)
      ensures f.Some? && shot.Some? ==> f.value.src.key == shot.value.key && f.value.cursor == shot.value.cursor
      ensures ok ==> !failed && e.sent
      ensures !failed && !ok <==> shot.None? && old(last).None?
      ensures f.Some? && shot.Some? && (old(current) || old(queued) % Period(fps) == 0) ==>
        f.value.src.at / Period(fps) == old(queued) / Period(fps)
      ensures e.sent ==>
        current == if queued % Period(fps) == 0 then imports == [] else old(current) || (shot.Some? && old(queued) % Period(fps) == 0)
    {
      ghost var before := queued;
      var g;
      ghost var made;
      g, made := Pick(shot);
      f := g;
      if g.Some? {
        ok, failed := Send(g.value);
      } else {
        ok, failed := false, shot.Some?;
      }
      e := Pushed(KeyOf(shot), CursorOf(shot), made, queued != before);
    }

    /** The frame to send: the import of a grab, or the one before. */
    method Pick(shot: Option<Scanout>) returns (f: Option<Frame>, ghost made: Option<nat>)
      requires CacheValid()
      modifies this`imports, this`serial, this`uses, this`current, hardware`faults
      ensures CacheValid()
      ensures if f.None? && shot.Some? then hardware.faults > old(hardware.faults) else hardware.faults == old(hardware.faults)
      ensures f == FrameOf(Cache(old(imports), queued), fps, last, Pushed(KeyOf(shot), CursorOf(shot), made, false))
      ensures imports == Next(Cache(old(imports), queued), fps, Pushed(KeyOf(shot), CursorOf(shot), made, false)).imports
      ensures f.Some? && shot.Some? ==> f.value.src.key == shot.value.key && f.value.cursor == shot.value.cursor
      ensures current == (old(current) || (shot.Some? && queued % Period(fps) == 0))
      ensures f.Some? && shot.Some? && current ==> f.value.src.at / Period(fps) == queued / Period(fps)
    {
      made := None;
      if shot.None? {
        return last, made;
      }
      var s;
      s, made := ImportShot(shot.value.key);
      f := if s.Some? then Some(Frame(s.value, shot.value.cursor)) else None;
    }

    /** Wait for every queued frame: then the file holds all of them, in order. */
    method Finish() returns (ok: bool)
      requires Valid()
      modifies this`pending, this`written, this`file, hardware`coded, hardware`faults, hardware`noUnit
      ensures Valid() && (ok ==> written == queued && file == hardware.sent)
      ensures ok <==> hardware.faults == old(hardware.faults)
    {
      while pending > 0
        invariant Valid() && hardware.faults == old(hardware.faults)
        decreases pending
      {
        var pulled, failed := Pull(true);
        if !pulled {
          return false;
        }
      }
      ok := true;
    }
  }

  function KeyOf(shot: Option<Scanout>): Option<BufKey> {
    if shot.Some? then Some(shot.value.key) else None
  }

  function CursorOf(shot: Option<Scanout>): Option<nat> {
    if shot.Some? then shot.value.cursor else None
  }

  function PtsOf(queued: nat, fps: nat): nat
    requires fps > 0
  {
    queued * 1_000_000 / fps
  }

  /** A frame's time is its number over the rate, cut to microseconds. */
  lemma PtsNear(k: nat, fps: nat)
    requires fps > 0
    ensures 0 <= k * 1_000_000 - fps * PtsOf(k, fps) < fps
  {
    var n := k * 1_000_000;
    assert n == fps * (n / fps) + n % fps;
  }

  // ---------- what a run of pushes sends ----------

  function LastOf(frames: seq<Frame>): Option<Frame> {
    if frames == [] then None else Some(frames[|frames| - 1])
  }

  /** What a push sends if it can: the import of its grab, or the frame before. */
  function FrameOf(c: Cache, fps: nat, last: Option<Frame>, e: Pushed): Option<Frame>
    requires fps > 0
  {
    match e.shot
    case None => last
    case Some(key) =>
      var s := Grabbed(c, fps, key, e.made).1;
      if s.Some? then Some(Frame(s.value, e.cursor)) else None
  }

  /** What was queued shows the frames, one by one, each at its time. */
  ghost predicate ShowAll(sent: seq<Queued>, frames: seq<Frame>, fps: nat)
    requires fps > 0
  {
    && |sent| == |frames|
    && forall k :: 0 <= k < |sent| ==> Shows(sent[k].picture, frames[k]) && sent[k].pts == PtsOf(k, fps)
  }

  /** The frame at `q` is push `n`'s own: of its grab's buffer and cursor, as imported then, or
      the one before. */
  predicate OwnFrame(fps: nat, es: seq<Pushed>, n: nat, frames: seq<Frame>, q: nat)
    requires fps > 0
  {
    && n < |es| && q < |frames| && es[n].sent
    && (es[n].shot.Some? ==>
          && frames[q].src.key == es[n].shot.value && frames[q].cursor == es[n].cursor
          && Grabbed(CacheAt(fps, es, n), fps, es[n].shot.value, es[n].made).1 == Some(frames[q].src))
    && (es[n].shot.None? ==> q > 0 && frames[q] == frames[q - 1])
  }

  /** The frames are those of the pushes that sent, each with its own, in their order. */
  predicate InOrder(fps: nat, es: seq<Pushed>, from: seq<nat>, frames: seq<Frame>)
    requires fps > 0
  {
    && |from| == |frames|
    && (forall a, b :: 0 <= a < b < |from| ==> from[a] < from[b])
    && (forall q :: 0 <= q < |from| ==> OwnFrame(fps, es, from[q], frames, q))
    && (forall n :: 0 <= n < |es| && es[n].sent ==> n in from)
  }

  /** The cache and the last frame are what the pushes made them, and what was queued shows
      their frames. */
  ghost predicate RunOk(fps: nat, es: seq<Pushed>, c: Cache, from: seq<nat>, frames: seq<Frame>, sent: seq<Queued>)
    requires fps > 0
  {
    && c == CacheAt(fps, es, |es|) && InOrder(fps, es, from, frames)
    && ShowAll(sent, frames, fps) && |sent| == c.queued
  }

  lemma OwnStays(fps: nat, es: seq<Pushed>, longer: seq<Pushed>, n: nat, frames: seq<Frame>, more: seq<Frame>, q: nat)
    requires fps > 0 && OwnFrame(fps, es, n, frames, q) && es <= longer && frames <= more
    ensures OwnFrame(fps, longer, n, more, q)
  {
    SameCache(fps, es, longer, n, CacheAt(fps, es, n));
  }

  lemma OrderStays(fps: nat, es: seq<Pushed>, e: Pushed, from: seq<nat>, frames: seq<Frame>)
    requires fps > 0 && InOrder(fps, es, from, frames) && !e.sent
    ensures InOrder(fps, es + [e], from, frames)
  {
    forall q | 0 <= q < |from| ensures OwnFrame(fps, es + [e], from[q], frames, q) {
      OwnStays(fps, es, es + [e], from[q], frames, frames, q);
    }
  }

  /** The frame of a push that sends is its own. */
  lemma OwnNow(fps: nat, es: seq<Pushed>, e: Pushed, c: Cache, frames: seq<Frame>, f: Frame)
    requires fps > 0 && c == CacheAt(fps, es, |es|) && CacheOk(c.imports)
    requires e.sent && FrameOf(c, fps, LastOf(frames), e) == Some(f)
    ensures OwnFrame(fps, es + [e], |es|, frames + [f], |frames|)
  {
    SameCache(fps, es, es + [e], |es|, c);
    if e.shot.Some? {
      ImportKeeps(c.imports, c.queued, fps, e.shot.value, Made(e.made, e.shot.value, c.queued));
    }
  }

  lemma LaterOnes(from: seq<nat>, n: nat)
    requires (forall a, b :: 0 <= a < b < |from| ==> from[a] < from[b]) && forall q :: 0 <= q < |from| ==> from[q] < n
    ensures forall a, b :: 0 <= a < b < |from| + 1 ==> (from + [n])[a] < (from + [n])[b]
  {
  }

  lemma AllSent(es: seq<Pushed>, e: Pushed, from: seq<nat>)
    requires forall n :: 0 <= n < |es| && es[n].sent ==> n in from
    ensures forall n :: 0 <= n < |es| + 1 && (es + [e])[n].sent ==> n in from + [|es|]
  {
    forall n | 0 <= n < |es| + 1 && (es + [e])[n].sent ensures n in from + [|es|] {
      if n < |es| {
        assert es[n].sent;
      }
    }
  }

  lemma OrderGrows(fps: nat, es: seq<Pushed>, e: Pushed, c: Cache, from: seq<nat>, frames: seq<Frame>, f: Frame)
    requires fps > 0 && InOrder(fps, es, from, frames) && c == CacheAt(fps, es, |es|) && CacheOk(c.imports)
    requires e.sent && FrameOf(c, fps, LastOf(frames), e) == Some(f)
    ensures InOrder(fps, es + [e], from + [|es|], frames + [f])
  {
    OwnNow(fps, es, e, c, frames, f);
    forall q | 0 <= q < |from| + 1 ensures OwnFrame(fps, es + [e], (from + [|es|])[q], frames + [f], q) {
      if q < |from| {
        OwnStays(fps, es, es + [e], from[q], frames, frames + [f], q);
      }
    }
    forall q | 0 <= q < |from| ensures from[q] < |es| {
      assert OwnFrame(fps, es, from[q], frames, q);
    }
    LaterOnes(from, |es|);
    AllSent(es, e, from);
  }

  /** One push more. */
  lemma RunGrows(fps: nat, es: seq<Pushed>, e: Pushed, c: Cache, from: seq<nat>, frames: seq<Frame>, f: Option<Frame>,
                 sent: seq<Queued>, c': Cache, sent': seq<Queued>) returns (from': seq<nat>, frames': seq<Frame>)
    requires fps > 0 && RunOk(fps, es, c, from, frames, sent) && CacheOk(c.imports) && f == FrameOf(c, fps, LastOf(frames), e)
    requires c' == Next(c, fps, e) && c'.queued == if e.sent then c.queued + 1 else c.queued
    requires if e.sent then f.Some? && Appends(sent', sent, f.value, PtsOf(c.queued, fps)) else sent' == sent
    ensures RunOk(fps, es + [e], c', from', frames', sent')
    ensures LastOf(frames') == if e.sent then f else LastOf(frames)
  {
    SameCache(fps, es, es + [e], |es|, c);
    CacheStep(fps, es + [e], |es| + 1);
    from', frames' := from, frames;
    if e.sent {
      OrderGrows(fps, es, e, c, from, frames, f.value);
      ShowMore(sent, frames, fps, f.value, sent');
      from', frames' := from + [|es|], frames + [f.value];
    } else {
      OrderStays(fps, es, e, from, frames);
    }
  }

  lemma ShowMore(sent: seq<Queued>, frames: seq<Frame>, fps: nat, f: Frame, sent': seq<Queued>)
    requires fps > 0 && ShowAll(sent, frames, fps)
    requires Appends(sent', sent, f, PtsOf(|frames|, fps))
    ensures ShowAll(sent', frames + [f], fps)
  {
  }

  /** Everything a grab keeps and promises. */
  lemma ImportAll(imports: seq<Entry>, uses: seq<BufKey>, current: bool, queued: nat, fps: nat, key: BufKey, made: Option<Surface>)
    requires fps > 0 && CacheOk(imports) && Holds(imports, uses) && (current ==> Current(imports, queued, fps))
    requires made.Some? ==> made.value.key == key && made.value.at == queued
    ensures var (after, s) := Import(imports, queued, fps, key, made);
      var since := if queued % Period(fps) == 0 then [] else uses;
      && CacheOk(after) && Holds(after, since + if s.Some? then [key] else [])
      && (s.Some? ==> s.value.key == key)
      && (queued % Period(fps) == 0 || current ==>
            && Current(after, queued, fps)
            && (s.Some? ==> s.value.at / Period(fps) == queued / Period(fps)))
  {
    var since := if queued % Period(fps) == 0 then [] else uses;
    assert since + [] == since;
    ImportKeeps(imports, queued, fps, key, made);
    ImportRefines(imports, uses, queued, fps, key, made);
    if queued % Period(fps) == 0 || current {
      ImportCurrent(imports, queued, fps, key, made);
    }
  }

  lemma NextFrame(imports: seq<Entry>, queued: nat, fps: nat)
    requires fps > 0
    ensures (queued + 1) % Period(fps) != 0 ==> (queued + 1) / Period(fps) == queued / Period(fps)
    ensures (queued + 1) % Period(fps) != 0 && Current(imports, queued, fps) ==> Current(imports, queued + 1, fps)
    ensures imports == [] ==> Current(imports, queued + 1, fps)
  {
    var p := Period(fps);
    if (queued + 1) % p != 0 {
      SameWindow(queued, p);
    }
  }

  lemma SameWindow(q: nat, p: nat)
    requires p > 0 && (q + 1) % p != 0
    ensures (q + 1) / p == q / p
  {
    var d, r := q / p, q % p;
    assert q == p * d + r;
    if r + 1 == p {
      assert q + 1 == p * (d + 1);
      Quotient(q + 1, p, d + 1, 0);
    } else {
      Quotient(q + 1, p, d, r + 1);
    }
  }

  // ---------- the window rule, exactly ----------

  /** The cache after a window's first frame was queued: a grab drops the old imports, a
      repeat does not look at them. */
  function AfterBoundary(imports: seq<Entry>, queued: nat, fps: nat, shot: Option<BufKey>, made: Option<Surface>): seq<Entry>
    requires fps > 0
  {
    if shot.Some? then Import(imports, queued, fps, shot.value, made).0 else imports
  }

  /** The cache holds imports of the new window only, exactly when the window's first frame
      was grabbed or the cache was empty. */
  lemma BoundaryFrame(imports: seq<Entry>, queued: nat, fps: nat, shot: Option<BufKey>, made: Option<Surface>)
    requires fps > 0 && queued % Period(fps) == 0 && (made.Some? ==> made.value.at == queued)
    requires forall i :: 0 <= i < |imports| ==> imports[i].surface.at < queued
    ensures Current(AfterBoundary(imports, queued, fps, shot, made), queued, fps) <==> shot.Some? || imports == []
  {
    if shot.None? && imports != [] {
      OlderWindow(imports[0].surface.at, queued, Period(fps));
    }
  }

  lemma OlderWindow(at: nat, queued: nat, p: nat)
    requires p > 0 && at < queued && queued % p == 0
    ensures at / p < queued / p
  {
    if at / p >= queued / p {
      MulMono(p, queued / p, at / p);
    }
  }

  /** At 1 frame a second: a grab, a repeat, a repeat at 2 seconds, and a grab of the same
      buffer, which shows the import of frame 0. */
  lemma StaleHit(key: BufKey)
    ensures exists es: seq<Pushed> ::
      && |es| == 4 && es[3] == Pushed(Some(key), None, Some(1), true) && WindowOf(1, es, 3) == 2
      && Grabbed(CacheAt(1, es, 3), 1, key, Some(1)).1 == Some(Surface(0, key, 0))
  {
    var repeat := Pushed(None, None, None, true);
    var es := [Pushed(Some(key), None, Some(0), true), repeat, repeat, Pushed(Some(key), None, Some(1), true)];
    assert CacheAt(1, es, 1) == Cache([Entry(key, Surface(0, key, 0))], 1);
    assert CacheAt(1, es, 2).queued == 2 && CacheAt(1, es, 3).queued == 3;
    assert StartOf(1, es, 2) == 2;
  }
}
