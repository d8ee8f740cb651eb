/** The pointer's range and the capture thread's desktop, kept in step through a slot. */
module Desktop {
  import opened Wrappers
  import opened Geometry

  datatype Request = Ping | SetLayout | Status | Displays | Screenshot | Cursor | InputRequest | RecordStart | RecordStop | RecordStatus

  /** What one look for a hotplug finds: nothing, or new heads and their desktop, if any is
      placed. */
  datatype Plug = NoPlug | Plugged(desktop: Option<Rect>)

  /** A new layout is refused before it changes anything, or applied. */
  datatype LayoutOutcome = Rejected | Applied(desktop: Option<Rect>)

  /** What the outside does during one request: whether a recording runs, what the first and
      the second look for a hotplug find, the layout, and whether a pointer device can be made. */
  datatype Weather = Weather(recording: bool, first: Plug, second: Plug, layout: LayoutOutcome, device: bool)

  /** The capture thread's desktop, the pending slot and the pointer's range. */
  datatype Desk = Desk(desktop: Option<Rect>, slot: Option<Rect>, pointer: Rect)

  /** The pointer covers the desktop, or will before it is next used. */
  predicate InStep(d: Desk) {
    d.desktop.Some? ==> d.slot == d.desktop || (d.slot.None? && d.pointer == d.desktop.value)
  }

  // ---------- the steps ----------

  function AfterHotplug(d: Desk, recording: bool, plug: Plug): Desk {
    if recording || plug.NoPlug? then d
    else d.(desktop := plug.desktop, slot := if plug.desktop.Some? then plug.desktop else d.slot)
  }

  /** Making the pointer anew; false when that fails. */
  function AfterSetDesktop(d: Desk, r: Rect, device: bool): (Desk, bool) {
    if r == d.pointer then (d, true)
    else if device then (d.(pointer := r), true) else (d, false)
  }

  function AfterSync(d: Desk, device: bool): (Desk, bool) {
    if d.slot.None? then (d, true) else AfterSetDesktop(d.(slot := None), d.slot.value, device)
  }

  function AfterStatus(d: Desk, w: Weather): (Desk, bool) {
    AfterSync(AfterHotplug(d, w.recording, w.second), w.device)
  }

  function AfterSetLayout(d: Desk, w: Weather): (Desk, bool) {
    if w.recording then (d, false)
    else
      var seen := AfterHotplug(d, false, w.first);
      if w.layout.Rejected? then (seen, false)
      else
        var laid := seen.(desktop := w.layout.desktop);
        if laid.desktop.None? then (laid, false)
        else
          var (moved, ok) := AfterSetDesktop(laid, laid.desktop.value, w.device);
          if ok then AfterStatus(moved, w) else (moved, false)
  }

  /** One request, as it leaves things, and whether it went through. */
  function AfterRequest(d: Desk, req: Request, w: Weather): (Desk, bool) {
    var (synced, ok) := AfterSync(d, w.device);
    if !ok then (synced, false)
    else
      match req
      case SetLayout => AfterSetLayout(synced, w)
      case Status => AfterStatus(synced, w)
      case Displays | Screenshot | Cursor => (AfterHotplug(synced, w.recording, w.first), true)
      case _ => (synced, true)
  }

  // ---------- what a request comes to ----------

  /** What a look for a hotplug finds placed; nothing during a recording. */
  function Found(w: Weather, plug: Plug): Option<Rect> {
    if !w.recording && plug.Plugged? then plug.desktop else None
  }

  function Told(r: Option<Rect>): seq<Rect> {
    if r == None then [] else [r.value]
  }

  /** A layout change that is let through and leaves a desktop. */
  predicate LaysOut(w: Weather) {
    !w.recording && w.layout.Applied? && w.layout.desktop != None
  }

  /** What a status at the end of a request finds in the slot: a hotplug of its own look, or
      the one found before the layout. */
  function Seen(req: Request, w: Weather): Option<Rect> {
    if req == SetLayout && LaysOut(w) && Found(w, w.second) == None then Found(w, w.first)
    else if req == Status || (req == SetLayout && LaysOut(w)) then Found(w, w.second)
    else None
  }

  /** The rectangles the pointer is told of during a request, in order: the one in the slot,
      the layout's, and what a status finds. */
  function Moves(d: Desk, req: Request, w: Weather): seq<Rect> {
    Told(d.slot) + Told(if req == SetLayout && LaysOut(w) then w.layout.desktop else None) + Told(Seen(req, w))
  }

  lemma AllTold(a: Option<Rect>, b: Option<Rect>, c: Option<Rect>, p: Rect)
    ensures (forall r :: r in Told(a) + Told(b) + Told(c) ==> r == p) <==>
      (a == None || a.value == p) && (b == None || b.value == p) && (c == None || c.value == p)
  {
    assert forall o, r :: r in Told(o) <==> o == Some(r);
    var all := Told(a) + Told(b) + Told(c);
    assert (a != None ==> a.value in all) && (b != None ==> b.value in all) && (c != None ==> c.value in all);
  }

  /** A request goes through unless it is a layout change that is refused or leaves nothing,
      or a pointer has to be made and cannot be. */
  lemma GoesThrough(d: Desk, req: Request, w: Weather)
    ensures AfterRequest(d, req, w).1 <==>
      (req == SetLayout ==> LaysOut(w)) && (w.device || forall r :: r in Moves(d, req, w) ==> r == d.pointer)
  {
    var laid := if req == SetLayout && LaysOut(w) then w.layout.desktop else None;
    AllTold(d.slot, laid, Seen(req, w), d.pointer);
    assert Moves(d, req, w) == Told(d.slot) + Told(laid) + Told(Seen(req, w));
  }

  /** The pointer ends on the last rectangle it was told of; it stays where no device can be
      made. */
  lemma PointerGoes(d: Desk, req: Request, w: Weather)
    ensures var moves := Moves(d, req, w);
      AfterRequest(d, req, w).0.pointer == if w.device && moves != [] then moves[|moves| - 1] else d.pointer
  {
  }

  /** What the requests that look make of a hotplug outside a recording: its desktop is the
      capture's, and waits for the pointer in the slot if there is one. The others look at
      nothing and leave the slot empty. */
  lemma LookingFinds(d: Desk, req: Request, w: Weather)
    requires w.device && req != SetLayout && req != Status
    ensures var after, looks := AfterRequest(d, req, w).0, req == Displays || req == Screenshot || req == Cursor;
      && after.desktop == (if looks && !w.recording && w.first != NoPlug then w.first.desktop else d.desktop)
      && after.slot == (if looks then Found(w, w.first) else None)
  {
  }

  /** The desktop after a status: what the second look finds, or the one of before. */
  lemma StatusFinds(d: Desk, w: Weather)
    requires w.device
    ensures var after := AfterRequest(d, Status, w).0;
      && after.desktop == (if !w.recording && w.second != NoPlug then w.second.desktop else d.desktop)
      && after.slot == None
  {
  }

  /** The desktop after a layout change: what the status at its end finds, else the layout's,
      else what it found before it was refused; a recording keeps it as it is. */
  lemma LayoutLeaves(d: Desk, w: Weather)
    requires w.device
    ensures var after := AfterRequest(d, SetLayout, w).0;
      && after.desktop ==
        (if w.recording then d.desktop
         else if LaysOut(w) && w.second != NoPlug then w.second.desktop
         else if w.layout != Rejected then w.layout.desktop
         else if w.first != NoPlug then w.first.desktop
         else d.desktop)
      && after.slot == if LaysOut(w) then None else Found(w, w.first)
  {
  }

  // ---------- what requests keep ----------

  /** A hotplug came to light inside `SetLayout`, and the layout then moved the desktop. */
  predicate StaleSlot(req: Request, w: Weather) {
    && req.SetLayout? && !w.recording
    && w.first.Plugged? && w.first.desktop.Some?
    && w.layout.Applied? && w.layout.desktop.Some? && w.layout.desktop != w.first.desktop
    && w.second.NoPlug?
  }

  /** With a working device, a request keeps pointer and desktop in step exactly when it is
      not a layout change that finds a hotplug first. */
  lemma InStepKept(d: Desk, req: Request, w: Weather)
    requires InStep(d) && w.device
    ensures InStep(AfterRequest(d, req, w).0) <==> !StaleSlot(req, w)
  {
  }

  /** Runs of requests. */
  function AfterAll(d: Desk, reqs: seq<(Request, Weather)>): Desk {
    if reqs == [] then d
    else AfterRequest(AfterAll(d, reqs[..|reqs| - 1]), reqs[|reqs| - 1].0, reqs[|reqs| - 1].1).0
  }

  lemma {:induction false} InStepRun(d: Desk, reqs: seq<(Request, Weather)>)
    requires InStep(d)
    requires forall k :: 0 <= k < |reqs| ==> reqs[k].1.device && !StaleSlot(reqs[k].0, reqs[k].1)
    ensures InStep(AfterAll(d, reqs))
  {
    if reqs != [] {
      var n := |reqs| - 1;
      InStepRun(d, reqs[..n]);
      InStepKept(AfterAll(d, reqs[..n]), reqs[n].0, reqs[n].1);
    }
  }

  /** Input is carried out on a pointer that covers the desktop as screenshots show it. */
  lemma InputCoversDesktop(d: Desk, reqs: seq<(Request, Weather)>, w: Weather)
    requires InStep(d) && w.device
    requires forall k :: 0 <= k < |reqs| ==> reqs[k].1.device && !StaleSlot(reqs[k].0, reqs[k].1)
    ensures var (after, ok) := AfterRequest(AfterAll(d, reqs), InputRequest, w);
      ok && (after.desktop.Some? ==> after.pointer == after.desktop.value) && after.slot.None?
  {
    InStepRun(d, reqs);
  }

  /** Once stale, the pointer stays so until a hotplug or another layout. */
  lemma {:induction false} StaleStays(d: Desk, reqs: seq<(Request, Weather)>)
    requires d.desktop.Some? && d.slot.None? && d.pointer != d.desktop.value
    requires forall k :: 0 <= k < |reqs| ==>
      !reqs[k].0.SetLayout? && reqs[k].1.first.NoPlug? && reqs[k].1.second.NoPlug?
    ensures AfterAll(d, reqs) == d
  {
    if reqs != [] {
      StaleStays(d, reqs[..|reqs| - 1]);
    }
  }

  /** A second screen found by the layout change itself: the pointer ends on the layout of
      before. */
  lemma StaleAfterLayout()
    ensures var one, two, wide := Rect(0, 0, 100, 100), Rect(0, 0, 200, 100), Rect(0, 0, 300, 100);
      var w := Weather(false, Plugged(Some(two)), NoPlug, Applied(Some(wide)), true);
      AfterRequest(Desk(Some(one), None, one), SetLayout, w) == (Desk(Some(wide), None, two), true)
  {
  }

  // ---------- the two threads ----------

  /** The pending rectangle, behind its lock. */
  class Slot {
    var pending: Option<Rect>

    constructor ()
      ensures pending == None
    {
      pending := None;
    }
  }

  class CaptureWorker {
    const slot: Slot
    var desktop: Option<Rect>

    constructor (slot: Slot, desktop: Option<Rect>)
      ensures this.slot == slot && this.desktop == desktop
    {
      this.slot, this.desktop := slot, desktop;
    }

    /** A hotplug waits for the end of a recording. */
    method Hotplug(recording: bool, plug: Plug)
      modifies this, slot
      ensures forall p :: Desk(desktop, slot.pending, p) == AfterHotplug(Desk(old(desktop), old(slot.pending), p), recording, plug)
    {
      if recording {
        return;
      }
      if plug.Plugged? {
        desktop := plug.desktop;
        if desktop.Some? {
          slot.pending := desktop;
        }
      }
    }

    /** The layout's desktop, or an error. */
    method ChangeLayout(w: Weather) returns (r: Option<Rect>)
      modifies this, slot
      ensures w.recording ==> r.None? && desktop == old(desktop) && slot.pending == old(slot.pending)
      ensures !w.recording ==> forall p :: var seen := AfterHotplug(Desk(old(desktop), old(slot.pending), p), false, w.first);
        Desk(desktop, slot.pending, p) == if w.layout.Applied? then seen.(desktop := w.layout.desktop) else seen
      ensures !w.recording ==> r == if w.layout.Applied? then w.layout.desktop else None
    {
      if w.recording {
        return None;
      }
      Hotplug(false, w.first);
      if w.layout.Rejected? {
        return None;
      }
      desktop := w.layout.desktop;
      r := desktop;
    }
  }

  class Daemon {
    const worker: CaptureWorker
    const slot: Slot
    var pointer: Rect

    constructor (worker: CaptureWorker, pointer: Rect)
      ensures this.worker == worker && slot == worker.slot && this.pointer == pointer
    {
      this.worker, slot, this.pointer := worker, worker.slot, pointer;
    }

    function View(): Desk
      reads this, worker, slot
    {
      Desk(worker.desktop, slot.pending, pointer)
    }

    method SetDesktop(r: Rect, device: bool) returns (ok: bool)
      modifies this
      ensures (View(), ok) == AfterSetDesktop(old(View()), r, device)
    {
      if r == pointer {
        return true;
      }
      if !device {
        return false;
      }
      pointer := r;
      ok := true;
    }

    /** Apply a desktop the capture thread left in the slot. */
    method SyncPointer(device: bool) returns (ok: bool)
      modifies this, slot
      ensures (View(), ok) == AfterSync(old(View()), device)
    {
      var pending := slot.pending;
      slot.pending := None;
      if pending.None? {
        return true;
      }
      ok := SetDesktop(pending.value, device);
    }

    method ReportStatus(w: Weather) returns (ok: bool)
      requires slot == worker.slot
      modifies this, worker, slot
      ensures (View(), ok) == AfterStatus(old(View()), w)
    {
      worker.Hotplug(w.recording, w.second);
      ok := SyncPointer(w.device);
    }

    method ApplyLayout(w: Weather) returns (ok: bool)
      requires slot == worker.slot
      modifies this, worker, slot
      ensures (View(), ok) == AfterSetLayout(old(View()), w)
    {
      var desktop := worker.ChangeLayout(w);
      if desktop.None? {
        return false;
      }
      ok := SetDesktop(desktop.value, w.device);
      if ok {
        ok := ReportStatus(w);
      }
    }

    /** One request. */
    method Dispatch(req: Request, w: Weather) returns (ok: bool)
      requires slot == worker.slot
      modifies this, worker, slot
      ensures (View(), ok) == AfterRequest(old(View()), req, w)
    {
      ok := SyncPointer(w.device);
      if !ok {
        return;
      }
      match req {
        case SetLayout => ok := ApplyLayout(w);
        case Status => ok := ReportStatus(w);
        case Displays => worker.Hotplug(w.recording, w.first);
        case Screenshot => worker.Hotplug(w.recording, w.first);
        case Cursor => worker.Hotplug(w.recording, w.first);
        case _ =>
      }
    }
  }
}
