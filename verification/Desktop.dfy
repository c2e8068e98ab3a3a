/** The window system as the engine sees it. `Desk` is its state as a value, with one function per
    call; `Desktop` is the mutable object the engine is handed, whose methods are proved to do what
    those functions say. Everything the engine does not decide is read from a `Fate`. */
module Desktop {
  import opened Model

  datatype WindowRec = WindowRec(
    pid: Pid,
    className: string,
    parent: Hwnd,
    owner: Hwnd,
    rect: Option<Rect>,
    visible: bool)
  {
    function IdentityAs(hwnd: Hwnd): WindowIdentity { WindowIdentity(hwnd, pid, className) }
  }

  /** What a check saw: the window behind the handle, if any, whether it responded, the control flags, and
      whether the close deadline had passed. */
  datatype Sighting = Sighting(rec: Option<WindowRec>, hung: bool, live: bool, late: bool)

  datatype CallKind =
    | Look(seen: Sighting)
    | SwHide
    | SwShow
    | SetWindowPos(x: int, y: int, width: int, height: int, noMove: bool)
    | WmClose

  /** One check or mutation attempt, in call order. */
  datatype ApiCall = ApiCall(target: Hwnd, kind: CallKind, succeeded: bool)

  /** What the outside world does. At the n-th interaction: which calls are refused, which windows a
      WM_CLOSE takes with it, which windows stop responding or disappear on their own, whether
      another thread switches the engine off, and whether the close deadline has passed. Before the
      n-th check: which windows appear, possibly under the handle of another, which respond again,
      and whether the engine is switched on. */
  datatype Fate = Fate(
    refusesShow: (nat, Hwnd) -> bool,
    refusesPos: (nat, Hwnd) -> bool,
    closes: (nat, Hwnd) -> set<Hwnd>,
    hangs: nat -> set<Hwnd>,
    dies: nat -> set<Hwnd>,
    switchesOff: nat -> bool,
    late: nat -> bool,
    appears: nat -> map<Hwnd, WindowRec>,
    recovers: nat -> set<Hwnd>,
    switchesOn: nat -> bool)

  /** `live` is the conjunction of the control flags: not stopping, enabled, applying. */
  datatype Desk = Desk(
    windows: map<Hwnd, WindowRec>,
    hung: set<Hwnd>,
    live: bool,
    clock: nat,
    looks: nat,
    log: seq<ApiCall>,
    fate: Fate)
  {
    /** Time passes: windows may hang or die and the engine may be switched off. */
    function Drifted(): Desk {
      this.(windows := windows - fate.dies(clock),
            hung := hung + fate.hangs(clock),
            live := live && !fate.switchesOff(clock),
            clock := clock + 1)
    }

    function SightingOf(h: Hwnd): Sighting {
      Sighting(if h in windows then Some(windows[h]) else None, h in hung, live, fate.late(clock))
    }

    /** A check of one window. Until it, windows may also appear or recover; what it sees stays behind
        the handle until the calls it guards, unless it dies. */
    function Looked(h: Hwnd): Desk {
      var d := Drifted();
      var d1 := d.(windows := d.windows + fate.appears(looks),
                   hung := d.hung - fate.recovers(looks),
                   live := d.live || fate.switchesOn(looks),
                   looks := looks + 1);
      d1.Logged(h, Look(d1.SightingOf(h)), true)
    }

    predicate Matches(id: WindowIdentity) {
      id.hwnd in windows && windows[id.hwnd].IdentityAs(id.hwnd) == id
    }

    /** The window's own WS_VISIBLE style, whatever its ancestors show. */
    predicate HasVisibleStyle(h: Hwnd) { h in windows && windows[h].visible }

    function GetWindowRect(h: Hwnd): Option<Rect> {
      if h in windows then windows[h].rect else None
    }

    function Logged(h: Hwnd, kind: CallKind, ok: bool): Desk {
      this.(log := log + [ApiCall(h, kind, ok)])
    }

    function ShowWindow(h: Hwnd, show: bool): (Desk, bool) {
      var d := Drifted();
      var ok := h in d.windows && !fate.refusesShow(clock, h);
      var kind := if show then SwShow else SwHide;
      ((if ok then d.(windows := d.windows[h := d.windows[h].(visible := show)]) else d).Logged(h, kind, ok), ok)
    }

    function SetWindowPos(h: Hwnd, x: int, y: int, width: int, height: int, noMove: bool): (Desk, bool) {
      var d := Drifted();
      var ok := h in d.windows && !fate.refusesPos(clock, h);
      var kind := CallKind.SetWindowPos(x, y, width, height, noMove);
      ((if ok
        then d.(windows := d.windows[h := d.windows[h].(rect := Some(Placed(d.windows[h].rect, x, y, width, height, noMove)))])
        else d).Logged(h, kind, ok), ok)
    }

    function SendClose(h: Hwnd): Desk {
      var d := Drifted();
      var ok := h in d.windows;
      (if ok then d.(windows := d.windows - fate.closes(clock, h)) else d).Logged(h, WmClose, ok)
    }
  }

  /** SetWindowPos on one rectangle: SWP_NOMOVE keeps the corner; the size is always set. */
  function Placed(rect: Option<Rect>, x: int, y: int, width: int, height: int, noMove: bool): Rect {
    match rect
    case None => Rect(x, y, x + width, y + height)
    case Some(r) =>
      var left := if noMove then r.left else x;
      var top := if noMove then r.top else y;
      Rect(left, top, left + width, top + height)
  }

  class Desktop {
    var windows: map<Hwnd, WindowRec>
    var hung: set<Hwnd>
    var live: bool
    var clock: nat
    var looks: nat
    var log: seq<ApiCall>
    const fate: Fate

    constructor (windows: map<Hwnd, WindowRec>, hung: set<Hwnd>, live: bool, fate: Fate)
      ensures State() == Desk(windows, hung, live, 0, 0, [], fate)
    {
      this.windows, this.hung, this.live, this.fate := windows, hung, live, fate;
      clock, looks, log := 0, 0, [];
    }

    function State(): Desk
      reads this
    {
      Desk(windows, hung, live, clock, looks, log, fate)
    }

    method Drift()
      modifies this
      ensures State() == old(State()).Drifted()
    {
      windows := windows - fate.dies(clock);
      hung := hung + fate.hangs(clock);
      live := live && !fate.switchesOff(clock);
      clock := clock + 1;
    }

    method Check(h: Hwnd)
      modifies this
      ensures State() == old(State()).Looked(h)
    {
      Drift();
      windows := windows + fate.appears(looks);
      hung := hung - fate.recovers(looks);
      live := live || fate.switchesOn(looks);
      looks := looks + 1;
      log := log + [ApiCall(h, Look(State().SightingOf(h)), true)];
    }

    method ShowWindow(h: Hwnd, show: bool) returns (ok: bool)
      modifies this
      ensures (State(), ok) == old(State()).ShowWindow(h, show)
    {
      var refused := fate.refusesShow(clock, h);
      Drift();
      ok := h in windows && !refused;
      if ok {
        windows := windows[h := windows[h].(visible := show)];
      }
      log := log + [ApiCall(h, if show then SwShow else SwHide, ok)];
    }

    method SetWindowPos(h: Hwnd, x: int, y: int, width: int, height: int, noMove: bool) returns (ok: bool)
      modifies this
      ensures (State(), ok) == old(State()).SetWindowPos(h, x, y, width, height, noMove)
    {
      var refused := fate.refusesPos(clock, h);
      Drift();
      ok := h in windows && !refused;
      if ok {
        windows := windows[h := windows[h].(rect := Some(Placed(windows[h].rect, x, y, width, height, noMove)))];
      }
      log := log + [ApiCall(h, CallKind.SetWindowPos(x, y, width, height, noMove), ok)];
    }

    method SendClose(h: Hwnd)
      modifies this
      ensures State() == old(State()).SendClose(h)
    {
      var doomed := fate.closes(clock, h);
      Drift();
      var ok := h in windows;
      if ok {
        windows := windows - doomed;
      }
      log := log + [ApiCall(h, WmClose, ok)];
    }
  }
}
