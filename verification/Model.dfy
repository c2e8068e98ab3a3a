/** Value types shared by the decision core, the engine and the desktop. */
module Model {

  type Hwnd = int
  type Pid = int

  function Members(hs: seq<Hwnd>): set<Hwnd> { set h | h in hs }

  datatype Option<+T> = None | Some(value: T)

  const I32_MAX := 0x7fff_ffff
  const I32_MIN := -0x8000_0000

  /** Saturating 32-bit result: corrupt coordinates must not panic the evaluator. */
  function SaturateI32(n: int): int {
    if n > I32_MAX then I32_MAX else if n < I32_MIN then I32_MIN else n
  }

  datatype Rect = Rect(left: int, top: int, right: int, bottom: int) {
    function Width(): int { SaturateI32(right - left) }
    function Height(): int { SaturateI32(bottom - top) }
  }

  /** A window is known by handle, owning process and class: handles are reused by the system. */
  datatype WindowIdentity = WindowIdentity(hwnd: Hwnd, pid: Pid, className: string)

  datatype WindowText = Known(text: string) | Unknown(errorCode: int) | Truncated(text: string)

  datatype WindowNode = WindowNode(
    hwnd: Hwnd,
    pid: Pid,
    className: string,
    title: WindowText,
    structuralParent: Option<Hwnd>,
    owner: Option<Hwnd>,
    rect: Option<Rect>,
    visible: bool)
  {
    function Identity(): WindowIdentity { WindowIdentity(hwnd, pid, className) }

    function Text(): string { if title.Unknown? then "" else title.text }

    predicate TextKnown() { !title.Unknown? }

    /** GetParent: the owner of an owned popup, else the tree parent, else zero. */
    function Win32Parent(): Hwnd {
      if owner.Some? then owner.value
      else if structuralParent.Some? then structuralParent.value
      else 0
    }
  }

  datatype WindowGraph = WindowGraph(
    pids: set<Pid>,
    nodes: map<Hwnd, WindowNode>,
    children: map<Hwnd, seq<Hwnd>>)
  {
    /** Every node is stored under its own handle. */
    predicate WellKeyed() { forall h | h in nodes :: nodes[h].hwnd == h }

    function ChildrenOf(parent: Hwnd): seq<Hwnd> {
      if parent in children then children[parent] else []
    }
  }

  /** One planned SetWindowPos; anything that is not a positive size is a zero-sizing. */
  datatype Pos = Pos(hwnd: Hwnd, x: int, y: int, width: int, height: int) {
    predicate ViewResize() { width > 0 && height > 0 }
  }

  /** The windows one evaluation wants hidden, placed and closed. */
  datatype Plan = Plan(hide: seq<Hwnd>, setPos: seq<Pos>, close: seq<Hwnd>)
}
