/**
 * The selection marquee: a ten-state machine driven by named mouse events,
 * the side effects that run when a transition is taken (recording the drawn
 * or dragged rectangle and notifying listeners), the rectangle geometry it
 * uses, the vertical flip of a read-back pixel buffer and the brush's
 * after-drag update.
 */
module Marquee {
  import opened JsValue

  // ---------------------------------------------------------------------
  // Transition table
  // ---------------------------------------------------------------------

  datatype State =
    | Off | Init | DownSelect | ResetClick | Drawing | DoneDrawing
    | MarqueeStationary | DownMarquee | DraggingMarquee | DoneDragging

  datatype EventName =
    | Enable | Disable | Down | Up | Move | Reset | WaitForDrag | DownOnBox | DownOffBox

  const AllEvents: seq<EventName> :=
    [Enable, Disable, Down, Up, Move, Reset, WaitForDrag, DownOnBox, DownOffBox]

  /** The table as written, before `disable` is added to every state. */
  function BaseTransition(s: State, e: EventName): Option<State> {
    match (s, e)
    case (Off, Enable) => Some(Init)
    case (Init, Down) => Some(DownSelect)
    case (DownSelect, Up) => Some(ResetClick)
    case (DownSelect, Move) => Some(Drawing)
    case (ResetClick, Reset) => Some(Init)
    case (Drawing, Move) => Some(Drawing)
    case (Drawing, Up) => Some(DoneDrawing)
    case (DoneDrawing, Reset) => Some(Init)
    case (DoneDrawing, WaitForDrag) => Some(MarqueeStationary)
    case (MarqueeStationary, DownOffBox) => Some(DownSelect)
    case (MarqueeStationary, DownOnBox) => Some(DownMarquee)
    case (DownMarquee, Up) => Some(MarqueeStationary)
    case (DownMarquee, Move) => Some(DraggingMarquee)
    case (DraggingMarquee, Move) => Some(DraggingMarquee)
    case (DraggingMarquee, Up) => Some(DoneDragging)
    case (DoneDragging, WaitForDrag) => Some(MarqueeStationary)
    case _ => None
  }

  /** The table with `disable => OFF` added to every state. */
  function Transition(s: State, e: EventName): Option<State> {
    if e == Disable then Some(Off) else BaseTransition(s, e)
  }

  /** The events the current state lists, in a fixed order. */
  function MachineEvents(s: State): (es: seq<EventName>)
    ensures forall e :: e in es <==> Transition(s, e).Some?
  {
    DefinedAmong(s, AllEvents)
  }

  function DefinedAmong(s: State, candidates: seq<EventName>): (es: seq<EventName>)
    ensures forall e :: e in es <==> e in candidates && Transition(s, e).Some?
  {
    if candidates == [] then []
    else if Transition(s, candidates[0]).Some? then [candidates[0]] + DefinedAmong(s, candidates[1..])
    else DefinedAmong(s, candidates[1..])
  }

  /**
   * Every state accepts `disable`, which leads to OFF; OFF accepts nothing
   * else but `enable`, which leads to INIT.
   */
  lemma {:induction false} DisableAndEnable(s: State, e: EventName)
    ensures Disable in MachineEvents(s) && Transition(s, Disable) == Some(Off)
    ensures e in MachineEvents(Off) <==> e == Enable || e == Disable
    ensures Transition(Off, Enable) == Some(Init)
  {
  }

  // ---------------------------------------------------------------------
  // Geometry
  // ---------------------------------------------------------------------

  datatype Point = Point(x: int, y: int)
  datatype Rect = Rect(tl: Point, br: Point)

  /** Page coordinates made relative to the container's offset. */
  function ToPoint(page: Point, offset: Point): (p: Point)
    ensures p.x + offset.x == page.x && p.y + offset.y == page.y
  {
    Point(page.x - offset.x, page.y - offset.y)
  }

  function Min(a: int, b: int): int { if a <= b then a else b }
  function Max(a: int, b: int): int { if a <= b then b else a }

  /** The rectangle spanned by two corner points, whatever their order. */
  function ToRect(a: Point, b: Point): (r: Rect) {
    Rect(Point(Min(a.x, b.x), Min(a.y, b.y)), Point(Max(a.x, b.x), Max(a.y, b.y)))
  }

  predicate Normalized(r: Rect) {
    r.tl.x <= r.br.x && r.tl.y <= r.br.y
  }

  /** Closed containment. */
  predicate Covers(r: Rect, p: Point) {
    r.tl.x <= p.x <= r.br.x && r.tl.y <= p.y <= r.br.y
  }

  /**
   * `toRect` is normalized, symmetric, covers both points, and is the
   * smallest rectangle that does.
   */
  lemma {:induction false} ToRectIsBoundingBox(a: Point, b: Point, other: Rect)
    ensures Normalized(ToRect(a, b))
    ensures ToRect(a, b) == ToRect(b, a)
    ensures Covers(ToRect(a, b), a) && Covers(ToRect(a, b), b)
    ensures Covers(other, a) && Covers(other, b) ==>
              Covers(other, ToRect(a, b).tl) && Covers(other, ToRect(a, b).br)
  {
  }

  function ShiftRect(r: Rect, dx: int, dy: int): (s: Rect)
    ensures s.br.x - s.tl.x == r.br.x - r.tl.x && s.br.y - s.tl.y == r.br.y - r.tl.y
  {
    Rect(Point(r.tl.x + dx, r.tl.y + dy), Point(r.br.x + dx, r.br.y + dy))
  }

  function EmptyRect(): (r: Rect)
    ensures Normalized(r) && r.tl == r.br
  {
    Rect(Point(0, 0), Point(0, 0))
  }

  /** The displacement from `start` to `end`. */
  function ToDelta(start: Point, end: Point): (d: Point)
    ensures start.x + d.x == end.x && start.y + d.y == end.y
  {
    Point(end.x - start.x, end.y - start.y)
  }

  /** Shifting by zero is the identity, shifts compose by adding, and a shift can be undone. */
  lemma {:induction false} ShiftLaws(r: Rect, dx1: int, dy1: int, dx2: int, dy2: int)
    ensures ShiftRect(r, 0, 0) == r
    ensures ShiftRect(ShiftRect(r, dx1, dy1), dx2, dy2) == ShiftRect(r, dx1 + dx2, dy1 + dy2)
    ensures ShiftRect(ShiftRect(r, dx1, dy1), -dx1, -dy1) == r
    ensures Normalized(r) ==> Normalized(ShiftRect(r, dx1, dy1))
  {
  }

  /** Strict interior, as the mouse-down filters test it. */
  predicate StrictlyInside(r: Rect, p: Point) {
    p.x > r.tl.x && p.y > r.tl.y && p.x < r.br.x && p.y < r.br.y
  }

  /** The `downOnBox` filter: never fires before a rectangle exists. */
  predicate PressOnBox(lastRect: Option<Rect>, p: Point) {
    lastRect.Some? && StrictlyInside(lastRect.value, p)
  }

  /** The `downOffBox` filter: never fires before a rectangle exists. */
  predicate PressOffBox(lastRect: Option<Rect>, p: Point) {
    lastRect.Some? && !StrictlyInside(lastRect.value, p)
  }

  /**
   * With a rectangle, exactly one of the two filters fires; without one,
   * neither does. An empty rectangle has no interior, so every press is off it.
   */
  lemma {:induction false} PressFiltersPartition(lastRect: Option<Rect>, p: Point)
    ensures lastRect.None? ==> !PressOnBox(lastRect, p) && !PressOffBox(lastRect, p)
    ensures lastRect.Some? ==> (PressOnBox(lastRect, p) <==> !PressOffBox(lastRect, p))
    ensures lastRect == Some(EmptyRect()) ==> PressOffBox(lastRect, p)
  {
  }

  /**
   * The press classification as the source writes it: raw page coordinates
   * against a rectangle that the side effects store relative to the
   * container.
   */
  predicate PressOnBoxAsWritten(lastRect: Option<Rect>, page: Point, offset: Point) {
    lastRect.Some? && StrictlyInside(lastRect.value, page)
  }

  /** The press classification in the rectangle's own frame. */
  predicate PressOnBoxInFrame(lastRect: Option<Rect>, page: Point, offset: Point) {
    PressOnBox(lastRect, ToPoint(page, offset))
  }

  /**
   * A container 100 pixels from the page's left edge, a box drawn from
   * container point (0,0) to (50,50), and a press at page point (125,25),
   * which is container point (25,25), inside the box: the as-written test
   * calls it off the box.
   */
  lemma PageCoordinatesMissTheBox()
    ensures var r, page, offset := Some(Rect(Point(0, 0), Point(50, 50))), Point(125, 25), Point(100, 0);
      && StrictlyInside(r.value, ToPoint(page, offset))
      && !PressOnBoxAsWritten(r, page, offset)
      && PressOnBoxInFrame(r, page, offset)
  {
  }

  /** In the container's frame, a press is on the box exactly when it lands inside the rectangle as stored. */
  lemma {:induction false} InFrameTestMatchesStoredRect(r: Rect, page: Point, offset: Point)
    ensures PressOnBoxInFrame(Some(r), page, offset) <==>
              r.tl.x + offset.x < page.x < r.br.x + offset.x && r.tl.y + offset.y < page.y < r.br.y + offset.y
    ensures offset == Point(0, 0) ==>
              (PressOnBoxInFrame(Some(r), page, offset) <==> PressOnBoxAsWritten(Some(r), page, offset))
  {
  }

  // ---------------------------------------------------------------------
  // Machine state and side effects
  // ---------------------------------------------------------------------

  /**
   * The machine's state together with the fields its side effects write,
   * and the logs of what was sent to the select and drag listeners (the
   * rectangle current at each notification).
   */
  datatype Snapshot = Snapshot(
    state: State,
    lastRect: Option<Rect>,
    downPos: Option<Point>,
    movePos: Option<Point>,
    upPos: Option<Point>,
    stationaryRect: Option<Rect>,
    dragDownPos: Option<Point>,
    dragMovePos: Option<Point>,
    selections: seq<Rect>,
    drags: seq<Rect>)

  /** A fresh machine: OFF, nothing recorded. */
  function Initial(): Snapshot {
    Snapshot(Off, None, None, None, None, None, None, None, [], [])
  }

  /** The fields the side effect of the current state reads are set. */
  predicate SideEffectReady(m: Snapshot) {
    && (m.state == Drawing ==> m.downPos.Some?)
    && (m.state in {DoneDrawing, DoneDragging} ==> m.lastRect.Some?)
    && (m.state == DraggingMarquee ==> m.dragDownPos.Some? && m.stationaryRect.Some?)
  }

  /** The fields the side effects read are set whenever they may be read. */
  predicate ReadsDefined(m: Snapshot) {
    && (m.state != Off ==> m.lastRect.Some?)
    && (m.state in {DownSelect, Drawing} ==> m.downPos.Some?)
    && (m.state in {MarqueeStationary, DownMarquee, DraggingMarquee} ==> m.stationaryRect.Some?)
    && (m.state in {DownMarquee, DraggingMarquee} ==> m.dragDownPos.Some?)
  }

  predicate Transient(s: State) {
    s in {ResetClick, DoneDrawing, DoneDragging}
  }

  predicate DragState(s: State) {
    s in {MarqueeStationary, DownMarquee, DraggingMarquee, DoneDragging}
  }

  /**
   * What holds between two external events: the fields the side effects
   * read are set, the machine never rests in a state that emits a
   * follow-up, and without `canDrag` it never enters the drag states.
   */
  predicate Inv(m: Snapshot, canDrag: bool) {
    ReadsDefined(m) && Resting(m.state, canDrag)
  }

  /** A state the machine may wait in between two external events. */
  predicate Resting(s: State, canDrag: bool) {
    !Transient(s) && (!canDrag ==> !DragState(s))
  }

  /** The follow-up event the side effect of state `s` emits. */
  function FollowUpOf(s: State, canDrag: bool): Option<EventName> {
    match s
    case ResetClick => Some(Reset)
    case DoneDrawing => Some(if canDrag then WaitForDrag else Reset)
    case DoneDragging => Some(WaitForDrag)
    case _ => None
  }

  /**
   * From a resting state, a listed event leads either to a resting state
   * that emits nothing, or to a state whose follow-up is listed there and
   * leads to a resting state that emits nothing.
   */
  lemma StepRests(s: State, e: EventName, canDrag: bool)
    requires Resting(s, canDrag) && Transition(s, e).Some?
    ensures var t := Transition(s, e).value;
      match FollowUpOf(t, canDrag)
      case None => Resting(t, canDrag)
      case Some(f) => Transition(t, f).Some? && FollowUpOf(Transition(t, f).value, canDrag).None?
                      && Resting(Transition(t, f).value, canDrag)
  {
  }

  /**
   * The side effect for the state just entered, at container point `p`;
   * also returns the follow-up event it emits, if any.
   */
  function Enter(m: Snapshot, p: Point, canDrag: bool): (Snapshot, Option<EventName>)
    requires SideEffectReady(m)
  {
    match m.state
    case Off => (m, None)
    case Init => (m.(lastRect := Some(EmptyRect())), None)
    case ResetClick =>
      (m.(lastRect := Some(EmptyRect()), selections := m.selections + [EmptyRect()]), Some(Reset))
    case DownSelect => (m.(downPos := Some(p)), None)
    case Drawing => (m.(movePos := Some(p), lastRect := Some(ToRect(m.downPos.value, p))), None)
    case DoneDrawing =>
      (m.(upPos := Some(p), selections := m.selections + [m.lastRect.value]),
       Some(if canDrag then WaitForDrag else Reset))
    case MarqueeStationary => (m.(stationaryRect := m.lastRect), None)
    case DownMarquee => (m.(dragDownPos := Some(p)), None)
    case DraggingMarquee =>
      var d := ToDelta(m.dragDownPos.value, p);
      var r := ShiftRect(m.stationaryRect.value, d.x, d.y);
      (m.(dragMovePos := Some(p), lastRect := Some(r), drags := m.drags + [r]), None)
    case DoneDragging => (m.(selections := m.selections + [m.lastRect.value]), Some(WaitForDrag))
  }

  /** One event: a listed event moves the machine and runs the new state's side effect; any other does nothing. */
  function Accept(m: Snapshot, e: EventName, p: Point, canDrag: bool): (Snapshot, Option<EventName>)
    requires ReadsDefined(m)
  {
    if Transition(m.state, e).Some? then Enter(m.(state := Transition(m.state, e).value), p, canDrag)
    else (m, None)
  }

  /**
   * Handles an external event and the follow-up its side effect emits. The
   * follow-up carries no mouse position; the states it leads to ignore it.
   */
  function Handle(m: Snapshot, e: EventName, p: Point, canDrag: bool): Snapshot
    requires Inv(m, canDrag)
  {
    AcceptKeepsReadsDefined(m, e, p, canDrag);
    var (m1, followUp) := Accept(m, e, p, canDrag);
    if followUp.Some? then Accept(m1, followUp.value, p, canDrag).0 else m1
  }

  /**
   * Entering the state of `m`, the fields that must be set once its side
   * effect has run and that the side effect does not set itself are set.
   */
  predicate EntryReady(m: Snapshot) {
    && (m.state !in {Off, Init} ==> m.lastRect.Some?)
    && (m.state == Drawing ==> m.downPos.Some?)
    && (m.state in {DownMarquee, DraggingMarquee} ==> m.stationaryRect.Some?)
    && (m.state == DraggingMarquee ==> m.dragDownPos.Some?)
  }

  /** The state a listed event leads to finds the fields its side effect reads set. */
  lemma TransitionReady(m: Snapshot, e: EventName)
    requires ReadsDefined(m) && Transition(m.state, e).Some?
    ensures EntryReady(m.(state := Transition(m.state, e).value))
    ensures SideEffectReady(m.(state := Transition(m.state, e).value))
  {
  }

  /** A side effect keeps the state and emits the state's follow-up. */
  lemma EnterKeepsState(m: Snapshot, p: Point, canDrag: bool)
    requires SideEffectReady(m)
    ensures Enter(m, p, canDrag).0.state == m.state
    ensures Enter(m, p, canDrag).1 == FollowUpOf(m.state, canDrag)
  {
  }

  /** The side effect sets what is left for the fields its state needs. */
  lemma EnterReadsDefined(m: Snapshot, p: Point, canDrag: bool)
    requires EntryReady(m) && SideEffectReady(m)
    ensures ReadsDefined(Enter(m, p, canDrag).0)
  {
  }

  lemma AcceptKeepsReadsDefined(m: Snapshot, e: EventName, p: Point, canDrag: bool)
    requires ReadsDefined(m)
    ensures ReadsDefined(Accept(m, e, p, canDrag).0)
  {
    if Transition(m.state, e).Some? {
      TransitionReady(m, e);
      EnterReadsDefined(m.(state := Transition(m.state, e).value), p, canDrag);
    }
  }

  /**
   * Handling an event keeps the invariant, and the follow-up chain stops
   * after one event: the follow-up's own side effect emits nothing.
   */
  lemma {:induction false} HandleKeepsInv(m: Snapshot, e: EventName, p: Point, canDrag: bool)
    requires Inv(m, canDrag)
    ensures Inv(Handle(m, e, p, canDrag), canDrag)
    ensures var (m1, f) := Accept(m, e, p, canDrag);
      f.Some? ==> ReadsDefined(m1) && Accept(m1, f.value, p, canDrag).1 == None
  {
    AcceptKeepsReadsDefined(m, e, p, canDrag);
    var (m1, f) := Accept(m, e, p, canDrag);
    if Transition(m.state, e).Some? {
      var t := Transition(m.state, e).value;
      TransitionReady(m, e);
      EnterKeepsState(m.(state := t), p, canDrag);
      StepRests(m.state, e, canDrag);
      if f.Some? {
        AcceptKeepsReadsDefined(m1, f.value, p, canDrag);
        TransitionReady(m1, f.value);
        EnterKeepsState(m1.(state := Transition(t, f.value).value), p, canDrag);
      }
    }
  }

  /** The machine starts in OFF with the invariant holding. */
  lemma InitialIsValid(canDrag: bool)
    ensures Inv(Initial(), canDrag) && Initial().state == Off
  {
  }

  /** An event the current state does not list changes nothing and notifies nobody. */
  lemma {:induction false} UnlistedEventIsIgnored(m: Snapshot, e: EventName, p: Point, canDrag: bool)
    requires Inv(m, canDrag) && e !in MachineEvents(m.state)
    ensures Handle(m, e, p, canDrag) == m
  {
  }

  /** `disable` always turns the machine off and keeps the last rectangle and the logs. */
  lemma {:induction false} DisableTurnsOff(m: Snapshot, p: Point, canDrag: bool)
    requires Inv(m, canDrag)
    ensures Handle(m, Disable, p, canDrag) == m.(state := Off)
  {
    DisableAndEnable(m.state, Disable);
  }

  /** The only way out of OFF is `enable`, which lands in INIT with an empty rectangle. */
  lemma {:induction false} LeavingOff(m: Snapshot, e: EventName, p: Point, canDrag: bool)
    requires Inv(m, canDrag) && m.state == Off
    ensures Handle(m, e, p, canDrag).state != Off <==> e == Enable
    ensures e == Enable ==>
              Handle(m, e, p, canDrag) == m.(state := Init, lastRect := Some(EmptyRect()))
  {
    DisableAndEnable(Off, e);
  }

  /**
   * A press and release without a move is a reset click: the select
   * listeners get the empty rectangle and the machine is back in INIT.
   */
  lemma {:induction false} ClickResets(m: Snapshot, p: Point, canDrag: bool)
    requires Inv(m, canDrag) && m.state == DownSelect
    ensures var n := Handle(m, Up, p, canDrag);
      && n.state == Init
      && n.lastRect == Some(EmptyRect())
      && n.selections == m.selections + [EmptyRect()]
  {
  }

  /** While drawing, each move spans the rectangle from the press point to the pointer. */
  lemma {:induction false} MoveDraws(m: Snapshot, p: Point, canDrag: bool)
    requires Inv(m, canDrag) && m.state in {DownSelect, Drawing}
    ensures var n := Handle(m, Move, p, canDrag);
      && n.state == Drawing
      && n.lastRect == Some(ToRect(m.downPos.value, p))
      && Covers(n.lastRect.value, m.downPos.value) && Covers(n.lastRect.value, p)
      && n.selections == m.selections
  {
    ToRectIsBoundingBox(m.downPos.value, p, EmptyRect());
  }

  /**
   * Releasing after drawing reports the drawn rectangle to the select
   * listeners once, then either waits for a drag (keeping the rectangle as
   * the stationary one) or resets to INIT with an empty rectangle.
   */
  lemma {:induction false} ReleaseAfterDrawing(m: Snapshot, p: Point, canDrag: bool)
    requires Inv(m, canDrag) && m.state == Drawing
    ensures var n := Handle(m, Up, p, canDrag);
      && n.selections == m.selections + [m.lastRect.value]
      && n.upPos == Some(p)
      && (canDrag ==> n.state == MarqueeStationary && n.stationaryRect == m.lastRect && n.lastRect == m.lastRect)
      && (!canDrag ==> n.state == Init && n.lastRect == Some(EmptyRect()))
  {
  }

  /**
   * While dragging, the rectangle is the stationary one moved by the
   * pointer's displacement since the press, so it keeps its size, and the
   * drag listeners get it.
   */
  lemma {:induction false} MoveDrags(m: Snapshot, p: Point, canDrag: bool)
    requires Inv(m, canDrag) && m.state in {DownMarquee, DraggingMarquee}
    ensures var n := Handle(m, Move, p, canDrag);
      var d := ToDelta(m.dragDownPos.value, p);
      && n.state == DraggingMarquee
      && n.lastRect == Some(ShiftRect(m.stationaryRect.value, d.x, d.y))
      && n.drags == m.drags + [n.lastRect.value]
  {
  }

  /** Releasing a drag reports the moved rectangle and makes it the new stationary one. */
  lemma {:induction false} ReleaseAfterDragging(m: Snapshot, p: Point, canDrag: bool)
    requires Inv(m, canDrag) && m.state == DraggingMarquee
    ensures var n := Handle(m, Up, p, canDrag);
      && n.state == MarqueeStationary
      && n.selections == m.selections + [m.lastRect.value]
      && n.stationaryRect == m.lastRect
  {
  }

  /**
   * A mouse-down: the `down` event, then the on-box or off-box event the
   * press filters pick once `down` has been handled. A press inside the
   * container also reaches the container's own listener, which delivers
   * `down` a second time.
   */
  function MouseDown(m: Snapshot, page: Point, offset: Point, canDrag: bool, inContainer: bool): Snapshot
    requires Inv(m, canDrag)
  {
    var p := ToPoint(page, offset);
    HandleKeepsInv(m, Down, p, canDrag);
    var m1 := Handle(m, Down, p, canDrag);
    HandleKeepsInv(m1, Down, p, canDrag);
    var m2 := if inContainer then Handle(m1, Down, p, canDrag) else m1;
    if PressOnBoxInFrame(m2.lastRect, page, offset) then Handle(m2, DownOnBox, p, canDrag)
    else if PressOffBox(m2.lastRect, p) then Handle(m2, DownOffBox, p, canDrag)
    else m2
  }

  /** The duplicated `down` is never listed where the first one leaves the machine. */
  lemma {:induction false} SecondDownIsIgnored(m: Snapshot, p: Point, canDrag: bool)
    requires Inv(m, canDrag)
    ensures var m1 := Handle(m, Down, p, canDrag);
      Inv(m1, canDrag) && Handle(m1, Down, p, canDrag) == m1
  {
    HandleKeepsInv(m, Down, p, canDrag);
    var m1 := Handle(m, Down, p, canDrag);
  }

  /**
   * From INIT a mouse-down starts a selection at the press point; from a
   * stationary box it starts a drag when the press is on the box and a new
   * selection otherwise.
   */
  lemma {:induction false} MouseDownOutcome(m: Snapshot, page: Point, offset: Point, canDrag: bool, inContainer: bool)
    requires Inv(m, canDrag) && m.state in {Init, MarqueeStationary}
    ensures var n := MouseDown(m, page, offset, canDrag, inContainer);
      var p := ToPoint(page, offset);
      && (m.state == Init ==> n.state == DownSelect && n.downPos == Some(p))
      && (m.state == MarqueeStationary && PressOnBox(m.lastRect, p) ==>
            n.state == DownMarquee && n.dragDownPos == Some(p))
      && (m.state == MarqueeStationary && !PressOnBox(m.lastRect, p) ==>
            n.state == DownSelect && n.downPos == Some(p))
  {
    var p := ToPoint(page, offset);
    SecondDownIsIgnored(m, p, canDrag);
  }

  // ---------------------------------------------------------------------
  // The machine object
  // ---------------------------------------------------------------------

  /** The Stately machine with its attached `marqueeState`, updated in place by the side effects. */
  class MarqueeMachine {
    const canDrag: bool
    const offset: Point
    var state: State
    var lastRect: Option<Rect>
    var downPos: Option<Point>
    var movePos: Option<Point>
    var upPos: Option<Point>
    var stationaryRect: Option<Rect>
    var dragDownPos: Option<Point>
    var dragMovePos: Option<Point>
    var selections: seq<Rect>
    var drags: seq<Rect>

    function Snap(): Snapshot
      reads this
    {
      Snapshot(state, lastRect, downPos, movePos, upPos, stationaryRect, dragDownPos, dragMovePos, selections, drags)
    }

    predicate Valid()
      reads this
    {
      Inv(Snap(), canDrag)
    }

    constructor (canDrag: bool, offset: Point)
      ensures this.canDrag == canDrag && this.offset == offset
      ensures Snap() == Initial() && Valid()
    {
      this.canDrag := canDrag;
      this.offset := offset;
      state := Off;
      lastRect, downPos, movePos, upPos := None, None, None, None;
      stationaryRect, dragDownPos, dragMovePos := None, None, None;
      selections, drags := [], [];
    }

    /** The side effect of the state just entered. */
    method RunSideEffect(p: Point) returns (followUp: Option<EventName>)
      requires SideEffectReady(Snap())
      modifies this
      ensures (Snap(), followUp) == Enter(old(Snap()), p, canDrag)
    {
      followUp := None;
      match state
      case Off =>
      case Init =>
        lastRect := Some(EmptyRect());
      case ResetClick =>
        lastRect := Some(EmptyRect());
        selections := selections + [lastRect.value];
        followUp := Some(Reset);
      case DownSelect =>
        downPos := Some(p);
      case Drawing =>
        movePos := Some(p);
        lastRect := Some(ToRect(downPos.value, movePos.value));
      case DoneDrawing =>
        upPos := Some(p);
        selections := selections + [lastRect.value];
        followUp := if canDrag then Some(WaitForDrag) else Some(Reset);
      case MarqueeStationary =>
        stationaryRect := lastRect;
      case DownMarquee =>
        dragDownPos := Some(p);
      case DraggingMarquee =>
        dragMovePos := Some(p);
        var dx := dragMovePos.value.x - dragDownPos.value.x;
        var dy := dragMovePos.value.y - dragDownPos.value.y;
        lastRect := Some(ShiftRect(stationaryRect.value, dx, dy));
        drags := drags + [lastRect.value];
      case DoneDragging =>
        selections := selections + [lastRect.value];
        followUp := Some(WaitForDrag);
    }

    /** Fires one named event; the side effect runs only when the state listed it. */
    method Dispatch(e: EventName, p: Point) returns (followUp: Option<EventName>)
      requires ReadsDefined(Snap())
      modifies this
      ensures (Snap(), followUp) == Accept(old(Snap()), e, p, canDrag)
      ensures ReadsDefined(Snap())
    {
      var before := Snap();
      AcceptKeepsReadsDefined(before, e, p, canDrag);
      var stateChanged := e in MachineEvents(state);
      if stateChanged {
        var next := Transition(state, e).value;
        TransitionReady(before, e);
        state := next;
        assert Snap() == before.(state := next);
        followUp := RunSideEffect(p);
      } else {
        followUp := None;
      }
    }

    /** Handles an event in page coordinates, and the follow-up its side effect emits. */
    method HandleEvent(e: EventName, page: Point)
      requires Valid()
      modifies this
      ensures Valid()
      ensures Snap() == Handle(old(Snap()), e, ToPoint(page, offset), canDrag)
    {
      var p := ToPoint(page, offset);
      HandleKeepsInv(Snap(), e, p, canDrag);
      var followUp := Dispatch(e, p);
      if followUp.Some? {
        var _ := Dispatch(followUp.value, p);
      }
    }
  }

  // ---------------------------------------------------------------------
  // The brush's after-drag update
  // ---------------------------------------------------------------------

  /** A selection rectangle object whose corners are moved in place. */
  class Selection {
    var tl: Point
    var br: Point

    function Value(): Rect
      reads this
    {
      Rect(tl, br)
    }

    constructor (r: Rect)
      ensures Value() == r
    {
      tl := r.tl;
      br := r.br;
    }
  }

  /** The two subjects the brush reports to, as the logs of what they were sent. */
  class BrushOutputs {
    var marqueeState: seq<string>
    var doneDragging: seq<Rect>

    constructor ()
      ensures marqueeState == [] && doneDragging == []
    {
      marqueeState, doneDragging := [], [];
    }
  }

  /**
   * `doAfterDragsBrush`: signals 'done', moves the selection by the drag
   * delta in place, and reports a copy of the moved rectangle.
   */
  method DoAfterDragsBrush(outputs: BrushOutputs, selection: Selection, dragDelta: Point)
    modifies outputs, selection
    ensures selection.Value() == ShiftRect(old(selection.Value()), dragDelta.x, dragDelta.y)
    ensures outputs.marqueeState == old(outputs.marqueeState) + ["done"]
    ensures outputs.doneDragging == old(outputs.doneDragging) + [selection.Value()]
  {
    outputs.marqueeState := outputs.marqueeState + ["done"];
    selection.tl := Point(selection.tl.x + dragDelta.x, selection.tl.y);
    selection.tl := Point(selection.tl.x, selection.tl.y + dragDelta.y);
    selection.br := Point(selection.br.x + dragDelta.x, selection.br.y);
    selection.br := Point(selection.br.x, selection.br.y + dragDelta.y);
    var newTl := Point(selection.tl.x, selection.tl.y);
    var newBr := Point(selection.br.x, selection.br.y);
    outputs.doneDragging := outputs.doneDragging + [Rect(newTl, newBr)];
  }

  /**
   * A drag from `start` to `end` moves the selection so that the point that
   * was under the pointer at `start` is under it at `end`, and keeps its size.
   */
  lemma {:induction false} DragFollowsPointer(r: Rect, start: Point, end: Point)
    ensures var d := ToDelta(start, end);
      var moved := ShiftRect(r, d.x, d.y);
      && moved.tl.x - r.tl.x == end.x - start.x && moved.tl.y - r.tl.y == end.y - start.y
      && (Covers(r, start) <==> Covers(moved, end))
  {
  }
}
