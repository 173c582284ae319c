/**
 * The icon element (src/utils/icons.ts, `IconDiv`): its selection, the drag-threshold
 * gesture, live moving, the eight handle resize rules, placement on append and colour
 * changes. DOM measurements and pointer rectangles are parameters; the callbacks the source
 * invokes (`selectEl`, `onDragStart`, `onDragEnd`, `onMoved`, `onPropertiesChanged`) are
 * returned as a list of events in the order they are invoked.
 */
module Icons {
  import opened Wrappers
  import opened Types
  import opened Position
  import opened Borders

  /** A pointer must move strictly more than this on one axis before a drag starts. */
  const DRAG_THRESHOLD: int := 5

  /** The colour an icon has when none was given or its style colour is empty. */
  const DEFAULT_ICON_COLOR: string := "#333333"

  /** A callback invocation. */
  datatype Event =
    | Select(id: string)
    | DragStart(id: string)
    | DragEnd(id: string)
    | Moved(id: string, oldPos: Pos, newPos: Pos)
    | PropertiesChanged(id: string, oldProps: map<string, string>, newProps: map<string, string>)

  function Abs(n: int): int {
    if n < 0 then -n else n
  }

  /** The pointer at `p` has left the box of half-width `DRAG_THRESHOLD` around `anchor`. */
  predicate ExceedsThreshold(anchor: Pos, p: Pos) {
    Abs(anchor.xPos - p.xPos) > DRAG_THRESHOLD || Abs(anchor.yPos - p.yPos) > DRAG_THRESHOLD
  }

  /** The threshold is strict and per axis: a move of at most 5 on both axes is not a drag. */
  lemma ThresholdPerAxis(anchor: Pos, p: Pos)
    ensures ExceedsThreshold(anchor, p) <==>
      !(-DRAG_THRESHOLD <= anchor.xPos - p.xPos <= DRAG_THRESHOLD && -DRAG_THRESHOLD <= anchor.yPos - p.yPos <= DRAG_THRESHOLD)
  {
  }

  /**
   * The element's box after one `resize` step driven by handle `behavior`, where `inFrame`
   * is the pointer relative to the selection frame and `inCanvas` relative to the canvas.
   */
  function ResizeRule(behavior: Option<Handle>, g: Box, inFrame: Pos, inCanvas: Pos): Box {
    match behavior
    case None => g
    case Some(Right) => g.(width := inFrame.xPos)
    case Some(Bot) => g.(height := inFrame.yPos)
    case Some(BotRight) => g.(width := inFrame.xPos, height := inFrame.yPos)
    case Some(Top) => g.(yPos := inCanvas.yPos, height := g.height - inFrame.yPos)
    case Some(Left) => g.(xPos := inCanvas.xPos, width := g.width - inFrame.xPos)
    case Some(TopLeft) =>
      g.(yPos := inCanvas.yPos, xPos := inCanvas.xPos, height := g.height - inFrame.yPos, width := g.width - inFrame.xPos)
    case Some(TopRight) => g.(yPos := inCanvas.yPos, height := g.height - inFrame.yPos, width := inFrame.xPos)
    case Some(BotLeft) => g.(xPos := inCanvas.xPos, height := inFrame.yPos, width := g.width - inFrame.xPos)
  }

  /** The edge handles: each changes only its own edge's fields. */
  lemma ResizeEdgeRules(g: Box, inFrame: Pos, inCanvas: Pos)
    ensures ResizeRule(Some(Right), g, inFrame, inCanvas) == Box(g.xPos, g.yPos, inFrame.xPos, g.height)
    ensures ResizeRule(Some(Bot), g, inFrame, inCanvas) == Box(g.xPos, g.yPos, g.width, inFrame.yPos)
    ensures ResizeRule(Some(Top), g, inFrame, inCanvas) == Box(g.xPos, inCanvas.yPos, g.width, g.height - inFrame.yPos)
    ensures ResizeRule(Some(Left), g, inFrame, inCanvas) == Box(inCanvas.xPos, g.yPos, g.width - inFrame.xPos, g.height)
    ensures ResizeRule(None, g, inFrame, inCanvas) == g
  {
  }

  /** Each corner handle is its two adjacent edge rules applied one after the other. */
  lemma ResizeCornersCompose(g: Box, inFrame: Pos, inCanvas: Pos)
    ensures ResizeRule(Some(TopLeft), g, inFrame, inCanvas)
         == ResizeRule(Some(Left), ResizeRule(Some(Top), g, inFrame, inCanvas), inFrame, inCanvas)
    ensures ResizeRule(Some(TopRight), g, inFrame, inCanvas)
         == ResizeRule(Some(Right), ResizeRule(Some(Top), g, inFrame, inCanvas), inFrame, inCanvas)
    ensures ResizeRule(Some(BotLeft), g, inFrame, inCanvas)
         == ResizeRule(Some(Left), ResizeRule(Some(Bot), g, inFrame, inCanvas), inFrame, inCanvas)
    ensures ResizeRule(Some(BotRight), g, inFrame, inCanvas)
         == ResizeRule(Some(Right), ResizeRule(Some(Bot), g, inFrame, inCanvas), inFrame, inCanvas)
  {
  }

  /** The gesture state of an icon, as one value. */
  datatype DragState = DragState(
    isDrag: bool,
    xDragStartPos: Option<int>,
    yDragStartPos: Option<int>,
    dragStartPosition: Option<Pos>,
    listening: bool)

  class IconDiv {
    const id: string
    const borders: Borders
    const iconName: IconName
    /** Whether the optional `onMoved` / `onPropertiesChanged` callbacks were supplied. */
    const hasOnMoved: bool
    const hasOnPropertiesChanged: bool
    var xPos: int
    var yPos: int
    var width: int
    var height: int
    var isSelected: bool
    var isDrag: bool
    /** The drag anchor: where the pointer was, relative to the element, when tracking began. */
    var xDragStartPos: Option<int>
    var yDragStartPos: Option<int>
    /** The element's position when the drag started. */
    var dragStartPosition: Option<Pos>
    /** The SVG container's style colour (`""` when unset). */
    var color: string
    /** Whether `checkDragThreshold` is attached to `mousemove`. */
    var listening: bool

    function Geometry(): Box
      reads this
    {
      Box(xPos, yPos, width, height)
    }

    function Drag(): DragState
      reads this
    {
      DragState(isDrag, xDragStartPos, yDragStartPos, dragStartPosition, listening)
    }

    /**
     * The gesture invariant: both anchor coordinates are set or neither is, a drag start
     * position exists exactly while dragging, and a drag always has an anchor.
     */
    ghost predicate Valid()
      reads this
    {
      && (xDragStartPos.Some? <==> yDragStartPos.Some?)
      && (isDrag <==> dragStartPosition.Some?)
      && (isDrag ==> xDragStartPos.Some?)
    }

    /** A new icon is selected, not dragging, has no anchor and zero size. */
    constructor (id: string, borders: Borders, iconName: IconName, xPos: int, yPos: int,
                 iconColor: Option<string>, hasOnMoved: bool, hasOnPropertiesChanged: bool)
      ensures Valid()
      ensures this.id == id && this.borders == borders && this.iconName == iconName
      ensures this.hasOnMoved == hasOnMoved && this.hasOnPropertiesChanged == hasOnPropertiesChanged
      ensures Geometry() == Box(xPos, yPos, 0, 0)
      ensures isSelected && Drag() == DragState(false, None, None, None, false)
      ensures color == iconColor.GetOr(DEFAULT_ICON_COLOR)
    {
      this.id := id;
      this.borders := borders;
      this.iconName := iconName;
      this.hasOnMoved := hasOnMoved;
      this.hasOnPropertiesChanged := hasOnPropertiesChanged;
      this.xPos := xPos;
      this.yPos := yPos;
      width, height := 0, 0;
      isSelected, isDrag := true, false;
      xDragStartPos, yDragStartPos, dragStartPosition := None, None, None;
      color := iconColor.GetOr(DEFAULT_ICON_COLOR);
      listening := false;
    }

    /** `getPositions`: the position with the element's measured (offset) size. */
    function GetPositions(measured: Size): (b: Box)
      reads this
      ensures b.xPos == xPos && b.yPos == yPos
      ensures b.width == measured.width && b.height == measured.height
    {
      Box(xPos, yPos, measured.width, measured.height)
    }

    /** `showBorders`: put the selection frame over the element. */
    method ShowBorders(measured: Size)
      modifies borders
      ensures borders.View() == Shown(old(borders.View()), GetPositions(measured))
      ensures borders.View().display == Block
      ensures borders.View().left == Some(xPos) && borders.View().top == Some(yPos)
      ensures borders.View().width == Some(measured.width) && borders.View().height == Some(measured.height)
      ensures borders.isResize == old(borders.isResize) && borders.resizeBehavior == old(borders.resizeBehavior)
    {
      borders.Show(GetPositions(measured));
      ShownMirrorsBox(old(borders.View()), GetPositions(measured));
    }

    /**
     * The click handler: ignored while dragging; an unselected icon becomes selected,
     * asks the host to select it and shows the frame; a selected icon is left as it is.
     */
    method Click(measured: Size) returns (events: seq<Event>)
      requires Valid()
      modifies this, borders
      ensures Valid()
      ensures old(isDrag) || old(isSelected) ==> events == [] && unchanged(this) && unchanged(borders)
      ensures !old(isDrag) && !old(isSelected) ==>
        && events == [Select(id)]
        && isSelected
        && borders.View() == Shown(old(borders.View()), GetPositions(measured))
        && borders.isResize == old(borders.isResize) && borders.resizeBehavior == old(borders.resizeBehavior)
      ensures Geometry() == old(Geometry()) && Drag() == old(Drag()) && color == old(color)
    {
      events := [];
      if isDrag {
        return;
      }
      if !isSelected {
        isSelected := true;
        events := [Select(id)];
        ShowBorders(measured);
      }
    }

    /** `mousedown`: attach `checkDragThreshold` to `mousemove`. */
    method MouseDown()
      requires Valid()
      modifies this
      ensures Valid()
      ensures listening
      ensures Drag() == old(Drag()).(listening := true)
      ensures Geometry() == old(Geometry()) && isSelected == old(isSelected) && color == old(color)
    {
      listening := true;
    }

    /**
     * `checkDragThreshold`, run on each `mousemove` while attached, with the pointer and the
     * element's rectangle. An unselected icon detaches it. The first move records the anchor.
     * A later move that leaves the threshold box starts the drag at the current position,
     * announces it and detaches the handler.
     */
    method CheckDragThreshold(evt: Pointer, elRect: Rect) returns (events: seq<Event>)
      requires Valid()
      modifies this
      ensures Valid()
      ensures Geometry() == old(Geometry()) && isSelected == old(isSelected) && color == old(color)
      ensures !old(listening) ==> events == [] && Drag() == old(Drag())
      ensures old(listening) && !old(isSelected) ==> events == [] && Drag() == old(Drag()).(listening := false)
      ensures old(listening) && old(isSelected) && old(xDragStartPos).None? ==>
        var p := GetElPosition(evt, elRect);
        events == [] && Drag() == old(Drag()).(xDragStartPos := Some(p.xPos), yDragStartPos := Some(p.yPos))
      ensures old(listening) && old(isSelected) && old(xDragStartPos).Some? ==>
        var anchor := Pos(old(xDragStartPos).value, old(yDragStartPos).value);
        if ExceedsThreshold(anchor, GetElPosition(evt, elRect)) then
          && events == [DragStart(id)]
          && Drag() == old(Drag()).(isDrag := true, dragStartPosition := Some(Pos(xPos, yPos)), listening := false)
        else
          events == [] && Drag() == old(Drag())
    {
      events := [];
      if !listening {
        return;
      }
      if !isSelected {
        listening := false;
        return;
      }
      var p := GetElPosition(evt, elRect);
      if xDragStartPos.None? || yDragStartPos.None? {
        xDragStartPos := Some(p.xPos);
        yDragStartPos := Some(p.yPos);
        return;
      }
      var dx := xDragStartPos.value - p.xPos;
      var dy := yDragStartPos.value - p.yPos;
      if Abs(dx) > DRAG_THRESHOLD || Abs(dy) > DRAG_THRESHOLD {
        isDrag := true;
        dragStartPosition := Some(Pos(xPos, yPos));
        events := [DragStart(id)];
        listening := false;
      }
    }

    /**
     * `moveEl`: place the element so that the anchor stays under the pointer (an absent
     * anchor counts as 0), with no clamping, and move the frame along.
     */
    method MoveEl(evt: Pointer, canvasRect: Rect, measured: Size)
      requires Valid()
      modifies this, borders
      ensures Valid()
      ensures xPos == GetElPosition(evt, canvasRect).xPos - old(xDragStartPos).GetOr(0)
      ensures yPos == GetElPosition(evt, canvasRect).yPos - old(yDragStartPos).GetOr(0)
      ensures width == old(width) && height == old(height)
      ensures Drag() == old(Drag()) && isSelected == old(isSelected) && color == old(color)
      ensures borders.View() == Shown(old(borders.View()), GetPositions(measured))
      ensures borders.isResize == old(borders.isResize) && borders.resizeBehavior == old(borders.resizeBehavior)
    {
      var p := GetElPosition(evt, canvasRect);
      xPos := p.xPos - xDragStartPos.GetOr(0);
      yPos := p.yPos - yDragStartPos.GetOr(0);
      ShowBorders(measured);
    }

    /**
     * `resize`: nothing unless the frame is resizing. Otherwise record the anchor if there
     * is none, apply the rule of the frame's handle and move the frame along.
     */
    method Resize(evt: Pointer, frameRect: Rect, canvasRect: Rect, measured: Size)
      requires Valid()
      modifies this, borders
      ensures Valid()
      ensures !old(borders.isResize) ==> unchanged(this) && unchanged(borders)
      ensures old(borders.isResize) ==>
        && Geometry() == ResizeRule(old(borders.resizeBehavior), old(Geometry()),
                                    GetElPosition(evt, frameRect), GetElPosition(evt, canvasRect))
        && (old(xDragStartPos).None? ==>
              xDragStartPos == Some(GetElPosition(evt, canvasRect).xPos) &&
              yDragStartPos == Some(GetElPosition(evt, canvasRect).yPos))
        && (old(xDragStartPos).Some? ==> xDragStartPos == old(xDragStartPos) && yDragStartPos == old(yDragStartPos))
        && borders.View() == Shown(old(borders.View()), GetPositions(measured))
        && borders.isResize && borders.resizeBehavior == old(borders.resizeBehavior)
      ensures isDrag == old(isDrag) && dragStartPosition == old(dragStartPosition) && listening == old(listening)
      ensures isSelected == old(isSelected) && color == old(color)
    {
      if !borders.isResize {
        return;
      }
      var resizeBehavior := borders.resizeBehavior;
      var inFrame := GetElPosition(evt, frameRect);
      var inCanvas := GetElPosition(evt, canvasRect);
      if xDragStartPos.None? || yDragStartPos.None? {
        xDragStartPos := Some(inCanvas.xPos);
        yDragStartPos := Some(inCanvas.yPos);
      }
      if resizeBehavior == Some(Right) {
        width := inFrame.xPos;
      }
      if resizeBehavior == Some(Bot) {
        height := inFrame.yPos;
      }
      if resizeBehavior == Some(BotRight) {
        width := inFrame.xPos;
        height := inFrame.yPos;
      }
      if resizeBehavior == Some(Top) {
        yPos := inCanvas.yPos;
        height := height - inFrame.yPos;
      }
      if resizeBehavior == Some(Left) {
        xPos := inCanvas.xPos;
        width := width - inFrame.xPos;
      }
      if resizeBehavior == Some(TopLeft) {
        yPos := inCanvas.yPos;
        xPos := inCanvas.xPos;
        height := height - inFrame.yPos;
        width := width - inFrame.xPos;
      }
      if resizeBehavior == Some(TopRight) {
        yPos := inCanvas.yPos;
        height := height - inFrame.yPos;
        width := inFrame.xPos;
      }
      if resizeBehavior == Some(BotLeft) {
        xPos := inCanvas.xPos;
        height := inFrame.yPos;
        width := width - inFrame.xPos;
      }
      ShowBorders(measured);
    }

    /**
     * The synchronous part of `onMouseUp`: detach `checkDragThreshold`; if the frame is
     * resizing, end the resize and stop. Otherwise the gesture's completion is scheduled
     * (`CompleteGesture`, run on the next tick).
     */
    method OnMouseUp() returns (completionScheduled: bool)
      requires Valid()
      modifies this, borders
      ensures Valid()
      ensures completionScheduled == !old(borders.isResize)
      ensures !listening && !borders.isResize
      ensures Drag() == old(Drag()).(listening := false)
      ensures Geometry() == old(Geometry()) && isSelected == old(isSelected) && color == old(color)
      ensures borders.View() == old(borders.View()) && borders.resizeBehavior == old(borders.resizeBehavior)
    {
      listening := false;
      if borders.isResize {
        borders.CancelResize();
        return false;
      }
      return true;
    }

    /**
     * The deferred completion of `onMouseUp`: report a move (start, current) when a drag
     * with a recorded start ends elsewhere and `onMoved` was supplied, then end the drag,
     * announce it and forget the anchor and the start position.
     */
    method CompleteGesture() returns (events: seq<Event>)
      requires Valid()
      modifies this
      ensures Valid()
      ensures
        var moved := old(isDrag) && old(dragStartPosition).Some? && hasOnMoved
                     && old(dragStartPosition).value != Pos(xPos, yPos);
        events == (if moved then [Moved(id, old(dragStartPosition).value, Pos(xPos, yPos))] else []) + [DragEnd(id)]
      ensures Drag() == DragState(false, None, None, None, old(listening))
      ensures Geometry() == old(Geometry()) && isSelected == old(isSelected) && color == old(color)
    {
      events := [];
      if isDrag && dragStartPosition.Some? && hasOnMoved {
        var currentPos := Pos(xPos, yPos);
        if dragStartPosition.value != currentPos {
          events := [Moved(id, dragStartPosition.value, currentPos)];
        }
      }
      isDrag := false;
      events := events + [DragEnd(id)];
      xDragStartPos := None;
      yDragStartPos := None;
      dragStartPosition := None;
    }

    /** `deselect`: only the selection flag changes. */
    method Deselect()
      requires Valid()
      modifies this
      ensures Valid()
      ensures !isSelected
      ensures Geometry() == old(Geometry()) && Drag() == old(Drag()) && color == old(color)
    {
      isSelected := false;
    }

    /**
     * `updateColor`: report the change (old colour, defaulting to #333333, to the new one)
     * when the colour differs and `onPropertiesChanged` was supplied; set it in every case.
     */
    method UpdateColor(newColor: string) returns (events: seq<Event>)
      requires Valid()
      modifies this
      ensures Valid()
      ensures color == newColor
      ensures
        var oldColor := if old(color) == "" then DEFAULT_ICON_COLOR else old(color);
        events == if oldColor != newColor && hasOnPropertiesChanged
                  then [PropertiesChanged(id, map["color" := oldColor], map["color" := newColor])]
                  else []
      ensures Geometry() == old(Geometry()) && Drag() == old(Drag()) && isSelected == old(isSelected)
    {
      var oldColor := if color == "" then DEFAULT_ICON_COLOR else color;
      events := [];
      if oldColor != newColor && hasOnPropertiesChanged {
        events := [PropertiesChanged(id, map["color" := oldColor], map["color" := newColor])];
      }
      color := newColor;
    }

    /**
     * `append`: with the measured size, centre the icon on its stored position (the click),
     * raise a negative coordinate to 0 and record the size.
     */
    method Append(measured: Size)
      requires Valid()
      modifies this
      ensures Valid()
      ensures Geometry() == Box(CentredStart(old(xPos), measured.width), CentredStart(old(yPos), measured.height),
                                measured.width, measured.height)
      ensures xPos >= 0 && yPos >= 0
      ensures Drag() == old(Drag()) && isSelected == old(isSelected) && color == old(color)
    {
      var w := measured.width;
      var h := measured.height;
      xPos := Floor(xPos as real - w as real / 2.0);
      yPos := Floor(yPos as real - h as real / 2.0);
      if xPos < 0 {
        xPos := 0;
      }
      if yPos < 0 {
        yPos := 0;
      }
      width := w;
      height := h;
    }
  }
}
