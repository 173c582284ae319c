/**
 * The selection frame (src/utils/borders.ts): one overlay per canvas whose visibility,
 * position and size mirror the selected element. The frame's resize state (`isResize`,
 * `resizeBehavior`), which icons.ts reads, is kept here as plain fields.
 */
module Borders {
  import opened Wrappers
  import opened Position

  /** The frame's CSS `display`: never written yet, `block`, or `none`. */
  datatype Display = Unset | Block | NoDisplay

  /** The eight resize handles (`resizeBehavior`). */
  datatype Handle = Top | Right | Bot | Left | TopLeft | TopRight | BotLeft | BotRight

  /** Everything the frame shows: its display and the four style lengths (absent until written). */
  datatype FrameView = FrameView(
    display: Display,
    left: Option<int>,
    top: Option<int>,
    width: Option<int>,
    height: Option<int>)

  /** The frame after `show(box)`. */
  function Shown(v: FrameView, box: Box): FrameView {
    FrameView(Block, Some(box.xPos), Some(box.yPos), Some(box.width), Some(box.height))
  }

  /** The frame after `hide()`. */
  function Hidden(v: FrameView): FrameView {
    v.(display := NoDisplay)
  }

  /** `show(box)` makes the frame visible and gives it exactly the box's position and size. */
  lemma ShownMirrorsBox(v: FrameView, box: Box)
    ensures Shown(v, box).display == Block
    ensures Shown(v, box).left == Some(box.xPos) && Shown(v, box).top == Some(box.yPos)
    ensures Shown(v, box).width == Some(box.width) && Shown(v, box).height == Some(box.height)
  {
  }

  /** `hide()` makes the frame invisible and keeps its position and size. */
  lemma HiddenKeepsBox(v: FrameView)
    ensures Hidden(v).display == NoDisplay
    ensures Hidden(v).(display := v.display) == v
  {
  }

  /** Showing the same box twice, or hiding twice, is the same as doing it once. */
  lemma ShowHideIdempotent(v: FrameView, box: Box)
    ensures Shown(Shown(v, box), box) == Shown(v, box)
    ensures Hidden(Hidden(v)) == Hidden(v)
  {
  }

  class Borders {
    var display: Display
    var left: Option<int>
    var top: Option<int>
    var width: Option<int>
    var height: Option<int>
    /** Whether a resize gesture started on one of the handles is in progress. */
    var isResize: bool
    /** The handle that started the resize; `None` for a value none of the rules matches. */
    var resizeBehavior: Option<Handle>

    function View(): FrameView
      reads this
    {
      FrameView(display, left, top, width, height)
    }

    /** A new frame: nothing written to its style yet and no resize in progress. */
    constructor ()
      ensures View() == FrameView(Unset, None, None, None, None)
      ensures !isResize && resizeBehavior == None
    {
      display, left, top, width, height := Unset, None, None, None, None;
      isResize, resizeBehavior := false, None;
    }

    /** `show`: display the frame, then set its size, then its position. */
    method Show(box: Box)
      modifies this
      ensures View() == Shown(old(View()), box)
      ensures isResize == old(isResize) && resizeBehavior == old(resizeBehavior)
    {
      display := Block;
      SetSize(Size(box.width, box.height));
      SetPositions(Pos(box.xPos, box.yPos));
    }

    /** `hide`: only the display changes. */
    method Hide()
      modifies this
      ensures View() == Hidden(old(View()))
      ensures isResize == old(isResize) && resizeBehavior == old(resizeBehavior)
    {
      display := NoDisplay;
    }

    /** `setPositions`: writes `top` and `left`. */
    method SetPositions(pos: Pos)
      modifies this
      ensures View() == old(View()).(left := Some(pos.xPos), top := Some(pos.yPos))
      ensures isResize == old(isResize) && resizeBehavior == old(resizeBehavior)
    {
      top := Some(pos.yPos);
      left := Some(pos.xPos);
    }

    /** `setSize`: writes `width` and `height`. */
    method SetSize(size: Size)
      modifies this
      ensures View() == old(View()).(width := Some(size.width), height := Some(size.height))
      ensures isResize == old(isResize) && resizeBehavior == old(resizeBehavior)
    {
      width := Some(size.width);
      height := Some(size.height);
    }

    /** `cancelResize`: ends the resize gesture; nothing else changes. */
    method CancelResize()
      modifies this
      ensures !isResize
      ensures View() == old(View()) && resizeBehavior == old(resizeBehavior)
    {
      isResize := false;
    }
  }
}
