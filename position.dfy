/**
 * Pointer coordinates relative to an element (src/utils/position.ts), the shared geometry
 * records, and the centre-on-click placement used by the text and icon `append` methods.
 */
module Position {

  /** The viewport coordinates of a pointer event (`clientX`, `clientY`). */
  datatype Pointer = Pointer(clientX: real, clientY: real)

  /** The origin of an element's bounding client rectangle (`left`, `top`). */
  datatype Rect = Rect(left: real, top: real)

  /** A position in pixels, as `{ xPos, yPos }`. */
  datatype Pos = Pos(xPos: int, yPos: int)

  /** A size in pixels, as `{ width, height }`. */
  datatype Size = Size(width: int, height: int)

  /** A positioned box, as `{ xPos, yPos, width, height }`. */
  datatype Box = Box(xPos: int, yPos: int, width: int, height: int)

  /** `Math.floor` on a finite number. */
  function Floor(r: real): (n: int)
    ensures n as real <= r < n as real + 1.0
  {
    r.Floor
  }

  /** The floor is the only integer within one below `r`. */
  lemma FloorUnique(r: real, n: int)
    requires n as real <= r < n as real + 1.0
    ensures Floor(r) == n
  {
  }

  /** `getElPosition`: where the pointer is, relative to the rectangle's origin, floored. */
  function GetElPosition(evt: Pointer, rect: Rect): (p: Pos)
    ensures p.xPos as real <= evt.clientX - rect.left < p.xPos as real + 1.0
    ensures p.yPos as real <= evt.clientY - rect.top < p.yPos as real + 1.0
  {
    Pos(Floor(evt.clientX - rect.left), Floor(evt.clientY - rect.top))
  }

  /** Moving the pointer and the rectangle by the same offset gives the same position. */
  lemma GetElPositionTranslation(evt: Pointer, rect: Rect, dx: real, dy: real)
    ensures GetElPosition(Pointer(evt.clientX + dx, evt.clientY + dy), Rect(rect.left + dx, rect.top + dy))
         == GetElPosition(evt, rect)
  {
    var p := GetElPosition(evt, rect);
    FloorUnique((evt.clientX + dx) - (rect.left + dx), p.xPos);
    FloorUnique((evt.clientY + dy) - (rect.top + dy), p.yPos);
  }

  /** A pointer exactly at the rectangle's origin is at (0, 0). */
  lemma GetElPositionAtOrigin(rect: Rect)
    ensures GetElPosition(Pointer(rect.left, rect.top), rect) == Pos(0, 0)
  {
    FloorUnique(0.0, 0);
  }

  /** Each axis depends only on its own pointer and origin coordinate. */
  lemma GetElPositionAxesIndependent(a: Pointer, ra: Rect, b: Pointer, rb: Rect)
    ensures a.clientX - ra.left == b.clientX - rb.left ==> GetElPosition(a, ra).xPos == GetElPosition(b, rb).xPos
    ensures a.clientY - ra.top == b.clientY - rb.top ==> GetElPosition(a, ra).yPos == GetElPosition(b, rb).yPos
  {
  }

  /**
   * Where `append` puts an element of extent `size` created by a click at `click`:
   * centred on the click (`Math.floor(click - size / 2)`), then raised to 0 if negative.
   * There is no clamp on the right or bottom.
   */
  function CentredStart(click: int, size: int): (r: int)
    ensures r >= 0
    ensures click as real - size as real / 2.0 >= 0.0 ==> r == Floor(click as real - size as real / 2.0)
    ensures click as real - size as real / 2.0 < 0.0 ==> r == 0
  {
    var centred := Floor(click as real - size as real / 2.0);
    if centred < 0 then 0 else centred
  }

  /** For a measured (non-negative) size the placement is `max(0, click - ceil(size / 2))`. */
  lemma CentredStartInIntegers(click: int, size: int)
    requires size >= 0
    ensures CentredStart(click, size) == if click - (size + 1) / 2 < 0 then 0 else click - (size + 1) / 2
  {
    var h := (size + 1) / 2;
    var v := click as real - size as real / 2.0;
    if size % 2 == 0 {
      assert size == 2 * h;
      assert v == (click - h) as real;
    } else {
      assert size == 2 * h - 1;
      assert v == (click - h) as real + 0.5;
    }
    FloorUnique(v, click - h);
  }
}
