/** The text element's placement (src/utils/text.ts, `TextDiv`). */
module Text {
  import opened Position

  class TextDiv {
    /** The element's text content. */
    var text: string
    var xPos: int
    var yPos: int

    /** Stores the text and the given position unchanged. */
    constructor (text: string, xPos: int, yPos: int)
      ensures this.text == text && this.xPos == xPos && this.yPos == yPos
    {
      this.text := text;
      this.xPos := xPos;
      this.yPos := yPos;
    }

    /**
     * `append`: with the element's measured size, centre it on its stored position (the
     * click), then raise a negative coordinate to 0. Each axis is placed on its own.
     */
    method Append(measured: Size)
      modifies this
      ensures xPos == CentredStart(old(xPos), measured.width)
      ensures yPos == CentredStart(old(yPos), measured.height)
      ensures xPos >= 0 && yPos >= 0
      ensures text == old(text)
    {
      var halfWidth := measured.width as real / 2.0;
      var halfHeight := measured.height as real / 2.0;
      xPos := Floor(xPos as real - halfWidth);
      yPos := Floor(yPos as real - halfHeight);
      if xPos < 0 {
        xPos := 0;
      }
      if yPos < 0 {
        yPos := 0;
      }
    }
  }
}
