/**
 * The canvas's element registry and selection (src/components/CanvasComponent.tsx):
 * a map from id to text element, the current element and the dragging flag.
 * Each call of an element's `deselect()` is returned as the element it was called on.
 */
module Canvas {
  import opened Wrappers
  import opened Types
  import opened Position

  /** A text element as the canvas creates it: its id, its text and the click position. */
  datatype TextElement = TextElement(id: string, text: string, xPos: int, yPos: int)

  class CanvasComponent {
    var elements: map<string, TextElement>
    var currentEl: Option<TextElement>
    var isDragging: bool
    /** Whether the shared text frame exists (`sharedTextBorder` is non-null). */
    var hasSharedTextBorder: bool

    /**
     * Every element is stored under its own id, and the current element, if any, is the
     * element stored under its id.
     */
    ghost predicate Valid()
      reads this
    {
      && (forall k :: k in elements ==> elements[k].id == k)
      && (currentEl.Some? ==> currentEl.value.id in elements && elements[currentEl.value.id] == currentEl.value)
    }

    /** The initial data: no elements, no current element, not dragging, no shared frame. */
    constructor ()
      ensures Valid()
      ensures elements == map[] && currentEl == None && !isDragging && !hasSharedTextBorder
    {
      elements := map[];
      currentEl := None;
      isDragging := false;
      hasSharedTextBorder := false;
    }

    /** `getElementsCount`: the number of stored elements. */
    function ElementsCount(): (n: nat)
      reads this
      ensures n == |elements.Keys|
      ensures n == 0 <==> elements == map[]
    {
      |elements|
    }

    /** `handleDeselect`: deselect the current element, if any, and forget it. */
    method HandleDeselect() returns (deselected: Option<TextElement>)
      modifies this
      ensures deselected == old(currentEl)
      ensures currentEl == None
      ensures elements == old(elements) && isDragging == old(isDragging) && hasSharedTextBorder == old(hasSharedTextBorder)
      ensures old(Valid()) ==> Valid()
    {
      deselected := None;
      if currentEl.Some? {
        deselected := currentEl;
        currentEl := None;
      }
    }

    /**
     * `selectEl`: deselect the previous current element, if any, then make the element
     * stored under `id` current; with no such element there is no current element.
     */
    method SelectEl(id: string) returns (deselected: Option<TextElement>)
      modifies this
      ensures deselected == old(currentEl)
      ensures currentEl == if id in elements then Some(elements[id]) else None
      ensures elements == old(elements) && isDragging == old(isDragging) && hasSharedTextBorder == old(hasSharedTextBorder)
      ensures old(Valid()) ==> Valid()
    {
      deselected := None;
      if currentEl.Some? {
        deselected := currentEl;
      }
      currentEl := if id in elements then Some(elements[id]) else None;
    }

    /**
     * `addTextEl`, for a canvas click at `evt` with the canvas at `canvasRect`, the fresh id
     * `newElId` and the store's `mode` and `text`. Nothing happens while dragging, without
     * the shared frame, or outside text mode. Otherwise a text element at the click position
     * is stored under the fresh id and selected.
     */
    method AddTextEl(evt: Pointer, canvasRect: Rect, newElId: string, mode: ICMode, text: string)
      returns (added: bool, deselected: Option<TextElement>)
      modifies this
      ensures added == (!old(isDragging) && old(hasSharedTextBorder) && mode == TextMode)
      ensures !added ==> deselected == None && elements == old(elements) && currentEl == old(currentEl)
      ensures added ==>
        var positions := GetElPosition(evt, canvasRect);
        var el := TextElement(newElId, text, positions.xPos, positions.yPos);
        && elements == old(elements)[newElId := el]
        && currentEl == Some(el)
        && deselected == old(currentEl)
      ensures added && newElId !in old(elements) ==> ElementsCount() == old(ElementsCount()) + 1
      ensures added && newElId in old(elements) ==> ElementsCount() == old(ElementsCount())
      ensures isDragging == old(isDragging) && hasSharedTextBorder == old(hasSharedTextBorder)
      ensures old(Valid()) ==> Valid()
    {
      added, deselected := false, None;
      if isDragging || !hasSharedTextBorder {
        return;
      }
      var positions := GetElPosition(evt, canvasRect);
      if mode == TextMode {
        var divEl := TextElement(newElId, text, positions.xPos, positions.yPos);
        elements := elements[newElId := divEl];
        deselected := SelectEl(newElId);
        added := true;
      }
    }

    /** `onDragStart`: only the dragging flag changes. */
    method OnDragStart()
      modifies this
      ensures isDragging
      ensures elements == old(elements) && currentEl == old(currentEl) && hasSharedTextBorder == old(hasSharedTextBorder)
    {
      isDragging := true;
    }

    /** `onDragEnd`: only the dragging flag changes. */
    method OnDragEnd()
      modifies this
      ensures !isDragging
      ensures elements == old(elements) && currentEl == old(currentEl) && hasSharedTextBorder == old(hasSharedTextBorder)
    {
      isDragging := false;
    }

    /**
     * `onDeleteElement`: with a current element that is stored under its id, remove exactly
     * that entry and forget the current element; otherwise nothing changes.
     */
    method OnDeleteElement()
      modifies this
      ensures
        var deletes := old(currentEl).Some? && old(currentEl).value.id in old(elements);
        if deletes then
          && elements == old(elements) - {old(currentEl).value.id}
          && ElementsCount() == old(ElementsCount()) - 1
          && currentEl == None
        else
          elements == old(elements) && currentEl == old(currentEl)
      ensures isDragging == old(isDragging) && hasSharedTextBorder == old(hasSharedTextBorder)
      ensures old(Valid()) ==> Valid()
      ensures old(Valid()) && old(currentEl).Some? ==> currentEl == None && ElementsCount() == old(ElementsCount()) - 1
    {
      if currentEl.None? {
        return;
      }
      var elementId := currentEl.value.id;
      if elementId !in elements {
        return;
      }
      elements := elements - {elementId};
      currentEl := None;
    }

    /** `clearAllElements`: delete every key, one at a time, and forget the current element. */
    method ClearAllElements()
      modifies this
      ensures elements == map[] && currentEl == None
      ensures ElementsCount() == 0
      ensures isDragging == old(isDragging) && hasSharedTextBorder == old(hasSharedTextBorder)
      ensures Valid()
    {
      var keys := elements.Keys;
      while keys != {}
        invariant elements.Keys == keys
        invariant forall k :: k in elements ==> elements[k] == old(elements)[k]
        invariant isDragging == old(isDragging) && hasSharedTextBorder == old(hasSharedTextBorder)
        decreases keys
      {
        var key :| key in keys;
        elements := elements - {key};
        keys := keys - {key};
      }
      currentEl := None;
    }
  }
}
