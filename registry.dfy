/**
 * The element registry that the history commands write to (the `canvasManager` of
 * src/utils/history.ts). Its implementation is not part of this model; it is given the
 * plain dictionary meaning its method names describe: adding stores an entry under its id,
 * removing deletes it, and the change, move and resize calls rewrite one attribute of an
 * existing entry and ignore an id that is not stored. Property bags are merged.
 */
module Registry {
  import opened Position

  /** A property bag, such as `{ color: "#ff0000" }`. */
  type Props = map<string, string>

  /** The element type tag (`'text' | 'icon'`). */
  datatype ElementType = TextType | IconType

  /** What the registry stores per element. */
  datatype ElementData = ElementData(kind: ElementType, text: string, props: Props, pos: Pos, size: Size)

  type Elements = map<string, ElementData>

  /** `ElementSnapshot`: an element with its id; the type tag is `data.kind`. */
  datatype ElementSnapshot = ElementSnapshot(id: string, data: ElementData)

  /** `CanvasSnapshot`: the saved elements and when they were saved. */
  datatype CanvasSnapshot = CanvasSnapshot(elements: seq<ElementSnapshot>, timestamp: int)

  function AddElementById(m: Elements, id: string, data: ElementData): Elements {
    m[id := data]
  }

  function RemoveElementById(m: Elements, id: string): Elements {
    m - {id}
  }

  function ChangeElementText(m: Elements, id: string, text: string): Elements {
    if id in m then m[id := m[id].(text := text)] else m
  }

  function ChangeElementProperties(m: Elements, id: string, props: Props): Elements {
    if id in m then m[id := m[id].(props := m[id].props + props)] else m
  }

  function MoveElement(m: Elements, id: string, pos: Pos): Elements {
    if id in m then m[id := m[id].(pos := pos)] else m
  }

  function ResizeElement(m: Elements, id: string, size: Size): Elements {
    if id in m then m[id := m[id].(size := size)] else m
  }

  /** The ids of a list of saved elements, collected from the back. */
  function Ids(es: seq<ElementSnapshot>): (ids: set<string>)
    ensures ids == set e | e in es :: e.id
  {
    if es == [] then {} else Ids(es[..|es| - 1]) + {es[|es| - 1].id}
  }

  /** The registry built from a list of saved elements: exactly their ids are stored. */
  function FromSnapshots(es: seq<ElementSnapshot>): (m: Elements)
    ensures m.Keys == Ids(es)
    ensures m.Keys == set e | e in es :: e.id
  {
    if es == [] then map[] else FromSnapshots(es[..|es| - 1])[es[|es| - 1].id := es[|es| - 1].data]
  }

  /** Every saved id is stored, with the data of the last entry saved under it. */
  lemma {:induction false} FromSnapshotsLastWins(es: seq<ElementSnapshot>, i: nat)
    requires i < |es|
    requires forall j :: i < j < |es| ==> es[j].id != es[i].id
    ensures es[i].id in FromSnapshots(es) && FromSnapshots(es)[es[i].id] == es[i].data
  {
    if i < |es| - 1 {
      var init := es[..|es| - 1];
      assert init[i] == es[i];
      forall j | i < j < |init| ensures init[j].id != init[i].id {
        assert init[j] == es[j];
      }
      FromSnapshotsLastWins(init, i);
    }
  }

  /** `loadSnapshot`: the registry becomes exactly the saved elements. */
  function LoadSnapshot(snapshot: CanvasSnapshot): Elements {
    FromSnapshots(snapshot.elements)
  }

  /** The mutable registry object the commands are bound to. */
  class CanvasManager {
    var elements: Elements

    constructor (elements: Elements)
      ensures this.elements == elements
    {
      this.elements := elements;
    }
  }
}
