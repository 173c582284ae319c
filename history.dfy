/**
 * Command-based undo/redo (src/utils/history.ts): the seven reversible commands over the
 * element registry, and the history manager, a linear command log with a cursor
 * (`currentIndex`, -1 before the first command) and an optional initial snapshot.
 */
module History {
  import opened Wrappers
  import opened Position
  import opened Registry

  /** What a command's `description` says, before it is rendered as text. */
  datatype Description =
    | AddDescription(kind: ElementType)
    | RemoveDescription(kind: ElementType)
    | ChangeTextDescription(oldText: string, newText: string)
    | TextPropertiesDescription(changed: set<string>)
    | IconPropertiesDescription(changed: set<string>)
    | MoveDescription(oldPos: Pos, newPos: Pos)
    | ResizeDescription(oldSize: Size, newSize: Size)

  /** The keys of `newProps` whose value differs from (or is missing in) `oldProps`. */
  function ChangedKeys(oldProps: Props, newProps: Props): set<string> {
    set k | k in newProps && (k !in oldProps || oldProps[k] != newProps[k])
  }

  /** Every entry of `a` is an entry of `b`. */
  predicate Submap(a: Props, b: Props) {
    forall k :: k in a ==> k in b && a[k] == b[k]
  }

  /** A command, closed over the element id and the values it needs to redo and undo itself. */
  datatype Command =
    | AddElementCommand(id: string, elementData: ElementData)
    | RemoveElementCommand(id: string, elementData: ElementData)
    | ChangeTextCommand(id: string, oldText: string, newText: string)
    | ChangeTextPropertiesCommand(id: string, oldProperties: Props, newProperties: Props)
    | ChangeIconPropertiesCommand(id: string, oldProperties: Props, newProperties: Props)
    | MoveElementCommand(id: string, oldPosition: Pos, newPosition: Pos)
    | ResizeElementCommand(id: string, oldSize: Size, newSize: Size)
  {
    /** `execute()`. */
    function Execute(m: Elements): Elements {
      match this
      case AddElementCommand(id, data) => AddElementById(m, id, data)
      case RemoveElementCommand(id, _) => RemoveElementById(m, id)
      case ChangeTextCommand(id, _, newText) => ChangeElementText(m, id, newText)
      case ChangeTextPropertiesCommand(id, _, newProps) => ChangeElementProperties(m, id, newProps)
      case ChangeIconPropertiesCommand(id, _, newProps) => ChangeElementProperties(m, id, newProps)
      case MoveElementCommand(id, _, newPos) => MoveElement(m, id, newPos)
      case ResizeElementCommand(id, _, newSize) => ResizeElement(m, id, newSize)
    }

    /** `undo()`. */
    function Undo(m: Elements): Elements {
      match this
      case AddElementCommand(id, _) => RemoveElementById(m, id)
      case RemoveElementCommand(id, data) => AddElementById(m, id, data)
      case ChangeTextCommand(id, oldText, _) => ChangeElementText(m, id, oldText)
      case ChangeTextPropertiesCommand(id, oldProps, _) => ChangeElementProperties(m, id, oldProps)
      case ChangeIconPropertiesCommand(id, oldProps, _) => ChangeElementProperties(m, id, oldProps)
      case MoveElementCommand(id, oldPos, _) => MoveElement(m, id, oldPos)
      case ResizeElementCommand(id, oldSize, _) => ResizeElement(m, id, oldSize)
    }

    /** `description`. */
    function Describe(): Description {
      match this
      case AddElementCommand(_, data) => AddDescription(data.kind)
      case RemoveElementCommand(_, data) => RemoveDescription(data.kind)
      case ChangeTextCommand(_, oldText, newText) => ChangeTextDescription(oldText, newText)
      case ChangeTextPropertiesCommand(_, oldProps, newProps) => TextPropertiesDescription(ChangedKeys(oldProps, newProps))
      case ChangeIconPropertiesCommand(_, oldProps, newProps) => IconPropertiesDescription(ChangedKeys(oldProps, newProps))
      case MoveElementCommand(_, oldPos, newPos) => MoveDescription(oldPos, newPos)
      case ResizeElementCommand(_, oldSize, newSize) => ResizeDescription(oldSize, newSize)
    }

    /**
     * The command was captured from registry `m`: the element to add is absent, the
     * element to remove is stored with the captured data, and every "old" value is the
     * element's current one (for a property bag: the old bag is part of the element's
     * bag and names the same keys as the new one).
     */
    predicate Fits(m: Elements) {
      match this
      case AddElementCommand(id, _) => id !in m
      case RemoveElementCommand(id, data) => id in m && m[id] == data
      case ChangeTextCommand(id, oldText, _) => id in m ==> m[id].text == oldText
      case ChangeTextPropertiesCommand(id, oldProps, newProps) =>
        id in m ==> oldProps.Keys == newProps.Keys && Submap(oldProps, m[id].props)
      case ChangeIconPropertiesCommand(id, oldProps, newProps) =>
        id in m ==> oldProps.Keys == newProps.Keys && Submap(oldProps, m[id].props)
      case MoveElementCommand(id, oldPos, _) => id in m ==> m[id].pos == oldPos
      case ResizeElementCommand(id, oldSize, _) => id in m ==> m[id].size == oldSize
    }

    /** Registry `m` is one this command has just produced: every "new" value is current. */
    predicate Applied(m: Elements) {
      match this
      case AddElementCommand(id, data) => id in m && m[id] == data
      case RemoveElementCommand(id, _) => id !in m
      case ChangeTextCommand(id, _, newText) => id in m ==> m[id].text == newText
      case ChangeTextPropertiesCommand(id, oldProps, newProps) =>
        id in m ==> oldProps.Keys == newProps.Keys && Submap(newProps, m[id].props)
      case ChangeIconPropertiesCommand(id, oldProps, newProps) =>
        id in m ==> oldProps.Keys == newProps.Keys && Submap(newProps, m[id].props)
      case MoveElementCommand(id, _, newPos) => id in m ==> m[id].pos == newPos
      case ResizeElementCommand(id, _, newSize) => id in m ==> m[id].size == newSize
    }

    /** Undoing a command right after executing it restores the registry it was captured from. */
    lemma ExecuteThenUndo(m: Elements)
      requires Fits(m)
      ensures Applied(Execute(m))
      ensures Undo(Execute(m)) == m
    {
      match this
      case AddElementCommand(id, data) =>
        assert Undo(Execute(m)).Keys == m.Keys;
      case RemoveElementCommand(id, data) =>
        assert Undo(Execute(m)).Keys == m.Keys;
      case ChangeTextPropertiesCommand(id, oldProps, newProps) =>
        if id in m {
          MergeBack(m[id].props, newProps, oldProps);
        }
      case ChangeIconPropertiesCommand(id, oldProps, newProps) =>
        if id in m {
          MergeBack(m[id].props, newProps, oldProps);
        }
      case _ =>
    }

    /** Executing a command right after undoing it restores the registry it had produced. */
    lemma UndoThenExecute(m: Elements)
      requires Applied(m)
      ensures Fits(Undo(m))
      ensures Execute(Undo(m)) == m
    {
      match this
      case AddElementCommand(id, data) =>
        assert Execute(Undo(m)).Keys == m.Keys;
      case RemoveElementCommand(id, data) =>
        assert Execute(Undo(m)).Keys == m.Keys;
      case ChangeTextPropertiesCommand(id, oldProps, newProps) =>
        if id in m {
          MergeBack(m[id].props, oldProps, newProps);
        }
      case ChangeIconPropertiesCommand(id, oldProps, newProps) =>
        if id in m {
          MergeBack(m[id].props, oldProps, newProps);
        }
      case _ =>
    }

    /** Neither `execute` nor `undo` touches an element other than the command's own. */
    lemma OnlyOwnElement(m: Elements, k: string)
      requires k != id
      ensures k in Execute(m) <==> k in m
      ensures k in Undo(m) <==> k in m
      ensures k in m ==> Execute(m)[k] == m[k] && Undo(m)[k] == m[k]
    {
    }

    /**
     * For an element that is stored, `execute` writes the captured new value of the
     * command's attribute and `undo` the captured old value; nothing else of it changes.
     */
    lemma WritesCapturedValue(m: Elements)
      requires id in m
      ensures ChangeTextCommand? ==>
        Execute(m)[id] == m[id].(text := newText) && Undo(m)[id] == m[id].(text := oldText)
      ensures ChangeTextPropertiesCommand? || ChangeIconPropertiesCommand? ==>
        Execute(m)[id] == m[id].(props := m[id].props + newProperties) &&
        Undo(m)[id] == m[id].(props := m[id].props + oldProperties)
      ensures MoveElementCommand? ==>
        Execute(m)[id] == m[id].(pos := newPosition) && Undo(m)[id] == m[id].(pos := oldPosition)
      ensures ResizeElementCommand? ==>
        Execute(m)[id] == m[id].(size := newSize) && Undo(m)[id] == m[id].(size := oldSize)
      ensures AddElementCommand? ==> Execute(m)[id] == elementData && id !in Undo(m)
      ensures RemoveElementCommand? ==> id !in Execute(m) && Undo(m)[id] == elementData
    {
    }
  }

  /**
   * Merging `a` into `p` and then `b` gives back `p` when `b` is part of `p` and names every
   * key of `a`.
   */
  lemma MergeBack(p: Props, a: Props, b: Props)
    requires a.Keys <= b.Keys && Submap(b, p)
    ensures p + a + b == p
  {
    var r := p + a + b;
    assert r.Keys == p.Keys;
    forall k | k in p ensures r[k] == p[k] {
      if k in b {
        assert r[k] == b[k];
      }
    }
  }

  /** The registry after executing `cmds` in order, starting from `base`. */
  function Replay(base: Elements, cmds: seq<Command>): Elements
    decreases |cmds|
  {
    if cmds == [] then base else cmds[|cmds| - 1].Execute(Replay(base, cmds[..|cmds| - 1]))
  }

  /** The registry after undoing `cmds` from the last to the first, starting from `m`. */
  function UndoAll(cmds: seq<Command>, m: Elements): Elements
    decreases |cmds|
  {
    if cmds == [] then m else UndoAll(cmds[..|cmds| - 1], cmds[|cmds| - 1].Undo(m))
  }

  /** Each command of the log was captured from the registry its predecessors produced. */
  ghost predicate Chain(base: Elements, cmds: seq<Command>) {
    forall i :: 0 <= i < |cmds| ==> FitsAt(base, cmds, i)
  }

  /** The command at index `i` was captured from the registry the commands before it produced. */
  ghost predicate FitsAt(base: Elements, cmds: seq<Command>, i: nat)
    requires i < |cmds|
  {
    cmds[i].Fits(Replay(base, cmds[..i]))
  }

  lemma ChainPrefix(base: Elements, cmds: seq<Command>, n: nat)
    requires Chain(base, cmds) && n <= |cmds|
    ensures Chain(base, cmds[..n])
  {
    forall i | 0 <= i < n ensures FitsAt(base, cmds[..n], i) {
      assert FitsAt(base, cmds, i);
      assert cmds[..n][..i] == cmds[..i];
    }
  }

  /** Appending a command captured from the current registry keeps the log a chain. */
  lemma ChainAppend(base: Elements, cmds: seq<Command>, c: Command)
    requires Chain(base, cmds) && c.Fits(Replay(base, cmds))
    ensures Chain(base, cmds + [c])
    ensures Replay(base, cmds + [c]) == c.Execute(Replay(base, cmds))
  {
    var ext := cmds + [c];
    assert ext[..|cmds|] == cmds;
    forall i | 0 <= i < |ext| ensures FitsAt(base, ext, i) {
      if i < |cmds| {
        assert ext[..i] == cmds[..i];
        assert FitsAt(base, cmds, i);
      }
    }
  }

  /** Undoing a whole chain of commands, last first, gives back the registry it started from. */
  lemma {:induction false} UndoAllReplay(base: Elements, cmds: seq<Command>)
    requires Chain(base, cmds)
    ensures UndoAll(cmds, Replay(base, cmds)) == base
  {
    if cmds != [] {
      var init := cmds[..|cmds| - 1];
      var last := cmds[|cmds| - 1];
      ChainPrefix(base, cmds, |cmds| - 1);
      assert FitsAt(base, cmds, |cmds| - 1);
      last.ExecuteThenUndo(Replay(base, init));
      UndoAllReplay(base, init);
    }
  }

  /** `UndoAll` peeled from the front: the first command is the last one undone. */
  lemma {:induction false} UndoAllFirst(cmds: seq<Command>, m: Elements)
    requires |cmds| > 0
    ensures UndoAll(cmds, m) == cmds[0].Undo(UndoAll(cmds[1..], m))
  {
    if |cmds| > 1 {
      var n := |cmds|;
      UndoAllFirst(cmds[..n - 1], cmds[n - 1].Undo(m));
      assert cmds[..n - 1][1..] == cmds[1..][..n - 2];
      assert cmds[1..][n - 2] == cmds[n - 1];
    }
  }

  /** The read-only summary `getHistoryInfo` returns. */
  datatype HistoryInfo = HistoryInfo(
    canUndo: bool,
    canRedo: bool,
    canReset: bool,
    currentIndex: int,
    totalCommands: nat,
    nextUndoCommand: Option<Description>,
    nextRedoCommand: Option<Description>)

  class HistoryManager {
    var history: seq<Command>
    var currentIndex: int
    var initialSnapshot: Option<CanvasSnapshot>
    /** The registry as it was before the first command of the log. */
    ghost var base: Elements

    /** The cursor is -1 or the index of a command of the log. */
    ghost predicate Valid()
      reads this
    {
      -1 <= currentIndex < |history|
    }

    predicate CanUndo()
      reads this
    {
      currentIndex >= 0
    }

    predicate CanRedo()
      reads this
    {
      currentIndex < |history| - 1
    }

    predicate HasInitialState()
      reads this
    {
      initialSnapshot.Some?
    }

    /**
     * The log describes `registry`: it is what executing the commands up to the cursor
     * produces from `base`, and each command was captured from the registry before it.
     */
    ghost predicate Tracks(registry: Elements)
      reads this
    {
      Valid() && Chain(base, history) && registry == Replay(base, history[..currentIndex + 1])
    }

    /** A new manager: empty log, cursor -1, no snapshot; it describes `registry`. */
    constructor (ghost registry: Elements)
      ensures history == [] && currentIndex == -1 && initialSnapshot == None
      ensures Tracks(registry)
    {
      history := [];
      currentIndex := -1;
      initialSnapshot := None;
      base := registry;
    }

    /** `saveInitialState`: only the snapshot changes. */
    method SaveInitialState(snapshot: CanvasSnapshot)
      modifies this
      ensures initialSnapshot == Some(snapshot)
      ensures history == old(history) && currentIndex == old(currentIndex) && base == old(base)
    {
      initialSnapshot := Some(snapshot);
    }

    /**
     * `executeCommand`: drop every command after the cursor, execute the command, append
     * it and move the cursor onto it. Nothing is left to redo.
     */
    method ExecuteCommand(command: Command, canvasManager: CanvasManager)
      requires Valid()
      modifies this, canvasManager
      ensures Valid()
      ensures history == old(history[..currentIndex + 1]) + [command]
      ensures currentIndex == old(currentIndex) + 1 && currentIndex == |history| - 1
      ensures CanUndo() && !CanRedo()
      ensures GetHistoryInfo().nextUndoCommand == Some(command.Describe()) && GetHistoryInfo().nextRedoCommand == None
      ensures canvasManager.elements == command.Execute(old(canvasManager.elements))
      ensures initialSnapshot == old(initialSnapshot) && base == old(base)
      ensures old(Tracks(canvasManager.elements)) && command.Fits(old(canvasManager.elements)) ==>
        Tracks(canvasManager.elements)
    {
      ghost var wasTracking := Tracks(canvasManager.elements);
      history := history[..currentIndex + 1];
      canvasManager.elements := command.Execute(canvasManager.elements);
      history := history + [command];
      currentIndex := currentIndex + 1;
      if wasTracking && command.Fits(old(canvasManager.elements)) {
        var kept := old(history[..currentIndex + 1]);
        ChainPrefix(base, old(history), |kept|);
        assert kept[..|kept|] == kept;
        ChainAppend(base, kept, command);
        assert history[..currentIndex + 1] == history;
      }
    }

    /**
     * `undo`: with a command at the cursor, undo it and move the cursor back; otherwise
     * return false and change nothing. The log is unchanged either way.
     */
    method Undo(canvasManager: CanvasManager) returns (ok: bool)
      requires Valid()
      modifies this, canvasManager
      ensures Valid()
      ensures ok == old(GetHistoryInfo()).canUndo
      ensures ok ==> GetHistoryInfo().nextRedoCommand == old(GetHistoryInfo()).nextUndoCommand
      ensures ok ==> (currentIndex == old(currentIndex) - 1 &&
        canvasManager.elements == old(history[currentIndex]).Undo(old(canvasManager.elements)))
      ensures !ok ==> currentIndex == old(currentIndex) && canvasManager.elements == old(canvasManager.elements)
      ensures history == old(history) && initialSnapshot == old(initialSnapshot) && base == old(base)
      ensures old(Tracks(canvasManager.elements)) ==> Tracks(canvasManager.elements)
    {
      ghost var wasTracking := Tracks(canvasManager.elements);
      if CanUndo() {
        var command := history[currentIndex];
        canvasManager.elements := command.Undo(canvasManager.elements);
        currentIndex := currentIndex - 1;
        if wasTracking {
          var before := history[..currentIndex + 1];
          assert history[..currentIndex + 2] == before + [command];
          assert before == history[..currentIndex + 2][..currentIndex + 1];
          assert FitsAt(base, history, currentIndex + 1);
          command.ExecuteThenUndo(Replay(base, before));
        }
        return true;
      }
      return false;
    }

    /**
     * `redo`: with a command after the cursor, move the cursor onto it and execute it;
     * otherwise return false and change nothing. The log is unchanged either way.
     */
    method Redo(canvasManager: CanvasManager) returns (ok: bool)
      requires Valid()
      modifies this, canvasManager
      ensures Valid()
      ensures ok == old(GetHistoryInfo()).canRedo
      ensures ok ==> GetHistoryInfo().nextUndoCommand == old(GetHistoryInfo()).nextRedoCommand
      ensures ok ==> (currentIndex == old(currentIndex) + 1 &&
        canvasManager.elements == history[currentIndex].Execute(old(canvasManager.elements)))
      ensures !ok ==> currentIndex == old(currentIndex) && canvasManager.elements == old(canvasManager.elements)
      ensures history == old(history) && initialSnapshot == old(initialSnapshot) && base == old(base)
      ensures old(Tracks(canvasManager.elements)) ==> Tracks(canvasManager.elements)
    {
      if CanRedo() {
        currentIndex := currentIndex + 1;
        var command := history[currentIndex];
        canvasManager.elements := command.Execute(canvasManager.elements);
        assert history[..currentIndex + 1][..currentIndex] == history[..currentIndex];
        return true;
      }
      return false;
    }

    /**
     * `reset`: empty log, cursor -1, no snapshot; nothing is left to undo, redo or reset.
     * The empty log describes whatever the registry now holds.
     */
    method Reset(ghost registry: Elements)
      modifies this
      ensures history == [] && currentIndex == -1 && initialSnapshot == None
      ensures GetHistoryInfo() == HistoryInfo(false, false, false, -1, 0, None, None)
      ensures Tracks(registry)
    {
      history := [];
      currentIndex := -1;
      initialSnapshot := None;
      base := registry;
    }

    /** The loop of `resetToInitial`: undo while possible, ending with the cursor at -1. */
    method UndoWhilePossible(canvasManager: CanvasManager)
      requires Valid()
      modifies this, canvasManager
      ensures Valid() && currentIndex == -1
      ensures history == old(history) && initialSnapshot == old(initialSnapshot) && base == old(base)
      ensures canvasManager.elements == UndoAll(old(history[..currentIndex + 1]), old(canvasManager.elements))
    {
      ghost var cursor := currentIndex;
      ghost var start := canvasManager.elements;
      while CanUndo()
        invariant Valid() && -1 <= currentIndex <= cursor
        invariant history == old(history) && initialSnapshot == old(initialSnapshot) && base == old(base)
        invariant canvasManager.elements == UndoAll(history[currentIndex + 1..cursor + 1], start)
        decreases currentIndex
      {
        ghost var i := currentIndex;
        ghost var pending := history[i..cursor + 1];
        var undone := Undo(canvasManager);
        UndoAllFirst(pending, start);
        assert pending[1..] == history[i + 1..cursor + 1];
      }
      assert history[0..cursor + 1] == history[..cursor + 1];
    }

    /**
     * `resetToInitial`: without a saved snapshot return false and change nothing.
     * Otherwise undo while anything can be undone (`unwound` is the registry then, which is
     * the log's starting registry when the log described it), load the snapshot and clear
     * the log and the snapshot, so that a second call returns false.
     */
    method ResetToInitial(canvasManager: CanvasManager) returns (ok: bool, ghost unwound: Elements)
      requires Valid()
      modifies this, canvasManager
      ensures Valid()
      ensures ok == old(HasInitialState())
      ensures !ok ==> unchanged(this) && unchanged(canvasManager)
      ensures ok ==>
        && unwound == UndoAll(old(history[..currentIndex + 1]), old(canvasManager.elements))
        && (old(Tracks(canvasManager.elements)) ==> unwound == old(base))
        && canvasManager.elements == LoadSnapshot(old(initialSnapshot).value)
        && history == [] && currentIndex == -1 && initialSnapshot == None
        && GetHistoryInfo() == HistoryInfo(false, false, false, -1, 0, None, None)
        && Tracks(canvasManager.elements)
      ensures old(GetHistoryInfo()).canReset ==> ok
    {
      unwound := canvasManager.elements;
      if initialSnapshot.None? {
        return false, unwound;
      }
      ghost var log := history[..currentIndex + 1];
      ghost var wasTracking := Tracks(canvasManager.elements);
      UndoWhilePossible(canvasManager);
      unwound := canvasManager.elements;
      if wasTracking {
        ChainPrefix(base, history, |log|);
        UndoAllReplay(base, log);
      }
      canvasManager.elements := LoadSnapshot(initialSnapshot.value);
      Reset(canvasManager.elements);
      return true, unwound;
    }

    /** `getHistoryInfo`: what can be done next, read off the log and the cursor. */
    function GetHistoryInfo(): (info: HistoryInfo)
      reads this
      requires Valid()
      ensures info.canUndo <==> currentIndex >= 0
      ensures info.canRedo <==> currentIndex < |history| - 1
      ensures info.canReset <==> initialSnapshot.Some? && |history| > 0
      ensures info.currentIndex == currentIndex && info.totalCommands == |history|
      ensures info.nextUndoCommand.Some? <==> info.canUndo
      ensures info.nextUndoCommand.Some? ==> info.nextUndoCommand.value == history[currentIndex].Describe()
      ensures info.nextRedoCommand.Some? <==> info.canRedo
      ensures info.nextRedoCommand.Some? ==> info.nextRedoCommand.value == history[currentIndex + 1].Describe()
      ensures info.totalCommands > 0 ==> info.canUndo || info.canRedo
    {
      HistoryInfo(
        CanUndo(),
        CanRedo(),
        HasInitialState() && |history| > 0,
        currentIndex,
        |history|,
        if CanUndo() then Some(history[currentIndex].Describe()) else None,
        if CanRedo() then Some(history[currentIndex + 1].Describe()) else None)
    }
  }

  /** Undo followed by redo gives back the registry and the cursor. */
  method UndoThenRedo(manager: HistoryManager, canvasManager: CanvasManager)
    requires manager.Tracks(canvasManager.elements) && manager.CanUndo()
    modifies manager, canvasManager
    ensures canvasManager.elements == old(canvasManager.elements)
    ensures manager.currentIndex == old(manager.currentIndex) && manager.history == old(manager.history)
    ensures manager.Tracks(canvasManager.elements)
  {
    var undone := manager.Undo(canvasManager);
    var redone := manager.Redo(canvasManager);
  }

  /**
   * Adding an element, moving it and undoing twice gives back the registry before the add,
   * with nothing left to undo.
   */
  method AddMoveUndoUndo(canvasManager: CanvasManager, id: string, data: ElementData, newPos: Pos)
    requires id !in canvasManager.elements
    modifies canvasManager
    ensures canvasManager.elements == old(canvasManager.elements)
  {
    var manager := new HistoryManager(canvasManager.elements);
    manager.ExecuteCommand(AddElementCommand(id, data), canvasManager);
    manager.ExecuteCommand(MoveElementCommand(id, data.pos, newPos), canvasManager);
    var first := manager.Undo(canvasManager);
    var second := manager.Undo(canvasManager);
    assert !manager.CanUndo();
  }
}
