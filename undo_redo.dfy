/** The undo/redo history of src/hooks/useUndoRedo.ts: a bounded list of
    actions with a cursor on the last applied one. The undo and redo
    callbacks are code this model cannot see; whether one of them throws is
    an input. */
module UndoRedo {
  import opened Common

  /** An entry of the history. Its id is `action_` followed by `seqNo`. */
  datatype Action = Action(seqNo: nat, kind: string, description: string, timestamp: int)

  function ActionId(a: Action): string {
    "action_" + NatToString(a.seqNo)
  }

  /** `maxHistorySize` when the caller gives none. */
  const DEFAULT_MAX_HISTORY: nat := 50

  /** The hook's `history` state and its `currentIndex` cursor. */
  datatype History = History(actions: seq<Action>, cursor: int)

  /** The invariant: the cursor is -1 or the position of an action, the
      history holds at most `max` actions, and their sequence numbers grow. */
  predicate WellFormed(h: History, max: nat) {
    && -1 <= h.cursor < |h.actions| <= max
    && forall i, j :: 0 <= i < j < |h.actions| ==> h.actions[i].seqNo < h.actions[j].seqNo
  }

  /** The empty start, and the state after `clearHistory`. */
  function Empty(): (h: History)
    ensures forall max: nat :: WellFormed(h, max)
  {
    History([], -1)
  }

  predicate CanUndo(h: History) {
    h.cursor >= 0
  }

  predicate CanRedo(h: History) {
    h.cursor < |h.actions| - 1
  }

  /** `historySize`. */
  function HistorySize(h: History): int {
    h.cursor + 1
  }

  /** The `history` the hook exposes: the actions up to the cursor. */
  function Applied(h: History): (r: seq<Action>)
    requires -1 <= h.cursor < |h.actions|
    ensures |r| == HistorySize(h)
    ensures r == h.actions[..h.cursor + 1]
  {
    h.actions[..h.cursor + 1]
  }

  /** `lastAction`: the action an undo would revert. */
  function LastAction(h: History): (r: Option<Action>)
    requires -1 <= h.cursor < |h.actions|
    ensures r.Some? <==> CanUndo(h)
    ensures r.Some? ==> r.value == h.actions[h.cursor] && r.value == Applied(h)[HistorySize(h) - 1]
  {
    if h.cursor >= 0 then Some(h.actions[h.cursor]) else None
  }

  /** `nextAction`: the action a redo would apply again. */
  function NextAction(h: History): (r: Option<Action>)
    requires -1 <= h.cursor < |h.actions|
    ensures r.Some? <==> CanRedo(h)
    ensures r.Some? ==> r.value == h.actions[h.cursor + 1]
  {
    if h.cursor < |h.actions| - 1 then Some(h.actions[h.cursor + 1]) else None
  }

  /** `addAction`: drop every action after the cursor, append the new one,
      drop the oldest when that exceeds `max`, and move the cursor up by one
      but not past `max - 1`. */
  function Add(h: History, a: Action, max: nat): History
    requires -1 <= h.cursor < |h.actions|
  {
    var kept := h.actions[..h.cursor + 1] + [a];
    var actions := if |kept| > max then kept[1..] else kept;
    History(actions, Min(h.cursor + 1, max - 1))
  }

  /** A successful `undo`: the cursor moves down by one. */
  function Undone(h: History): History {
    if CanUndo(h) then h.(cursor := h.cursor - 1) else h
  }

  /** A successful `redo`: the cursor moves up by one. */
  function Redone(h: History): History {
    if CanRedo(h) then h.(cursor := h.cursor + 1) else h
  }

  /** Adding keeps the invariant when the new action's number is above
      every stored one. The cursor then sits on the new action, nothing is
      left to redo, and the actions before it are the ones that were
      applied, less the oldest when the history was full. */
  lemma AddSpec(h: History, a: Action, max: nat)
    requires WellFormed(h, max)
    requires forall i :: 0 <= i < |h.actions| ==> h.actions[i].seqNo < a.seqNo
    ensures var h' := Add(h, a, max);
      && WellFormed(h', max)
      && h'.cursor == Min(h.cursor + 1, max - 1)
      && !CanRedo(h')
      && (max > 0 ==> h'.actions[h'.cursor] == a && LastAction(h') == Some(a))
      && (HistorySize(h) < max ==> Applied(h') == Applied(h) + [a])
      && (0 < HistorySize(h) == max ==> Applied(h') == Applied(h)[1..] + [a])
  {
    var kept := h.actions[..h.cursor + 1] + [a];
    forall i, j | 0 <= i < j < |kept| ensures kept[i].seqNo < kept[j].seqNo {
      if j == |kept| - 1 {
        assert kept[i] == h.actions[i];
      } else {
        assert kept[i] == h.actions[i] && kept[j] == h.actions[j];
      }
    }
  }

  /** Adding to a full history keeps its size at `max`. */
  lemma AddBounded(h: History, a: Action, max: nat)
    requires WellFormed(h, max) && HistorySize(h) == max
    ensures |Add(h, a, max).actions| == max
  {
  }

  /** Undo and redo leave the actions alone, keep the invariant and undo
      each other. */
  lemma UndoRedoInverse(h: History, max: nat)
    requires WellFormed(h, max)
    ensures WellFormed(Undone(h), max) && WellFormed(Redone(h), max)
    ensures Undone(h).actions == h.actions && Redone(h).actions == h.actions
    ensures CanUndo(h) ==> CanRedo(Undone(h)) && Redone(Undone(h)) == h
    ensures CanRedo(h) ==> CanUndo(Redone(h)) && Undone(Redone(h)) == h
    ensures !CanUndo(h) ==> Undone(h) == h
    ensures !CanRedo(h) ==> Redone(h) == h
  {
  }

  /** Undoing `k` times from a cursor at `c` lands at `c - k`, as long as
      `k` is at most the number of applied actions. */
  function UndoTimes(h: History, k: nat): History {
    if k == 0 then h else Undone(UndoTimes(h, k - 1))
  }

  lemma {:induction false} UndoTimesSpec(h: History, k: nat, max: nat)
    requires WellFormed(h, max) && k <= HistorySize(h)
    ensures WellFormed(UndoTimes(h, k), max)
    ensures UndoTimes(h, k) == h.(cursor := h.cursor - k)
  {
    if k > 0 {
      UndoTimesSpec(h, k - 1, max);
    }
  }

  /** Keys that `useUndoRedoKeyboard` acts on. */
  datatype Command = NoCommand | UndoCommand | RedoCommand

  /** The key handler's choice: nothing inside input fields; Ctrl/Cmd+Z
      without Shift undoes; Ctrl/Cmd+Y or Ctrl/Cmd+Shift+Z redoes. */
  function KeyCommand(key: string, ctrl: bool, meta: bool, shift: bool, inTextField: bool): (r: Command)
    ensures inTextField || !(ctrl || meta) ==> r == NoCommand
    ensures !inTextField && (ctrl || meta) ==>
      && (r == UndoCommand <==> key == "z" && !shift)
      && (r == RedoCommand <==> key == "y" || (key == "z" && shift))
  {
    if inTextField then NoCommand
    else
      var isCtrlOrCmd := ctrl || meta;
      if isCtrlOrCmd && key == "z" && !shift then UndoCommand
      else if isCtrlOrCmd && (key == "y" || (key == "z" && shift)) then RedoCommand
      else NoCommand
  }

  class UndoRedoHistory {
    var history: seq<Action>
    var currentIndex: int
    var actionCounter: nat
    const maxHistorySize: nat

    ghost predicate Valid()
      reads this
    {
      WellFormed(History(history, currentIndex), maxHistorySize) &&
      forall i :: 0 <= i < |history| ==> history[i].seqNo <= actionCounter
    }

    function State(): History
      reads this
    {
      History(history, currentIndex)
    }

    /** The hook's start: an empty history; the size bound defaults to 50. */
    constructor (maxSize: Option<nat>)
      ensures Valid() && State() == Empty() && actionCounter == 0
      ensures maxHistorySize == if maxSize.Some? then maxSize.value else DEFAULT_MAX_HISTORY
    {
      history := [];
      currentIndex := -1;
      actionCounter := 0;
      maxHistorySize := if maxSize.Some? then maxSize.value else DEFAULT_MAX_HISTORY;
    }

    /** `addAction`: a fresh action numbered by the incremented counter. */
    method AddAction(kind: string, description: string, now: int) returns (action: Action)
      requires Valid()
      modifies this
      ensures Valid()
      ensures actionCounter == old(actionCounter) + 1
      ensures action == Action(actionCounter, kind, description, now)
      ensures State() == Add(old(State()), action, maxHistorySize)
    {
      actionCounter := actionCounter + 1;
      action := Action(actionCounter, kind, description, now);
      AddSpec(State(), action, maxHistorySize);
      var newHistory := history[..currentIndex + 1];
      newHistory := newHistory + [action];
      if |newHistory| > maxHistorySize {
        newHistory := newHistory[1..];
      }
      history := newHistory;
      currentIndex := Min(currentIndex + 1, maxHistorySize - 1);
    }

    /** `undo`: when there is an applied action, its undo callback runs;
        the cursor moves down only if the callback did not throw. Returns
        the action whose callback ran. */
    method Undo(callbackSucceeds: bool) returns (invoked: Option<Action>)
      requires Valid()
      modifies this
      ensures Valid()
      ensures invoked == LastAction(old(State()))
      ensures State() == if callbackSucceeds then Undone(old(State())) else old(State())
      ensures actionCounter == old(actionCounter)
    {
      UndoRedoInverse(State(), maxHistorySize);
      invoked := None;
      if currentIndex >= 0 {
        invoked := Some(history[currentIndex]);
        if callbackSucceeds {
          currentIndex := currentIndex - 1;
        }
      }
    }

    /** `redo`: when there is an undone action, its redo callback runs; the
        cursor moves up only if the callback did not throw. */
    method Redo(callbackSucceeds: bool) returns (invoked: Option<Action>)
      requires Valid()
      modifies this
      ensures Valid()
      ensures invoked == NextAction(old(State()))
      ensures State() == if callbackSucceeds then Redone(old(State())) else old(State())
      ensures actionCounter == old(actionCounter)
    {
      UndoRedoInverse(State(), maxHistorySize);
      invoked := None;
      if currentIndex < |history| - 1 {
        invoked := Some(history[currentIndex + 1]);
        if callbackSucceeds {
          currentIndex := currentIndex + 1;
        }
      }
    }

    /** `clearHistory`: back to the empty start; the action counter goes on. */
    method ClearHistory()
      requires Valid()
      modifies this
      ensures Valid() && State() == Empty() && actionCounter == old(actionCounter)
    {
      history := [];
      currentIndex := -1;
    }

    /** `useUndoRedoKeyboard`'s handler: the chosen command runs when its
        `canUndo`/`canRedo` flag is set. */
    method HandleKeyDown(key: string, ctrl: bool, meta: bool, shift: bool, inTextField: bool, callbackSucceeds: bool)
      returns (invoked: Option<Action>)
      requires Valid()
      modifies this
      ensures Valid()
      ensures KeyCommand(key, ctrl, meta, shift, inTextField) == NoCommand ==> invoked.None? && State() == old(State())
      ensures KeyCommand(key, ctrl, meta, shift, inTextField) == UndoCommand ==>
                invoked == LastAction(old(State())) &&
                State() == if callbackSucceeds then Undone(old(State())) else old(State())
      ensures KeyCommand(key, ctrl, meta, shift, inTextField) == RedoCommand ==>
                invoked == NextAction(old(State())) &&
                State() == if callbackSucceeds then Redone(old(State())) else old(State())
    {
      invoked := None;
      match KeyCommand(key, ctrl, meta, shift, inTextField) {
        case NoCommand =>
        case UndoCommand =>
          if currentIndex >= 0 {
            invoked := Undo(callbackSucceeds);
          }
        case RedoCommand =>
          if currentIndex < |history| - 1 {
            invoked := Redo(callbackSucceeds);
          }
      }
    }
  }
}
