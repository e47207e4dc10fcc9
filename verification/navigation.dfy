/**
 The `storytime.goToStoryLine` command a lens runs: given the 1-based line
 number a marker names and the story editor the lens carries, bring that line
 into view and put an empty selection at its start.

 The editor is reduced to what the command reads and changes: its document's
 line count, its selection, and the lines it has been asked to reveal.
 */
module Navigation {
  import opened Basics

  /** A zero-based (line, character) position. */
  datatype Position = Position(line: nat, character: nat)

  /** A selection; it is empty when anchor and active coincide. */
  datatype Selection = Selection(anchor: Position, active: Position)

  /** A text editor: its document's line count, its selection, and every line index revealed in it so far. */
  datatype View = View(lineCount: nat, selection: Selection, revealed: seq<nat>)

  /**
   How a call ends: nothing to do without an editor; `lineAt` throws for a line
   index outside `[0, lineCount)`, which ends the command before it reveals or
   selects anything; otherwise the editor after the reveal and the new selection.
   */
  datatype NavOutcome = MissingDestination | LineOutOfRange | Navigated(view: View)

  /** The 1-based line number a selection's active end is on. */
  function SelectedLineNumber(v: View): nat {
    v.selection.active.line + 1
  }

  /** The command handler `(lineNumber, editor) => ...`. */
  function GoToStoryLine(lineNumber: int, editor: Option<View>): (r: NavOutcome)
    ensures r.MissingDestination? <==> editor.None?
    ensures editor.Some? ==> (r.LineOutOfRange? <==> !(1 <= lineNumber <= editor.value.lineCount))
    ensures r.Navigated? ==>
              var v := r.view;
              && v.selection.anchor == v.selection.active
              && v.selection.active.character == 0
              && SelectedLineNumber(v) == lineNumber
              && v.revealed == editor.value.revealed + [lineNumber - 1]
              && v.lineCount == editor.value.lineCount
  {
    match editor
    case None => MissingDestination
    case Some(v) =>
      var index := lineNumber - 1;
      if !(0 <= index < v.lineCount) then
        LineOutOfRange
      else
        var lineStart := Position(index, 0);
        Navigated(v.(selection := Selection(lineStart, lineStart), revealed := v.revealed + [index]))
  }

  /**
   Where a navigation lands depends only on the line number: from any two
   editors over documents of the same length, the resulting selection is the same.
   */
  lemma LandingIgnoresPriorSelection(lineNumber: int, v1: View, v2: View)
    requires v1.lineCount == v2.lineCount
    ensures GoToStoryLine(lineNumber, Some(v1)).Navigated? <==> GoToStoryLine(lineNumber, Some(v2)).Navigated?
    ensures GoToStoryLine(lineNumber, Some(v1)).Navigated? ==>
              GoToStoryLine(lineNumber, Some(v1)).view.selection == GoToStoryLine(lineNumber, Some(v2)).view.selection
  {
  }
}
