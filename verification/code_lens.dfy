/**
 The code-lens provider: for a `.txt` log document, one "Go to story line" lens
 per marker the scanner finds, and a parallel list of highlight ranges pushed to
 the active editor.

 Ranges stay character offsets; the conversion to (line, character) positions
 belongs to the editor. The story editor handed to the provider at construction
 is the type parameter `E`, opaque here.
 */
module CodeLens {
  import opened Basics
  import opened MarkerScanner

  /** A half-open character range `[start, end)` of the document. */
  datatype Range = Range(start: nat, end: nat)

  /** A lens: its range, its title and command, and the command's two arguments (line number, story editor). */
  datatype Lens<E> = Lens(range: Range, title: string, command: string, line: nat, editor: Option<E>)

  /**
   What one `provideCodeLenses` call produces: the lenses it returns and the
   highlight ranges it hands to the active editor, or `None` when it does not call
   `setDecorations` at all (the document is not a `.txt` file, or no editor is active).
   */
  datatype Publication<E> = Publication(lenses: seq<Lens<E>>, decorations: Option<seq<Range>>)

  const LensTitle: string := "Go to story line"
  const GoToCommand: string := "storytime.goToStoryLine"

  /** The lens a marker occurrence becomes. */
  function LensOf<E>(o: Occurrence, storyEditor: Option<E>): Lens<E> {
    Lens(Range(o.start, o.end), LensTitle, GoToCommand, o.value, storyEditor)
  }

  /**
   `provideCodeLenses(document)` for a document named `fileName` holding `text`,
   on a provider constructed with `storyEditor`; `hasActiveEditor` says whether
   `vscode.window.activeTextEditor` is set.
   */
  function ProvideCodeLenses<E>(fileName: string, text: string, storyEditor: Option<E>, hasActiveEditor: bool)
    : (r: Publication<E>)
    // only log files get lenses; for any other document the highlights are left alone
    ensures !EndsWith(fileName, LogSuffix) ==> r.lenses == [] && r.decorations == None
    ensures EndsWith(fileName, LogSuffix) ==> (r.decorations.Some? <==> hasActiveEditor)
    // each lens sits on a marker and carries its number and the story editor
    ensures forall i :: 0 <= i < |r.lenses| ==>
              IsMarker(text, r.lenses[i].range.start, r.lenses[i].range.end) &&
              r.lenses[i].line == ParseDecimal(Captured(text, r.lenses[i].range.start, r.lenses[i].range.end)) &&
              r.lenses[i].editor == storyEditor &&
              r.lenses[i].title == LensTitle && r.lenses[i].command == GoToCommand
    // in document order, never overlapping, so no marker is reported twice
    ensures forall i, j :: 0 <= i < j < |r.lenses| ==> r.lenses[i].range.end <= r.lenses[j].range.start
    // every marker of a log file gets its lens
    ensures EndsWith(fileName, LogSuffix) ==>
              forall s, e :: IsMarker(text, s, e) ==>
                exists i :: 0 <= i < |r.lenses| && r.lenses[i].range == Range(s, e)
    // the highlights are exactly the lenses' ranges, in the same order
    ensures r.decorations.Some? ==>
              |r.decorations.value| == |r.lenses| &&
              forall i :: 0 <= i < |r.lenses| ==> r.decorations.value[i] == r.lenses[i].range
  {
    if !EndsWith(fileName, LogSuffix) then
      Publication([], None)
    else
      var occs := Scan(text);
      var lenses := LensesOf(occs, storyEditor);
      CoversAllMarkers(text, occs, lenses, storyEditor);
      Publication(lenses, if hasActiveEditor then Some(RangesOf(lenses)) else None)
  }

  /** One lens per occurrence, in the scan's order (the `codeLenses.push` of each loop iteration). */
  function LensesOf<E>(occs: seq<Occurrence>, storyEditor: Option<E>): seq<Lens<E>>
  {
    seq(|occs|, i requires 0 <= i < |occs| => LensOf(occs[i], storyEditor))
  }

  /** The highlight list: one `{ range }` per lens, pushed in the same iteration as the lens. */
  function RangesOf<E>(lenses: seq<Lens<E>>): seq<Range>
  {
    seq(|lenses|, i requires 0 <= i < |lenses| => lenses[i].range)
  }

  /** Every marker found by the scan is the range of one of the lenses built from it. */
  lemma CoversAllMarkers<E>(text: string, occs: seq<Occurrence>, lenses: seq<Lens<E>>, storyEditor: Option<E>)
    requires occs == Scan(text)
    requires |lenses| == |occs| && forall i :: 0 <= i < |occs| ==> lenses[i] == LensOf(occs[i], storyEditor)
    ensures forall s, e :: IsMarker(text, s, e) ==>
              exists i :: 0 <= i < |lenses| && lenses[i].range == Range(s, e)
  {
    forall s, e | IsMarker(text, s, e)
      ensures exists i :: 0 <= i < |lenses| && lenses[i].range == Range(s, e)
    {
      var i :| 0 <= i < |occs| && occs[i].start == s && occs[i].end == e;
      assert lenses[i].range == Range(s, e);
    }
  }

  /** A log file that is empty, or holds no marker, gets no lens and an empty highlight list. */
  lemma NoMarkersNoLenses<E>(fileName: string, text: string, storyEditor: Option<E>)
    requires forall s, e :: !IsMarker(text, s, e)
    ensures ProvideCodeLenses(fileName, text, storyEditor, true).lenses == []
    ensures EndsWith(fileName, LogSuffix) ==> ProvideCodeLenses(fileName, text, storyEditor, true).decorations == Some([])
  {
  }
}
