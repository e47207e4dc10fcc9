/**
 The decisions of the `storytime.openfiles` command: how the two files are
 chosen (two picked directly, or the first two story files of a picked folder),
 the check that there are exactly two, which of the two opened editors is the
 story editor, and the reset of the set of opened files.

 Every dialog and directory listing is an answer recorded in `Answers`; opening
 and showing documents, and registering the lens provider, are left to the
 editor. A file's URI is modelled by its path.
 */
module OpenFiles {
  import opened Basics

  /** `vscode.FileType` bit flags; a symbolic link to a file is `File | SymbolicLink`. */
  const FileTypeFile: nat := 1
  const FileTypeSymbolicLink: nat := 64

  /** One `[name, type]` pair of `workspace.fs.readDirectory`. */
  datatype DirEntry = DirEntry(name: string, fileType: nat)

  /** The two answers of the first quick pick. */
  datatype Mode = SelectTwoFiles | SelectFolder

  /** The editor column a document is shown in: the first file in One, the second in Two. */
  datatype Column = One | Two

  /** The error messages that end the command. */
  datatype OpenError = NoFolderSelected | NotEnoughStoryFiles | NotExactlyTwoFiles

  /**
   What the user and the file system answer, in the order the command asks:
   the quick pick (None when dismissed), the folder dialog, the folder's listing
   (None when `readDirectory` rejects, as it does for a picked file or an
   unreadable folder), and the files dialog. Only the answers the chosen path
   asks for are consulted.
   */
  datatype Answers = Answers(
    choice: Option<Mode>,
    folderPick: Option<seq<string>>,
    listing: Option<seq<DirEntry>>,
    filesPick: Option<seq<string>>)

  /** The extension's module-level state the command writes. */
  datatype Session = Session(storyEditor: Option<Column>, openedFiles: set<string>)

  /**
   How the command ends: dismissed quick pick, an error message, the unhandled
   rejection of a failed `readDirectory` (no message), or the two files opened.
   */
  datatype Outcome = Cancelled | Failed(error: OpenError) | Aborted | Opened(first: string, second: string)

  /** The session after one run of the command, and how the run ended. */
  datatype Run = Run(session: Session, outcome: Outcome)

  /** Either the list of files to open, or the error that ends the command. */
  datatype FileChoice = Chosen(files: seq<string>) | Refused(error: OpenError)

  /** The folder filter: a plain file (exactly `FileType.File`) named `*.txt` or `*.story`. */
  predicate IsStoryFile(e: DirEntry) {
    e.fileType == FileTypeFile && (EndsWith(e.name, LogSuffix) || EndsWith(e.name, StorySuffix))
  }

  /** `allFiles.filter(...)`: the story files of a listing, in listing order. */
  function StoryFiles(entries: seq<DirEntry>): seq<DirEntry> {
    if |entries| == 0 then []
    else if IsStoryFile(entries[0]) then [entries[0]] + StoryFiles(entries[1..])
    else StoryFiles(entries[1..])
  }

  /**
   The first two story files of a listing: a story file at index `i`, one at
   index `j > i`, and no other story file before `j`.
   */
  ghost predicate FirstTwo(entries: seq<DirEntry>, a: DirEntry, b: DirEntry) {
    exists i, j :: FirstTwoAt(entries, a, b, i, j)
  }

  /** `FirstTwo` with its two indices named. */
  ghost predicate FirstTwoAt(entries: seq<DirEntry>, a: DirEntry, b: DirEntry, i: int, j: int) {
    0 <= i < j < |entries| && entries[i] == a && entries[j] == b &&
    IsStoryFile(entries[i]) && IsStoryFile(entries[j]) &&
    forall k :: 0 <= k < j && k != i ==> !IsStoryFile(entries[k])
  }

  /** Fewer than two story files: no two distinct indices both hold one. */
  ghost predicate FewerThanTwo(entries: seq<DirEntry>) {
    forall i, j :: 0 <= i < j < |entries| ==> !(IsStoryFile(entries[i]) && IsStoryFile(entries[j]))
  }

  /** An empty filter result means no story file at all. */
  lemma {:induction false} NoneKept(entries: seq<DirEntry>)
    requires |StoryFiles(entries)| == 0
    ensures forall k :: 0 <= k < |entries| ==> !IsStoryFile(entries[k])
    decreases |entries|
  {
    if |entries| > 0 {
      NoneKept(entries[1..]);
      forall k | 0 < k < |entries|
        ensures !IsStoryFile(entries[k])
      {
        assert entries[k] == entries[1..][k - 1];
      }
    }
  }

  /** The first story file kept is the first story file of the listing. */
  lemma {:induction false} FirstKept(entries: seq<DirEntry>)
    requires |StoryFiles(entries)| >= 1
    ensures exists i :: 0 <= i < |entries| && entries[i] == StoryFiles(entries)[0] && IsStoryFile(entries[i]) &&
              forall k :: 0 <= k < i ==> !IsStoryFile(entries[k])
    decreases |entries|
  {
    if !IsStoryFile(entries[0]) {
      var tail := entries[1..];
      FirstKept(tail);
      var i :| 0 <= i < |tail| && tail[i] == StoryFiles(tail)[0] && IsStoryFile(tail[i]) &&
               forall k :: 0 <= k < i ==> !IsStoryFile(tail[k]);
      assert entries[i + 1] == tail[i];
      forall k | 0 < k < i + 1
        ensures !IsStoryFile(entries[k])
      {
        assert entries[k] == tail[k - 1];
      }
    } else {
      assert entries[0] == StoryFiles(entries)[0];
    }
  }

  /** A filter result of fewer than two means fewer than two story files in the listing. */
  lemma {:induction false} FewerKept(entries: seq<DirEntry>)
    requires |StoryFiles(entries)| < 2
    ensures FewerThanTwo(entries)
    decreases |entries|
  {
    if |entries| > 0 {
      var tail := entries[1..];
      if IsStoryFile(entries[0]) {
        NoneKept(tail);
      } else {
        FewerKept(tail);
      }
      forall i, j | 0 <= i < j < |entries|
        ensures !(IsStoryFile(entries[i]) && IsStoryFile(entries[j]))
      {
        assert entries[j] == tail[j - 1];
        if i > 0 {
          assert entries[i] == tail[i - 1];
        }
      }
    }
  }

  /** The first two story files kept are the first two story files of the listing. */
  lemma {:induction false} FirstTwoKept(entries: seq<DirEntry>)
    requires |StoryFiles(entries)| >= 2
    ensures FirstTwo(entries, StoryFiles(entries)[0], StoryFiles(entries)[1])
    decreases |entries|
  {
    var tail := entries[1..];
    var q := StoryFiles(entries);
    if IsStoryFile(entries[0]) {
      assert q == [entries[0]] + StoryFiles(tail);
      FirstKept(tail);
      var j :| 0 <= j < |tail| && tail[j] == StoryFiles(tail)[0] && IsStoryFile(tail[j]) &&
               forall k :: 0 <= k < j ==> !IsStoryFile(tail[k]);
      assert entries[j + 1] == q[1];
      forall k | 0 < k < j + 1
        ensures !IsStoryFile(entries[k])
      {
        assert entries[k] == tail[k - 1];
      }
      assert FirstTwoAt(entries, q[0], q[1], 0, j + 1);
    } else {
      assert q == StoryFiles(tail);
      FirstTwoKept(tail);
      var i, j :| FirstTwoAt(tail, q[0], q[1], i, j);
      forall k | 0 < k < j + 1 && k != i + 1
        ensures !IsStoryFile(entries[k])
      {
        assert entries[k] == tail[k - 1];
      }
      assert FirstTwoAt(entries, q[0], q[1], i + 1, j + 1);
    }
  }

  /** The folder filter compares the type with `===`: a symbolic link to a story file is not kept. */
  lemma SymlinkedFileNotKept(name: string)
    ensures !IsStoryFile(DirEntry(name, FileTypeFile + FileTypeSymbolicLink))
  {
  }

  /** `Uri.joinPath(folder, name)` for a folder path without a trailing separator. */
  function JoinPath(folder: string, name: string): string {
    folder + "/" + name
  }

  /**
   Folder mode after the folder dialog: keep the story files of the listing;
   with fewer than two, fail; otherwise the first two, joined to the folder.
   */
  function PickFromFolder(folder: string, entries: seq<DirEntry>): (r: FileChoice)
    ensures r.Refused? <==> FewerThanTwo(entries)
    ensures r.Refused? ==> r.error == NotEnoughStoryFiles
    ensures r.Chosen? ==>
              exists a, b :: FirstTwo(entries, a, b) &&
                r.files == [JoinPath(folder, a.name), JoinPath(folder, b.name)]
  {
    var story := StoryFiles(entries);
    if |story| < 2 then
      FewerKept(entries);
      Refused(NotEnoughStoryFiles)
    else
      FirstTwoKept(entries);
      FirstTwoNotFewer(entries, story[0], story[1]);
      Chosen([JoinPath(folder, story[0].name), JoinPath(folder, story[1].name)])
  }

  /** Two story files at distinct indices are not fewer than two. */
  lemma FirstTwoNotFewer(entries: seq<DirEntry>, a: DirEntry, b: DirEntry)
    requires FirstTwo(entries, a, b)
    ensures !FewerThanTwo(entries)
  {
    var i, j :| FirstTwoAt(entries, a, b, i, j);
    assert IsStoryFile(entries[i]) && IsStoryFile(entries[j]);
  }

  /** `if (!files || files.length !== 2)`: anything but exactly two files is an error. */
  function CheckTwoFiles(files: Option<seq<string>>): (r: FileChoice)
    ensures r.Chosen? <==> files.Some? && |files.value| == 2
    ensures r.Chosen? ==> r.files == files.value
    ensures r.Refused? ==> r.error == NotExactlyTwoFiles
  {
    if files.None? || |files.value| != 2 then Refused(NotExactlyTwoFiles) else Chosen(files.value)
  }

  /** The position of a column's editor in `[editor1, editor2]`. */
  function ColumnIndex(c: Column): nat {
    match c
    case One => 0
    case Two => 1
  }

  /**
   `[editor1, editor2].find(e => e.document.fileName.endsWith('.story')) || null`:
   the column of the first of the two files whose name ends in `.story`.
   */
  function StoryEditorOf(first: string, second: string): (r: Option<Column>)
    // `find` semantics: the chosen editor matches and none before it does ...
    ensures r.Some? ==>
              var names := [first, second];
              EndsWith(names[ColumnIndex(r.value)], StorySuffix) &&
              forall k :: 0 <= k < ColumnIndex(r.value) ==> !EndsWith(names[k], StorySuffix)
    // ... and `null` only when no editor matches
    ensures r.None? ==> forall name :: name in [first, second] ==> !EndsWith(name, StorySuffix)
  {
    if EndsWith(first, StorySuffix) then Some(One)
    else if EndsWith(second, StorySuffix) then Some(Two)
    else None
  }

  /**
   The files the chosen path yields, passed through the exactly-two check both
   paths share; None when `readDirectory` rejects.
   */
  function ChooseFiles(a: Answers): Option<FileChoice>
    requires a.choice.Some?
  {
    match a.choice.value
    case SelectFolder =>
      if a.folderPick.None? || |a.folderPick.value| == 0 then Some(Refused(NoFolderSelected))
      else if a.listing.None? then None
      else
        var picked := PickFromFolder(a.folderPick.value[0], a.listing.value);
        Some(if picked.Refused? then picked else CheckTwoFiles(Some(picked.files)))
    case SelectTwoFiles =>
      Some(CheckTwoFiles(a.filesPick))
  }

  /**
   The whole command on a session: every path that stops early leaves the
   session as it was; a successful one opens the two files, records the story
   editor, and makes the opened-files set exactly the two files.
   */
  function OpenFilesCommand(s: Session, a: Answers): (r: Run)
    ensures a.choice.None? ==> r == Run(s, Cancelled)
    ensures !r.outcome.Opened? ==> r.session == s
    ensures r.outcome.Opened? ==>
              && r.session.openedFiles == {r.outcome.first, r.outcome.second}
              && r.session.storyEditor == StoryEditorOf(r.outcome.first, r.outcome.second)
    // the files dialog: dismissed, or not exactly two files, is an error and nothing opens
    ensures a.choice == Some(SelectTwoFiles) ==>
              (r.outcome.Opened? <==> a.filesPick.Some? && |a.filesPick.value| == 2) &&
              (r.outcome.Opened? ==> [r.outcome.first, r.outcome.second] == a.filesPick.value) &&
              (!r.outcome.Opened? ==> r.outcome == Failed(NotExactlyTwoFiles))
    // the folder dialog: no folder is an error, a failed listing aborts, fewer than two story files is an error
    ensures a.choice == Some(SelectFolder) ==>
              if a.folderPick.None? || |a.folderPick.value| == 0 then r.outcome == Failed(NoFolderSelected)
              else if a.listing.None? then r.outcome == Aborted
              else if FewerThanTwo(a.listing.value) then r.outcome == Failed(NotEnoughStoryFiles)
              else r.outcome.Opened? &&
                   exists x, y :: FirstTwo(a.listing.value, x, y) &&
                     r.outcome.first == JoinPath(a.folderPick.value[0], x.name) &&
                     r.outcome.second == JoinPath(a.folderPick.value[0], y.name)
  {
    if a.choice.None? then Run(s, Cancelled)
    else
      match ChooseFiles(a)
      case None => Run(s, Aborted)
      case Some(Refused(e)) => Run(s, Failed(e))
      case Some(Chosen(files)) =>
        var first := files[0];
        var second := files[1];
        Run(Session(StoryEditorOf(first, second), {first, second}), Opened(first, second))
  }

  /** In folder mode the story editor is decided by the entry names alone: the folder path never matters. */
  lemma StoryEditorByName(folder: string, first: string, second: string)
    ensures StoryEditorOf(JoinPath(folder, first), JoinPath(folder, second)) == StoryEditorOf(first, second)
  {
    assert '/' !in StorySuffix;
    JoinedPathEndsWith(folder, first, StorySuffix);
    JoinedPathEndsWith(folder, second, StorySuffix);
  }
}
