# Storytime, modelled in Dafny

Storytime is a VS Code extension that pairs two documents: a story log (`*.txt`)
with markers of the form `at line N`, and the story itself (`*.story`). Each marker
in the log gets a "Go to story line" code lens and a highlight. Activating the lens
scrolls the story editor to line N and puts the cursor at the start of that line. A
content provider can also stream a file into a virtual document chunk by chunk,
firing a change event after each chunk.

This project models the extension's deterministic core as pure Dafny functions over
immutable values, and proves what that core promises:

- `basics.dfy` (module `Basics`): `Option`, `endsWith`, the `.txt` and `.story`
  extensions, and the ASCII character classes of the marker regex (`\w`, `\d`,
  case folding).
- `marker_scanner.dfy` (module `MarkerScanner`): the regex `/\bat line (\d+)\b/gi`,
  spelled out by hand. `IsMarker` is the declarative reading of the pattern.
  `MatchAt`, `FindFrom` and `ScanFrom` are the `exec` loop. `Scan` is proved to
  report exactly the markers, each once, in order, with the value of its digits.
- `code_lens.dfy` (module `CodeLens`): `provideCodeLenses`. It covers the `.txt`
  gate, the lens list (range, title, command, line argument, editor argument) and
  the parallel highlight list.
- `story_cache.dfy` (module `StoryCache`): the streaming content cache. It has the
  reset at the start of a load, the chunk append followed by one change event, the
  read (`""` for a key that is absent), and `clear`. The ingestion loop is a method
  over the delivered chunks. Every fired event is logged with the key it carries and
  the content a reader would see at that moment.
- `navigation.dfy` (module `Navigation`): the `storytime.goToStoryLine` command. It
  covers the null-editor guard, the 1-based to 0-based conversion, and the empty
  selection at the start of the line.
- `open_files.dfy` (module `OpenFiles`): the decisions of `storytime.openfiles`.
  These are the folder filter with its take-the-first-two rule, the exactly-two
  check, the choice of the story editor, and the reset of the opened-files set.
  The dialog and directory answers are inputs.

Details of the pattern, as the code has it:

- `\b` uses the non-unicode word characters `[A-Za-z0-9_]`.
- With the non-unicode `i` flag, the letters of `at line` match only their two ASCII
  cases. No non-ASCII character folds onto an ASCII one in that mode.
- Each of the two separators is one literal space.
- `\d` is ASCII `0-9`. Greedy `\d+` followed by `\b` means the digit run is maximal
  and is followed by a non-word character or the end of the text.
- No character after a marker's `a` folds to `a`, so markers never overlap. The
  leftmost-first `exec` loop therefore reports every position where the pattern
  matches (`Scan`, `NoMarkerInside`).
- The loop runs until `exec` returns null, which resets `lastIndex` to 0. So the
  shared `/g` regex starts every call at offset 0.

Three points where the code's behaviour is easy to misread:

- Each separator in `at line N` is exactly one space character.
- Every `provideCodeLenses` call scans the whole document, however long it is.
- `storytime.goToStoryLine` does not check the line number. For a number outside
  the document, `lineAt` throws, which ends the command before it reveals or
  selects anything. The model gives this outcome as `LineOutOfRange`, with nothing
  changed.

Reading a key (`provideTextDocumentContent`) is the function `StoryCache.Provide`:
the cached text, or `""` for a key that holds nothing. Reading never changes the
cache, because the cache is a value. What a read returns after each operation is
stated in the contracts of those operations and in `StoryCache.ReadAbsentKey`.

## Model

| member | source | states |
|---|---|---|
| MarkerScanner.Scan | src/codeLensProvider.ts:5-34 | The reported occurrences are exactly the matches of the pattern. Each is a marker whose value is its digits read in base 10. Every marker is reported. They come in increasing order without overlap, so no marker appears twice. |
| MarkerScanner.ScanFrom | src/codeLensProvider.ts:19-34 | The exec loop from a given `lastIndex` reports only markers at or after it, in increasing non-overlapping order, and every marker at or after it. |
| MarkerScanner.FindFrom | src/codeLensProvider.ts:20 | One `exec` from `lastIndex` returns the leftmost marker at or after it, with no marker starting in between. It returns null exactly when no marker starts at or after `lastIndex`. |
| MarkerScanner.MatchAt | src/codeLensProvider.ts:5 | Trying the pattern at one position succeeds exactly when a marker starts there. On success it returns that marker's end and the value of its digits. |
| MarkerScanner.DigitRunEnd | src/codeLensProvider.ts:5 | Greedy `\d+`: every character before the returned end is a digit, and the character at it (if any) is not. |
| MarkerScanner.MarkerEndUnique | src/codeLensProvider.ts:5 | A start position fixes the marker's end, because the digit run before the closing `\b` is maximal. |
| MarkerScanner.NoMarkerInside | src/codeLensProvider.ts:5 | No marker starts strictly inside another, so resuming at the end of a match loses nothing. |
| MarkerScanner.ParseDecimalOfDecimal | src/codeLensProvider.ts:29 | `parseInt(_, 10)` inverts decimal printing: the digits of N parse back to N. |
| MarkerScanner.SingleMarkerRoundTrip | src/codeLensProvider.ts:20-29 | The text `at line N` holds exactly one marker, which spans the whole text and carries N. |
| CodeLens.ProvideCodeLenses | src/codeLensProvider.ts:9-42 | A non-`.txt` document gets no lens, and the highlights are left alone. For a `.txt` document, every marker gets one lens in document order. Each lens's line argument is the marker's number and its editor argument is the provider's story editor. When an editor is active, it receives highlights with the same ranges in the same order. |
| CodeLens.NoMarkersNoLenses | src/codeLensProvider.ts:15-41 | A document with no marker (the empty one, say) gets no lens. As a log file, it gets an empty highlight list. |
| StoryCache.StartLoad | src/virtualDocumentProvider.ts:17 | Starting a load makes the key read as "" before any chunk arrives. No event is fired and other keys are untouched. |
| StoryCache.AppendChunk | src/virtualDocumentProvider.ts:23-30 | A chunk makes the key read as the old content followed by the chunk, so the old content is a prefix of the new. Exactly one event is fired, carrying the key, and a reader sees the appended content at that moment. Other keys are unchanged. |
| StoryCache.Clear | src/virtualDocumentProvider.ts:42-45 | Clearing removes the key, so a later read gives "". It fires exactly one event for that key and leaves every other key's content unchanged. |
| StoryCache.ReadAbsentKey | src/virtualDocumentProvider.ts:10-13 | A key that was never loaded, or was cleared, reads as "". A chunk arriving after a clear starts again from "", because the data handler reads the key with the same fallback. |
| StoryCache.LoadFromFile | src/virtualDocumentProvider.ts:15-38 | After the stream ends, the key reads as the in-order concatenation of the delivered chunks. After a read error it reads as the chunks delivered before the error. The events fired are exactly one per chunk, for the key. Other keys are unchanged. The promise resolves exactly when the stream ended without error. |
| StoryCache.LoadEvents | src/virtualDocumentProvider.ts:26-30 | The load fires one event per chunk, in order. The i-th event sees exactly the first i+1 chunks joined. |
| StoryCache.ConcatPrefix | src/virtualDocumentProvider.ts:26-27 | The content after i chunks is a prefix of the content after any later chunk. |
| StoryCache.SplitChunks | src/virtualDocumentProvider.ts:21 | A source read with a given `highWaterMark` arrives as non-empty chunks of at most that size. All but the last are full, and joined they give the source back. |
| StoryCache.ChunkCount | src/virtualDocumentProvider.ts:15-21 | A source of length L read with chunk size C arrives in ceil(L / C) chunks. |
| StoryCache.LoadWholeFile | src/virtualDocumentProvider.ts:15-38 | Streaming a whole file of length L with chunk size C and no read error leaves the key holding the file. It fires ceil(L / C) events, all for the key, each showing a prefix of the file and the last one showing all of it. Earlier events are kept, other keys are unchanged, and the promise resolves. |
| Navigation.GoToStoryLine | src/extension.ts:94-100 | With no editor, nothing happens. Line number N outside `1..lineCount` is the `lineAt` failure, with no reveal and no selection. Otherwise line index N-1 is revealed and the selection becomes empty at column 0 of that line, so reading it back gives line number N. |
| Navigation.LandingIgnoresPriorSelection | src/extension.ts:97-99 | Where navigation lands depends only on the line number, not on the editor's previous selection. |
| OpenFiles.PickFromFolder | src/extension.ts:47-52 | Folder mode fails with the not-enough-files error exactly when fewer than two entries are plain files named `*.txt` or `*.story`. Otherwise it yields the first two such entries in listing order, joined to the folder. |
| OpenFiles.SymlinkedFileNotKept | src/extension.ts:47 | The filter compares the entry type with `===`, so a symbolic link to a story file (`File` combined with `SymbolicLink`) is not kept. |
| OpenFiles.FirstTwoKept | src/extension.ts:47-52 | The first two entries the filter keeps are two story files of the listing, with no other story file before the second one. |
| OpenFiles.FewerKept | src/extension.ts:47-51 | If the filter keeps fewer than two entries, no two distinct entries of the listing are story files. |
| OpenFiles.CheckTwoFiles | src/extension.ts:63-66 | A selection passes exactly when it is present and holds exactly two files. Anything else is the exactly-two error. |
| OpenFiles.StoryEditorOf | src/extension.ts:78 | This is `find` over `[editor1, editor2]`. The chosen editor's file name ends in `.story` and no editor before it does. None is chosen only when neither file name ends in `.story`. |
| OpenFiles.StoryEditorByName | src/extension.ts:78 | In folder mode the story editor is decided by the two entry names alone, whatever the folder path. |
| OpenFiles.OpenFilesCommand | src/extension.ts:23-89 | A dismissed quick pick cancels silently. Every early exit leaves the session unchanged. In two-files mode the files open exactly when the dialog returned exactly two. In folder mode it stops with the right error, ends with no message when `readDirectory` rejects (for a picked file or an unreadable folder, since the folder dialog does not set `canSelectFiles`), or opens the first two story files. After a successful open, the opened-files set holds exactly the two files and the story editor is chosen by suffix. |

## Left out

- MarkerScanner.Scan: offsets count Unicode scalar values (Dafny `char`s), while `match.index` and `match[0].length` count UTF-16 code units. After a character outside the Basic Multilingual Plane, the reported start and end are smaller than the source's by one per such character. For `"\U{1F600} at line 3"` the model reports 2..11 and the source reports 3..12. Which markers are found and the values they carry are the same. A lone surrogate cannot be represented in a Dafny string.
- `document.positionAt`: the offset-to-(line, character) conversion belongs to the editor, so lens and highlight ranges stay character offsets.
- `parseInt` precision: the value of a long digit string is an unbounded natural number here, not a rounded double.
- `createReadStream`, `pause`/`resume`, the `setTimeout` delay between chunks, and the Promise machinery: these are asynchronous I/O and timing. The stream is a finite sequence of chunks, and a read error ends it early.
- StoryCache.LoadFromFile: describes a load with no other call on the provider between its chunks. Another load or a `clear` on the same key can interleave with it. Such an interleaving is only covered step by step, by `AppendChunk` and `Clear`, since both read whatever the key holds at that moment.
- StoryCache.SplitChunks: counts characters, not bytes. The byte-sized `highWaterMark` and the UTF-8 decoder's carry-over of split multi-byte sequences are not modelled.
- Window and workspace calls are the editor's, not logic: the quick pick, the open dialogs, `readDirectory`, `openTextDocument`, `showTextDocument`, `revealRange`, `setDecorations` and `registerCodeLensProvider`. Their answers are inputs (`Answers`); a rejected `readDirectory` is a missing listing. Their effects are the returned values: the reveal log, the selection, and the highlight list.
- OpenFiles.OpenFilesCommand: a file's URI is represented by its path. `Uri.joinPath` is `folder + "/" + name`, without path normalisation. Failures of `openTextDocument` or `showTextDocument` are not modelled.
- The provider registered on every successful run of `storytime.openfiles` is a side effect, not logic.
- `src/decorations.ts` only builds a theme style. The `worker_threads` import, the unused `highlightedRanges` and the activation log message are not logic.
