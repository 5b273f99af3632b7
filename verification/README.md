# Ralph's core, verified

A Dafny model of the hard parts of Ralph's core crate, with proofs. The core has no I/O; these parts
of it are state machines, incremental algorithms, printers with their parsers, and bounded arithmetic.

- **Shell command formatter** (`Shell*.dfy` but for the two named below). A scanner with a nesting stack
  cuts a command into segments and stages, exactly at the operators outside every quote, nested command,
  group and redirection; a layout machine with a stack of open blocks prints them over several lines, each
  indented by the blocks open around it. Printing keeps the command, blanks inside its pieces included, line
  by line in a fence. What is laid out is exactly a forest of well-nested blocks whose keywords stand where
  they may: not behind `&&` or `||`, behind `&` only as a header, no header or `elif` before `&`, and a lone
  `do`, `then` or `else` as its segment's only stage. The flag offsets are counted in characters;
  `ShellByteScan.dfy` and `ShellByteLayout.dfy` run the code on byte offsets, with the subtractions and
  slices that may panic, and prove that it never panics and prints the same.
- **Streaming terminal sanitizer** (`Utf8.dfy`, `Sanitizer.dfy`, `SanitizerRuns.dfy`, `SanitizerItems.dfy`,
  `PreambleGate.dfy`). UTF-8 (section 4 of RFC 3629) decoded piece by piece, feeding an automaton for
  control sequences (section 5.4 of ECMA-48). Chunk borders do not matter, and the output is, item by item,
  what a grammar of escape sequences and control strings says.
- **Worker scheduler** (`Scheduler.dfy`, `SchedulerRuns.dfy`, `SchedulerEnds.dfy`, `SchedulerWaiting.dfy`).
  Two slots, deadlines, recovery after a restart: safety over every run, when and how each worker ends, no
  overtaking, bounded waiting.
- **Pixel code** (`KittyPixels.dfy`, `KittyAverages.dfy`, `KittyAnimation.dfy`, `KittyShown.dfy`). GIF frames
  on a flat canvas (section 23 of the GIF89a specification) show, byte by byte, what the last frame that
  decides a place left there; downscaling reads every pixel once and rounds the sum over each box.
- **Usage file and cost table** (`Usage.dfy`, `UsagePolls.dfy`, `Tokens.dfy`, `WorkerCosts.dfy`,
  `SessionCost.dfy`, `CostTable.dfy`, `CostTotals.dfy`). Tailing equals batch parsing; a turn's delta is
  what it added to the session's cost; the numbers of the table are the plain sums over the counted lines.
- **Output tail** (`WatchTail.dfy`), **supervision of workers** (`WorkerCheck.dfy`, `WorkerCheckRuns.dfy`,
  `WorkerCheckStates.dfy`), **shell words** (`ShellWords.dfy`, `ShellQuoting.dfy`), **chat cells**
  (`ChatCell.dfy`), **path normalisation** (`PathNorm.dfy`), **durations** (`Spans.dfy`).

Code that works by changing things step by step is a method or a class here, proved equal to a function
of its inputs or of the old state; the lemmas are about those functions. `Text.dfy` holds the string
functions of the Rust library the core uses.

Five laws do not hold of the code without a condition, and the condition is proved exact:

- Normalising a path keeps its meaning unless the path starts with a Windows prefix without a root and
  has, somewhere behind it, more `..` than names (`PathNorm.SamePlaceIff`, with the example `C:..`).
- A shell cell gives its body back unchanged unless the body has a CRLF (`ChatCell.ShellCellRoundTrip`).
- The start of a worker is recovered from its stored deadline unless the deadline fell off the end of the
  calendar (`SchedulerRuns.StartIsRecovered`).
- Formatting a fence line keeps the characters its backslashes escape unless an escaped blank follows a
  stage and either nothing or `;` ends the stage, or the blank is not a space: the formatter trims a stage
  without regard to escapes, and only its own space in front of `&&`, `||`, `&` and `|` stands in for the
  blank (`ShellEscapedBlank.EscapesKeptIff`, with the example `a\ ;b`). The theorems about visible
  characters and pieces count such a blank as one between pieces.
- The fence's check for open quotes is right about every front of every line unless the block holds one of
  three things: an escaped `'` in `$'...'`, an unescaped `"` in a command or expansion inside double quotes,
  or a quote that opens behind a `#` in `${...}`, which the check takes for a comment
  (`ShellOpenQuotes.RightIff` for a line, `ShellFenceQuotes.BlockRightIff` for a block; the examples are
  `$'a\'`, `"$('"')'` and `${ #'`). Without them every line of a formatted fence starts outside quotes
  (`ShellFenceQuotes.FenceLinesStart`); with one, a blank inside a quoted text may become a line break
  (`ShellMissedQuotes.QuotedBlankIsLost`). The reading it is held against nests quotes as the scanner does,
  and lets a `#` that starts a word outside quotes and `${...}` start a comment.

## Model

| member | source | states |
|---|---|---|
| `ShellScan.Scanner.TakeStage` | crates/core/src/shell_format.rs:73-89 | fails exactly when the text read is blank; else the trimmed text becomes a stage, its flag offsets moved by the leading blanks, and text, flags and the end-of-options mark are cleared |
| `ShellScan.Scanner.EndSegment` | crates/core/src/shell_format.rs:91-98 | takes the last stage and closes the segment with its separator, or fails with it |
| `ShellScan.Scanner.CopyPlain` | crates/core/src/shell_format.rs:244-255 | a blank before a dash at the top level opens a flag just behind it, unless nothing was read or a lone `--` ended the options |
| `ShellScan.Scanner.Separate` | crates/core/src/shell_format.rs:256-278 | what each separator, redirection and plain character does to the scanner at the top level; which of them cut a command is `ShellScanExact.ScanIsCuts` |
| `ShellScan.Scanner.Finish` | crates/core/src/shell_format.rs:100-110 | the segments; a command may not end after `&&`, `\|\|` or `\|`, nor be empty |
| `ShellScan.FindClose` | crates/core/src/shell_format.rs:149-156 | the first closing quote, skipping escaped characters in `$'...'` only |
| `ShellScan.Nest` | crates/core/src/shell_format.rs:185-243 | how quotes, parentheses, backquotes, `${`, groups and comments move the nesting stack and the group count |
| `ShellScan.Quoted` | crates/core/src/shell_format.rs:132-184 | escapes, single quotes and the inside of double quotes |
| `ShellScan.Round` | crates/core/src/shell_format.rs:128-279 | one round of the scan loop is one step of the scan |
| `ShellScan.ScanCommand` | crates/core/src/shell_format.rs:117-284 | the whole scan is the fold of its steps |
| `ShellScanExact.ScanIsCuts` | crates/core/src/shell_format.rs:117-284 | the scan's answer, said of the characters: it cuts at the operators, the longest first, that stand outside every quote, nested command and brace group and belong to no redirection (`>&`, `<&`, `&>`, `>\|`), and nowhere else; in each piece it flags what looks like a flag there, up to a lone `--`; and it refuses exactly the commands with an open quote, nested command or group, a comment, a stray `)`, `;;`, `\|&` or an empty piece |
| `ShellScanExact.CutIff` | crates/core/src/shell_format.rs:256-278 | a piece ends at a position, with its separator, exactly where such an operator stands |
| `ShellScan.CopyKeepsFlags` | crates/core/src/shell_format.rs:244-255 | flag offsets stay strictly increasing, each behind a space or tab and at a dash of the text still growing |
| `ShellScan.StepOk` | crates/core/src/shell_format.rs:128-279 | every round moves forward and keeps the flag offsets in place |
| `ShellShape.ScanShaped` | crates/core/src/shell_format.rs:72-110 | every stage of a scanned command is non-empty and trimmed, its flag offsets lie inside it, at a dash behind a space or tab, and only the last segment may lack a separator |
| `ShellPieces.ScanKeepsText` | crates/core/src/shell_format.rs:72-284 | the command is, character for character, its stages in order with blanks around them and the separators between them |
| `ShellInk.ScanKeepsInk` | crates/core/src/shell_format.rs:72-284 | scanning loses, adds and reorders no visible character |
| `ShellBytes.FlagIsBoundary` | crates/core/src/shell_format.rs:346-356 | a flag's byte offset and the offset one byte before it are character boundaries of the stage, so the slices do not panic |
| `ShellBytes.PieceSlices` | crates/core/src/shell_format.rs:346-356 | the byte slices of a wrapped stage are the encodings of its pieces |
| `ShellBytes.PushedPlace` | crates/core/src/shell_format.rs:244-255 | the byte offset pushed for a flag is the place of its character |
| `ShellBytes.CopiedPlaces` | crates/core/src/shell_format.rs:244-255 | text copied behind the flags leaves their byte offsets in place |
| `ShellBytes.ShiftedPlaces` | crates/core/src/shell_format.rs:73-89 | subtracting the bytes of the leading blanks gives the places in the trimmed text |
| `ShellBytes.RemovedBytes` | crates/core/src/shell_format.rs:457-466 | the difference of the byte lengths is the byte place where the rest of the stage starts |
| `ShellBytes.LaterPlaces` | crates/core/src/shell_format.rs:457-466 | removing a keyword keeps, in bytes, the flags it keeps in characters, at their places |
| `ShellByteScan.ByteScanSame` | crates/core/src/shell_format.rs:72-284 | the scan on byte offsets never panics; it finds the same stages, and its flags are the byte places of the character ones |
| `ShellByteLayout.BoundaryIsPlace` | crates/core/src/shell_format.rs:346-356 | every character boundary is the byte place of a character |
| `ShellByteLayout.ByteFormatSame` | crates/core/src/shell_format.rs:507-521 | the formatter on byte offsets, where subtractions below zero and slices out of bounds or inside a character panic, never panics and prints what it prints on character offsets |
| `ShellReading.CopyReads` | crates/core/src/shell_format.rs:128-255 | the scanner nests quotes, parentheses, backquotes and `${` as a reader that goes character by character without looking ahead or back |
| `ShellEscapes.CurrentIsWhole` | crates/core/src/shell_format.rs:128-138 | the text read never ends in a backslash still waiting for its character |
| `ShellEscapes.EscapeLostIff` | crates/core/src/shell_format.rs:73-86 | a trimmed stage ends in a lone backslash exactly when trimming took away a blank that it escaped |
| `ShellEscapes.ScanKept` | crates/core/src/shell_format.rs:72-284 | every stage of a command leaves the quotes it opens, its flags stand outside them behind blanks no backslash escapes, and a blank follows each stage that ends in a lone backslash |
| `ShellEscapedBlank.ScannedIsLevel` | crates/core/src/shell_format.rs:117-284 | a scanned command leaves every quote and nested command it opens |
| `ShellEscapedBlank.LoneIffEscapedBlank` | crates/core/src/shell_format.rs:72-284 | a stage of a command ends in a lone backslash exactly when the command escapes the blank behind it |
| `ShellKeepsEscapes.PlaceAdds` | crates/core/src/shell_format.rs:396-479 | the lines of a segment escape what its stages escape, each with what the layout prints behind it |
| `ShellEscapedBlank.EscapeReplaced` | crates/core/src/shell_format.rs:328-335 | what becomes of an escaped blank behind a stage: nothing at the end, `;` before a `;`, a space before any other operator |
| `ShellEscapedBlank.EscapesKeptIff` | crates/core/src/shell_format.rs:507-521 | a formatted fence line escapes the characters the command escapes, in order, if and only if every escaped blank behind a stage is a space before `&&`, `\|\|`, `&` or `\|` |
| `ShellEscapedBlank.EscapedBlankIsLost` | crates/core/src/shell_format.rs:73-86 | the example `a\ ;b`: the formatter prints `a\;` and `b` |
| `ShellLayout.PieceBounds` | crates/core/src/shell_format.rs:346-356 | every slice of a wrapped stage lies inside its text, counted in characters |
| `ShellLayout.LaterFlagsOk` | crates/core/src/shell_format.rs:457-466 | the flags kept behind a removed keyword are again valid offsets into what is left |
| `ShellLayout.Layout.PushLine` | crates/core/src/shell_format.rs:328-335 | one more line: indentation, text, separator |
| `ShellLayout.Layout.PushStage` | crates/core/src/shell_format.rs:337-357 | a stage on one line when it fits or has no flags, else one line for each piece, continued with a backslash |
| `ShellLayout.Layout.Pipeline` | crates/core/src/shell_format.rs:368-385 | one stage a line, the bar at the end of the line in a fence and at its beginning otherwise |
| `ShellLayout.Layout.Statement` | crates/core/src/shell_format.rs:359-394 | a statement's lines; an open header is closed unless the statement is chained; the indentation is `ShellIndents.LayoutIndents` |
| `ShellIndents.LayoutIndents` | crates/core/src/shell_format.rs:324-499 | every line of a layout, exactly, fence or not: two blanks for each block open around it, openers minus closers of the command's tokens, a closer, `else` and `elif` one level less, a chained statement one level inside the statement or header it is chained to, the later stages of a statement two blanks further in, and again the pieces behind a stage's first; then the text of its place, the continuation, bar or separator that ends it, and the `do` and `then` behind it; the places follow one another without a gap |
| `ShellIndents.StrippedEnds` | crates/core/src/shell_format.rs:457-466 | a stage behind its leading `do`, `then` and `else` is the end of its text, with exactly the flags that lie there |
| `ShellWidths.StatementWidth` | crates/core/src/shell_format.rs:359-394 | a statement is on one line exactly when it fits there or is one stage without flags; otherwise a line is wider than the width only when it prints a single piece, between one flag and the next |
| `ShellWidths.StageOneLine` | crates/core/src/shell_format.rs:337-357 | a stage is on one line exactly when it fits or has no flags, and else on one line more than it has flags |
| `ShellLayout.Layout.Keyworded` | crates/core/src/shell_format.rs:405-456 | which keyword is accepted in which block, and its effect; an open header always has a block on the stack |
| `ShellLayout.Layout.Segment` | crates/core/src/shell_format.rs:396-479 | one segment, keyword after keyword, or its refusal |
| `ShellLayout.LayoutSegments` | crates/core/src/shell_format.rs:482-499 | all segments in order; refused when a block or header stays open |
| `ShellConserve.StageLinesInk` | crates/core/src/shell_format.rs:337-357 | the lines of a stage, continuations taken off, hold its visible characters and its separator |
| `ShellConserve.StatementInk` | crates/core/src/shell_format.rs:359-394 | the same of a statement; only a statement without separator can end in a backslash |
| `ShellConserve.PlaceInk` | crates/core/src/shell_format.rs:396-479 | a segment adds exactly its own visible characters behind the lines before it |
| `ShellConserve.LayoutInk` | crates/core/src/shell_format.rs:482-499 | the laid out lines hold the visible characters of all segments in order |
| `ShellFormat.Format` | crates/core/src/shell_format.rs:507-521 | nothing for commands with line breaks, unscannable ones, short ones without `;`, and layouts of one line |
| `ShellWhen.FormatIff` | crates/core/src/shell_format.rs:507-521 | a command is formatted exactly when it has no line break, can be scanned, is wider than the width or has a `;` with a piece behind it, has well-nested blocks with their keywords in place, and takes more than one line |
| `ShellFormat.FormatKeepsCommand` | crates/core/src/shell_format.rs:507-521 | what the shell reads in the output has the command's visible characters in order |
| `ShellTokens.SegmentInPortion` | crates/core/src/shell_format.rs:396-479 | a segment's text is its pieces with blanks: cut at separators, behind leading keywords and before options |
| `ShellExact.CommandIsSpaced` | crates/core/src/shell_format.rs:117-284 | a scanned command is its pieces in order, with nothing but blanks between them |
| `ShellExact.UnfoldIsText` | crates/core/src/shell_format.rs:337-357 | the joined lines, read as the shell reads continuations, are the concatenated text of the lines |
| `ShellSpacing.StatementFlows` | crates/core/src/shell_format.rs:359-394 | a statement's lines are its pieces in order, with blanks |
| `ShellSpacing.PlaceFlows` | crates/core/src/shell_format.rs:396-479 | a segment prints its own pieces behind the lines before it |
| `ShellSpacing.FormatKeepsPieces` | crates/core/src/shell_format.rs:507-521 | in a fence the command and the output are the same pieces in the same order; only blanks between pieces differ, at any width |
| `ShellLineEnds.FormatBreaks` | crates/core/src/shell_format.rs:551-556 | every line of a formatted fence command but the last ends in a continuation, a separator, `do`, `then` or `else`: a pipeline is broken behind its bar, a chain behind its operator |
| `ShellGuard.QuoteStaysOpen` | crates/core/src/shell_format.rs:532-549 | the loop finds out whether the line up to its comment ends inside single or double quotes, quotes being read side by side and not nested |
| `ShellOpenQuotes.RightIff` | crates/core/src/shell_format.rs:531-549 | on a line that starts outside quotes, the check answers for every front of the line what the nested reading says, if and only if it misreads no position: no escaped `'` in `$'...'` outside double quotes, no unescaped `"` nested in double quotes, no quote opening behind a `#` that is no comment |
| `ShellFenceQuotes.StateIsReading` | crates/core/src/shell_format.rs:556-564 | the state in which a line is read is the reading of all the text before it |
| `ShellFenceQuotes.BlockRightIff` | crates/core/src/shell_format.rs:556-564 | in a block without blocked lines, the check is right about every front of every line in its place if and only if it misreads no position of any line |
| `ShellFenceQuotes.FenceLinesStart` | crates/core/src/shell_format.rs:551-581 | in a formatted fence without misread positions every line starts outside quotes |
| `ShellMissedQuotes.NestedQuoteIsMissed` | crates/core/src/shell_format.rs:532-549 | the example `"$('"')'`: closed for the check, inside double quotes in the nested reading |
| `ShellMissedQuotes.AnsiQuoteIsMissed` | crates/core/src/shell_format.rs:532-549 | the example `$'a\'`: closed for the check, inside `$'...'` in the nested reading |
| `ShellMissedQuotes.HashInExpansionIsMissed` | crates/core/src/shell_format.rs:538 | the example `${ #'`: a comment for the check, an open quote in the nested reading |
| `ShellMissedQuotes.QuotedBlankIsLost` | crates/core/src/shell_format.rs:556-581 | the example fence `"$('"')'`, `a; b '"'`, `\'`: as a whole it leaves no quote open, its second line starts inside double quotes, and at every width that line is cut at its `;` |
| `ShellFormat.FormatFence` | crates/core/src/shell_format.rs:556-581 | refuses blocked fences, formats each line at the width its indentation leaves, and reports whether a line changed |
| `ShellFenceLines.FenceLineIs` | crates/core/src/shell_format.rs:564-578 | a line of a fence becomes its command's lines, laid out at the width its leading blanks leave, each behind exactly those blanks, or stays as it is |
| `ShellFenceLines.FenceIff` | crates/core/src/shell_format.rs:556-581 | a fence is formatted exactly when no line ends in a backslash but for blanks, holds `<<` or leaves a quote open, and the command of some line is laid out |
| `ShellFence.ItemKeepsLine` | crates/core/src/shell_format.rs:565-578 | a formatted fence line keeps its own visible characters and ends in no continuation |
| `ShellFence.FenceKeepsCommands` | crates/core/src/shell_format.rs:556-581 | a formatted fence, read as the shell reads it, has the visible characters of the whole block in order |
| `ShellFencePieces.FenceKeepsPieces` | crates/core/src/shell_format.rs:556-581 | what the shell reads in a formatted fence is, line by line, the line itself or the pieces of its command with other blanks between them |
| `ShellBlocks.PlaceRuns` | crates/core/src/shell_format.rs:396-479 | placing a segment runs its block tokens on a stack machine |
| `ShellBlocks.TokenByWord` | crates/core/src/shell_format.rs:296-312 | which token a stage's first word gives, and that the rest of the stage goes on behind `do`, `then` and `else` |
| `ShellBlocks.AcceptedIffBracketed` | crates/core/src/shell_format.rs:396-499 | the stack machine accepts exactly the well-nested forests of loops and ifs whose inner keywords stand under a header of their kind |
| `ShellBlocks.PlaceIff` | crates/core/src/shell_format.rs:396-479 | a segment is placed exactly when its tokens run and its keywords stand where they may |
| `ShellBlocks.LayoutIff` | crates/core/src/shell_format.rs:482-499 | a command is laid out exactly when it is such a forest and every keyword stands where it may: not behind `&&` or `\|\|`, behind `&` only a header, no header or `elif` before `&`, a lone `do`, `then` or `else` as the only stage before `;` or the end; width and kind of output do not matter |
| `Utf8.DecodeByChecks` | crates/core/src/chat_cell_stream.rs:69-92 | decoding goes on behind the valid text and the error that the library check reports |
| `Utf8.DecodeConcat` | crates/core/src/chat_cell_stream.rs:64-94 | decoding two pieces, the unfinished bytes carried over, is decoding them at once |
| `Utf8.HeadIffEncoded` | crates/core/src/chat_cell_stream.rs:69-92 | a character is read exactly where its own encoding stands: no overlong form, no surrogate |
| `Utf8.DecodeEncoded` | crates/core/src/chat_cell_stream.rs:69-92 | encoded text decodes to itself and leaves nothing over |
| `Sanitizer.Sanitizer.Text` | crates/core/src/chat_cell_stream.rs:155-167 | text outside escapes: CR and CRLF become one newline, other controls are dropped |
| `Sanitizer.Sanitizer.Sgr` | crates/core/src/chat_cell_stream.rs:169-180 | a colour sequence passes only with colour on and plain parameters |
| `Sanitizer.Sanitizer.StepOne` | crates/core/src/chat_cell_stream.rs:109-153 | one character of the escape automaton, the restart after an unfinished string included; what it prints is `SanitizerItems.ItemsPrint` |
| `Sanitizer.Sanitizer.Feed` | crates/core/src/chat_cell_stream.rs:64-94 | the loop over valid text, bad bytes and the unfinished end is decoding followed by the automaton |
| `Sanitizer.Sanitizer.Finish` | crates/core/src/chat_cell_stream.rs:96-107 | an unfinished character is replaced, a reset follows any colour, the state starts anew |
| `SanitizerItems.ItemsSpell` | crates/core/src/chat_cell_stream.rs:109-180 | every text is a list of items: characters, line ends, control sequences, other escape sequences, control strings with their three ends, and sequences and strings given up before their end |
| `SanitizerItems.ItemsPrint` | crates/core/src/chat_cell_stream.rs:109-180 | a listed text prints what its items print, in order: a character unless it is a control, one newline for each line end, a colour sequence of at most 64 plain parameter characters with colour on, and nothing for any other sequence or string |
| `SanitizerItems.RunPrints` | crates/core/src/chat_cell_stream.rs:64-107 | a whole run, however its bytes are cut, prints what the items of the decoded text print, and a reset behind any colour |
| `SanitizerRuns.TwoChunks` | crates/core/src/chat_cell_stream.rs:64-94 | two chunks give the same text and the same state as their bytes at once, wherever they are cut |
| `SanitizerRuns.ChunksDoNotMatter` | crates/core/src/chat_cell_stream.rs:64-94 | the same for any number of chunks |
| `SanitizerRuns.RunsOfSameBytes` | crates/core/src/chat_cell_stream.rs:64-107 | two runs of feeds and a finish over the same bytes print the same |
| `SanitizerRuns.RunIsClean` | crates/core/src/chat_cell_stream.rs:64-180 | a whole run prints glyphs, newlines, tabs and colour sequences of at most 64 parameter characters; no escape with colour off; a reset at the end once a colour was printed |
| `SanitizerRuns.CleanTextPasses` | crates/core/src/chat_cell_stream.rs:109-180 | sanitizing is idempotent: clean text passes unchanged |
| `SanitizerRuns.EndsAtLineStart` | crates/core/src/chat_cell_stream.rs:183-195 | the two-flag loop over a chunk |
| `SanitizerRuns.LineStartIsLastGlyph` | crates/core/src/chat_cell_stream.rs:183-195 | on clean text the flag says whether the last glyph is a newline |
| `SanitizerRuns.RunLineStart` | crates/core/src/chat_cell_stream.rs:183-195 | folding the flag over everything a run prints, the text at the end of the stream included, is one call on all of it |
| `PreambleGate.Gate.Feed` | crates/core/src/chat_cell_stream.rs:16-31 | nothing before the marker, everything after it |
| `PreambleGate.GateSeesOneStream` | crates/core/src/chat_cell_stream.rs:16-31 | chunk borders do not matter to the gate |
| `Scheduler.ByTimeSorts` | crates/core/src/schedule_worker.rs:150-152 | sorting puts the tasks in (time, id) order and keeps them distinct |
| `Scheduler.ByTimeMembers` | crates/core/src/schedule_worker.rs:150-152 | sorting keeps exactly the tasks |
| `Scheduler.NewScheduledReports` | crates/core/src/schedule_worker.rs:229-247 | the relevant incoming reports that are not known, each once, and none of them missed |
| `SchedulerRuns.PlanChosen` | crates/core/src/schedule_worker.rs:154-193 | a tick starts due tasks, at most the free slots; a due task left out has every slot taken by tasks before it |
| `SchedulerRuns.TickRecords` | crates/core/src/schedule_worker.rs:154-193 | the store after a tick, record by record: ended tasks gone, started ones running with their deadline and late mark, the rest unchanged |
| `SchedulerRuns.RunningAfterTick` | crates/core/src/schedule_worker.rs:154-193 | who runs after a tick: those not ended, and the started |
| `SchedulerRuns.RunIsSafe` | crates/core/src/schedule_worker.rs:154-193 | over any run of ticks, restarts, cancels and new tasks at most two workers run, each with a deadline |
| `SchedulerRuns.OverdueEnds` | crates/core/src/schedule_worker.rs:128-148 | a running worker is ended by the first tick at or after its deadline |
| `SchedulerEnds.TickEnds` | crates/core/src/schedule_worker.rs:128-148 | a tick ends a running worker as done or needing attention exactly when a report of this run has a known status, by the last such report; else as timed out exactly from its deadline on; else as vanished exactly when it is not alive and 60 seconds have passed since its recovered start; otherwise its record stays |
| `SchedulerEnds.WithoutDeadline` | crates/core/src/schedule_worker.rs:88-135 | a running task without a stored deadline ends as one that started at its own time, two hours or its own timeout before its deadline |
| `SchedulerEnds.OnlyRunningEnd` | crates/core/src/schedule_worker.rs:154-164 | a tick ends running workers only, each as that rule says |
| `SchedulerEnds.KeepsRunning` | crates/core/src/schedule_worker.rs:128-193 | over any run, a worker that is alive, does not report, is not cancelled and has no tick at or behind its deadline keeps running with its record |
| `SchedulerRuns.DeadlinesAhead` | crates/core/src/schedule_worker.rs:84-86 | after a tick every running deadline lies ahead or belongs to a worker this tick started |
| `SchedulerRuns.RecordOfLastStart` | crates/core/src/schedule_worker.rs:154-193 | over any run, a running worker's record is the one the tick that last started it wrote, or its first one if none did |
| `SchedulerRuns.StartIsRecovered` | crates/core/src/schedule_worker.rs:84-92 | over any run, the start recovered from a running worker's stored deadline is the tick that last started it, if and only if at that tick the deadline did not fall off the calendar (or one of two coincidences) |
| `SchedulerRuns.LateStartIsLost` | crates/core/src/schedule_worker.rs:84-92 | the example: a one-second worker started at the last moment of the calendar is taken to have started a second earlier |
| `SchedulerRuns.NoOvertaking` | crates/core/src/schedule_worker.rs:166-192 | whoever starts comes before every due task that does not |
| `SchedulerRuns.RestartKeepsLive` | crates/core/src/schedule.rs:149-172 | a restart keeps exactly the live workers running, requeues the others, marks overdue ones late for good, and doing it twice changes nothing |
| `SchedulerWaiting.PassedOver` | crates/core/src/schedule_worker.rs:154-193 | a tick that passes over a due task fills every slot, only from ahead of it |
| `SchedulerWaiting.BoundedWait` | crates/core/src/schedule_worker.rs:84-193 | with steady ticks and bounded timeouts a due task with k tasks ahead starts within (k / 2 + 1) times the timeout plus the tick gap |
| `SchedulerWaiting.RunKeepsNear` | crates/core/src/schedule_worker.rs:84-86 | every run of steady ticks keeps the premise that running deadlines are near |
| `KittyPixels.SpansTile` | crates/core/src/kitty_image.rs:185-189 | consecutive spans touch, none is empty, together they cover the axis |
| `KittyPixels.SpansPartition` | crates/core/src/kitty_image.rs:185-189 | every position lies in exactly one span |
| `KittyPixels.SidesShrink` | crates/core/src/kitty_image.rs:191-194 | above the limit no side grows or vanishes, and the long one becomes 2048 |
| `KittyPixels.BoxAverage` | crates/core/src/kitty_image.rs:196-221 | the nested loops compute the weighted average of the box |
| `KittyPixels.AverageBetween` | crates/core/src/kitty_image.rs:196-221 | an averaged channel lies between the least and greatest of its positively weighted pixels |
| `KittyPixels.AverageIsNearest` | crates/core/src/kitty_image.rs:196-221 | an averaged channel is the exact weighted mean of its box, rounded to the nearest |
| `KittyPixels.AlphaBetween` | crates/core/src/kitty_image.rs:196-221 | the averaged alpha lies between the least and greatest alpha of the box, and is their exact mean rounded to the nearest |
| `KittyPixels.Downscale` | crates/core/src/kitty_image.rs:223-254 | the loops write the average of each box in row order |
| `KittyPixels.DownscaledOk` | crates/core/src/kitty_image.rs:223-254 | the result is an image, its long side exactly 2048; a fitting image is untouched |
| `KittyPixels.OutputPixel` | crates/core/src/kitty_image.rs:223-254 | each output pixel is the average of its own box |
| `KittyPixels.ReadOnce` | crates/core/src/kitty_image.rs:223-254 | every source pixel belongs to exactly one output pixel |
| `KittyAverages.SumIsColumns` | crates/core/src/kitty_image.rs:196-213 | the sums the loops take row by row are the sums taken column by column from the image's bytes, each channel weighted by alpha where there is one |
| `KittyAverages.DownscaledByte` | crates/core/src/kitty_image.rs:223-254 | every byte of a downscaled image is the sum over its own box divided by the weight, or for alpha by the number of pixels, rounded to the nearest with halves upwards; 0 without weight |
| `KittyAverages.SidesRound` | crates/core/src/kitty_image.rs:191-194 | the long side becomes 2048, the other its part of that, rounded to the nearest but at least one |
| `KittyAverages.EncodedIff` | crates/core/src/kitty_image.rs:256-261 | an image is encoded exactly when it has between 1 and 25,165,824 pixels and all its bytes |
| `KittyAnimation.PaintFrame` | crates/core/src/kitty_image.rs:57-66 | copying the opaque pixels of a frame onto the flat canvas is painting the picture; fails exactly when the buffer is short |
| `KittyAnimation.ClearFrame` | crates/core/src/kitty_image.rs:77-82 | filling the rows clears exactly the frame's rectangle |
| `KittyAnimation.PrepareAnimation` | crates/core/src/kitty_image.rs:29-88 | the compositing loop with its limits and disposal is the fold over the frames |
| `KittyAnimation.FlatView` | crates/core/src/kitty_image.rs:41-66 | the flat canvas and the picture are two views of the same bytes |
| `KittyAnimation.CanvasIsLookBack` | crates/core/src/kitty_image.rs:43-86 | every pixel of every stored frame is what looking back over the frames before it finds |
| `KittyAnimation.DisposalIsExact` | crates/core/src/kitty_image.rs:76-86 | disposal to the previous canvas restores it exactly; to the background it clears exactly the rectangle |
| `KittyAnimation.StoredPixelsBounded` | crates/core/src/kitty_image.rs:38-46 | frames times canvas pixels never exceeds 16,777,216, and there are at most 128 frames |
| `KittyShown.ByteShown` | crates/core/src/kitty_image.rs:43-86 | each byte of a picture is the byte of the last frame that decides its place: the frame itself where it is not fully transparent, an earlier one that left such a pixel there, or 0 where an earlier one cleared its rectangle or none decides |
| `KittyShown.StoredIff` | crates/core/src/kitty_image.rs:29-88 | an animation is stored exactly when it decodes to two to 128 frames, each inside the screen and complete, and at most 16,777,216 pixels in all |
| `KittyShown.StoredShot` | crates/core/src/kitty_image.rs:67-75 | every frame is stored in its turn, for ten milliseconds a hundredth and never less than ten; a picture within 2048 by 2048 as it is |
| `Usage.RowsOfPieces` | crates/core/src/chat_process.rs:95-102 | text cut behind a newline parses as its two pieces |
| `Usage.PollKeeps` | crates/core/src/chat_process.rs:133-162 | one poll keeps the rows equal to the batch parse of the file up to the offset, a line boundary |
| `Usage.PollsKeep` | crates/core/src/chat_process.rs:133-162 | so does any run of appends, partial reads and replacements |
| `UsagePolls.PollReadsAll` | crates/core/src/chat_process.rs:133-162 | after a poll the rows are those of every complete line read, from where they began or, exactly in another or shortened file, from its start; only an unfinished line is left |
| `UsagePolls.RowsArePicked` | crates/core/src/chat_process.rs:95-102 | the rows are the lines that parse to a turn or a ping of this run, in order, none left out, doubled or changed |
| `Usage.TailingIsBatch` | crates/core/src/chat_process.rs:123-162 | from the start of tailing at a line boundary |
| `Usage.CompleteReadIsWholeFile` | crates/core/src/chat_process.rs:95-162 | when nothing before the start belongs to the run, a complete read is the whole batch |
| `Tokens.PlusIsMonoid` | crates/core/src/worker_costs.rs:74-121 | saturating addition of counts, optional parts and flags included, is a commutative monoid; that it adds is `Tokens.SumAddsUp` |
| `Tokens.SumAddsUp` | crates/core/src/worker_costs.rs:74-121 | the sum of lines is, field by field, the plain sum of their numbers capped once at the largest 64-bit number; an optional part is missing exactly when every line lacks it, and is marked partial exactly when one does |
| `Tokens.ExtendedOrder` | crates/core/src/worker_costs.rs:413-434 | extending an entry keeps the map in strict key order |
| `Tokens.ExtendedGet` | crates/core/src/worker_costs.rs:413-434 | extending an entry appends to its own list and changes no other |
| `WorkerCosts.ProcessesPartition` | crates/core/src/chat_process.rs:164-176 | the processes are the rows, cut before every row that opens one and nowhere else |
| `SessionCost.OneMoreRow` | crates/core/src/chat_process.rs:164-176 | a row that opens a process starts a new piece, any other joins the last one |
| `SessionCost.LookBackIsLastCost` | crates/core/src/chat_process.rs:184-193 | the search back for the base of a delta finds the cost of the last process so far |
| `SessionCost.DeltaIsGrowth` | crates/core/src/chat_process.rs:178-227 | the delta shown for the last turn is what the turn added to the session's total, and is not negative |
| `SessionCost.DeltaIff` | crates/core/src/chat_process.rs:178-195 | a delta is shown exactly when the last turn has a cost not below its base: nothing for a turn that opens its process, else the last cost before it with no opening row in between; it is the difference |
| `SessionCost.CostSays` | crates/core/src/chat_process.rs:216-227 | a session's cost is the total of its processes, that delta or none, and is marked incomplete exactly when one of them is |
| `SessionCost.DeltasAddUp` | crates/core/src/chat_process.rs:178-227 | when every row is a turn whose delta is shown, the deltas add up to the total |
| `SessionCost.CostKnownIff` | crates/core/src/chat_process.rs:216-227 | a session has a cost exactly when one of its rows has |
| `SessionCost.NothingAfterLastCost` | crates/core/src/chat_process.rs:197-214 | a process not marked incomplete used no tokens after its last known cost |
| `SessionCost.MissingIff` | crates/core/src/chat_process.rs:197-214 | a process is marked incomplete exactly when none of its rows has a cost, or its last row that used tokens has none |
| `WorkerCosts.KeyIsOrder` | crates/core/src/worker_costs.rs:40-47 | sources and models are totally ordered |
| `WorkerCosts.SourceByKind` | crates/core/src/worker_costs.rs:48-72 | which kinds of lines count, and under which name |
| `CostTable.MainProcesses` | crates/core/src/worker_costs.rs:363-398 | grouping by run, cutting into processes, filtering by time, naming the model |
| `CostTable.CostRows` | crates/core/src/worker_costs.rs:400-437 | the two loops over the file and the main processes fill the groups the rows are made of |
| `CostTotals.ByRunSum` | crates/core/src/worker_costs.rs:363-370 | grouping by run only changes the order of the lines |
| `CostTotals.VisibleAllSum` | crates/core/src/worker_costs.rs:371-398 | cutting into processes and dropping the empty ones loses no line in the window |
| `CostTotals.TotalCountsEveryLine` | crates/core/src/worker_costs.rs:400-457 | the total row is the sum over every line of known source in the window, each once |
| `CostTotals.TotalAddsUp` | crates/core/src/worker_costs.rs:400-457 | the numbers of the total row are those plain sums over every counted line |
| `CostTotals.RowsAreKeys` | crates/core/src/worker_costs.rs:404-437 | one row for each key that has lines, in strict key order, holding exactly the key's own lines |
| `CostTotals.RowSaysItsKey` | crates/core/src/worker_costs.rs:298-361 | each row's label, model, tokens and number of runs |
| `CostTotals.RowAddsUp` | crates/core/src/worker_costs.rs:298-361 | the numbers of each row are those plain sums over its own key's lines |
| `CostTotals.LastModelIs` | crates/core/src/worker_costs.rs:383-388 | a process is shown under the last model its rows in the window name, or as unknown |
| `CostTotals.RunsCounted` | crates/core/src/worker_costs.rs:298-361 | a main row counts the different runs of its processes, a worker row the different workers and sessions of its lines, any other its lines |
| `WatchTail.ClipEnd` | crates/core/src/watch.rs:169-175 | the loop finds the first character boundary |
| `WatchTail.ClipKeepsCharacters` | crates/core/src/watch.rs:169-175 | a clipped line is as many whole characters at its end as fit |
| `WatchTail.Tail.PushLine` | crates/core/src/watch.rs:145-157 | the lines kept are the longest end of everything pushed, clipped, within both limits; the byte count is exact; truncated exactly when a line was clipped or dropped |
| `WatchTail.Tail.Render` | crates/core/src/watch.rs:159-166 | the whole output as it came when nothing was truncated, else the marker and the lines kept |
| `WatchTail.JoinPlaces` | crates/core/src/watch.rs:159-166 | in the joined text every line stands behind the ones before it, one newline behind each but the last, and nothing else is there |
| `WatchTail.LongestEndIsUnique` | crates/core/src/watch.rs:145-157 | only one list of lines is the longest such end |
| `WorkerCheck.Plan` | crates/core/src/worker_check.rs:216-252 | the loop over observations is each worker's own actions and memory in turn |
| `WorkerCheckStates.StateIsStrongest` | crates/core/src/worker_check.rs:144-185 | a worker's state is the strongest sign it shows: a permission question, a trust question, a stop, a new report, silence, and else work; a mark of work holds for ten minutes, in the background for an hour, and then only a busy pane keeps a ready worker from being silent |
| `WorkerCheckStates.NudgeRule` | crates/core/src/worker_check.rs:162-231 | over any run, a worker is nudged exactly when it stopped, is not blocked or asking for trust, and reported just now or has not stopped since it last reported or was gone |
| `WorkerCheckStates.BusyIsLeftAlone` | crates/core/src/worker_check.rs:144-246 | a worker that neither asks, nor stopped, nor is silent gets no nudge and no post, whatever is remembered of it |
| `WorkerCheckStates.FirstPost` | crates/core/src/worker_check.rs:187-214 | which workers are posted about at first sight, by kind and sign |
| `WorkerCheckRuns.NudgeIff` | crates/core/src/worker_check.rs:224-231 | a check nudges exactly a waiting worker that reported just now or has not waited since its last report |
| `WorkerCheckRuns.NudgesApart` | crates/core/src/worker_check.rs:224-231 | between two nudges the worker reported or went missing |
| `WorkerCheckRuns.NudgesAreBounded` | crates/core/src/worker_check.rs:224-231 | a worker seen at every check gets at most one nudge more than there are checks that find a report since its last nudge |
| `WorkerCheckRuns.NudgesPerReport` | crates/core/src/worker_check.rs:103-108 | with each nudge noting the last report, a worker gets at most one nudge more than its last report changed and it was missing |
| `WorkerCheckRuns.UnknownPostIff` | crates/core/src/worker_check.rs:232-244 | Unknown is posted exactly at the first Unknown of a stretch of Unknown and Working |
| `WorkerCheckRuns.UnknownPostsApart` | crates/core/src/worker_check.rs:232-244 | two posts about Unknown are separated by a state other than Unknown and Working |
| `WorkerCheckRuns.PostIff` | crates/core/src/worker_check.rs:234-238 | any other state is posted exactly when the check before did not see it |
| `WorkerCheckRuns.WorkersAreIndependent` | crates/core/src/worker_check.rs:216-252 | over any run, what is remembered of a worker and done about it depends on its own observations only |
| `ShellWords.PushSingle` | crates/core/src/diff_command.rs:169-179 | everything up to the closing single quote, or failure |
| `ShellWords.PushDouble` | crates/core/src/diff_command.rs:181-198 | a double-quoted part with its escapes, or failure |
| `ShellWords.SplitShellWords` | crates/core/src/diff_command.rs:131-167 | the words, or failure at the first unclosed quote |
| `ShellQuoting.SplitReadsWords` | crates/core/src/diff_command.rs:131-198 | the splitter finds the words of a reader that goes character by character, and fails exactly when the text ends inside a quote |
| `ShellQuoting.SplitUndoesQuoting` | crates/core/src/chat_cell.rs:425-427 | any words, quoted and set apart by any blanks, are split back into themselves |
| `ChatCell.Fences` | crates/core/src/chat_cell.rs:84-108 | the loop collects the fences from the first line on |
| `ChatCell.FencesAreFound` | crates/core/src/chat_cell.rs:73-108 | each fence opens at the next run of three backticks or more and closes at the first later bare run at least as long; an unclosed one ends the list |
| `ChatCell.RunOfLine` | crates/core/src/chat_cell.rs:73-77 | a line opens or may close a fence exactly when three backticks or more follow its leading blanks; its info is the rest, trimmed |
| `ChatCell.RuntimeIff` | crates/core/src/chat_cell.rs:79-82 | a fence is a cell exactly when its info is `!` and a runtime without blanks |
| `ChatCell.FenceIsShortest` | crates/core/src/chat_cell.rs:142-154 | the fence put around a command is the shortest that works: three backticks, or one more than some line of it starts with |
| `ChatCell.ShellCellRoundTrip` | crates/core/src/chat_cell.rs:110-154 | wrapping and parsing gives one `shell` cell with the body, breaks at its end and CRs before newlines removed; unchanged if and only if there is no CRLF |
| `ChatCell.CrLfIsLost` | crates/core/src/chat_cell.rs:85-105 | the example: `a`, CRLF, `b` comes back without its carriage return |
| `PathNorm.NormalizeLexically` | crates/core/src/snapshot.rs:246-262 | the pushing and popping loop |
| `PathNorm.NormalizedLeads` | crates/core/src/snapshot.rs:246-262 | a normalised path leads where the path led, from every place, unless some `..` is dropped right behind a prefix |
| `PathNorm.SamePlaceIff` | crates/core/src/snapshot.rs:246-262 | it does so in every world if and only if the path does not start with a prefix without a root and have, somewhere behind it, more `..` than names |
| `PathNorm.DriveRelativeParentIsLost` | crates/core/src/snapshot.rs:255 | the example `C:..` |
| `PathNorm.NormalizedShape` | crates/core/src/snapshot.rs:246-262 | no `.`, and `..` only in front where no root or prefix stands |
| `PathNorm.NormalIffFixed` | crates/core/src/snapshot.rs:246-262 | the paths normalising leaves alone are exactly the normal ones |
| `PathNorm.NormalizingTwice` | crates/core/src/snapshot.rs:246-262 | normalising twice changes nothing |
| `PathNorm.SameFormIffSameMeaning` | crates/core/src/snapshot.rs:246-262 | two paths without prefixes have the same normal form exactly when they lead to the same place from everywhere |
| `PathNorm.AppendLeads` | crates/core/src/snapshot.rs:271-273 | appending leads where the tail leads from where the path leads |
| `PathNorm.AppendShape` | crates/core/src/snapshot.rs:271-273 | what is appended is in normal form, and a rooted tail stands alone |
| `Spans.ParseAfter` | crates/core/src/schedule.rs:43-83 | the parsing loop, error by error |
| `Spans.AcceptedIff` | crates/core/src/schedule.rs:43-83 | accepted texts are exactly amounts with units from the largest down, each unit at most once, adding up to a positive 64-bit number of seconds |
| `Spans.ErrorFound` | crates/core/src/schedule.rs:43-83 | a refused text starts with amounts and goes wrong behind them as its error says: a missing or unknown unit, no whole 64-bit number, a unit not smaller than the one before, or a sum over 64 bits or of zero |
| `Spans.SpanSum` | crates/core/src/schedule.rs:257-269 | the parts printed are in order and add up to the duration |
| `Spans.SpanRoundTrip` | crates/core/src/schedule.rs:257-269 | every positive 64-bit duration printed reads back as itself; zero is printed and refused |

## Left out

- FormatKeepsCommand: outside a fence `;` and backslashes are not compared, because there the separator is printed as a line break, and a lone backslash left by a lost escaped blank then stands at a line's end. In a fence everything visible is compared; `ShellIndents.LayoutIndents` gives the lines exactly in both cases.
- FormatKeepsPieces: holds for fence lines; a blank that ends a stage counts as a blank between pieces even when it is escaped (see `ShellEscapedBlank`).
- LayoutIff: the layout matches blocks by kind only, as the code does; the full grammar of `if` and loops is not enforced and not claimed.
- BoundedWait: no task is added, armed or requeued ahead of the waiting one meanwhile (a restart may requeue workers behind it), and timeouts are bounded by the given span.
- TailingIsBatch: starts at a line boundary; a file that keeps its identity and its length or more while bytes already read are changed is not seen by the code either.
- QuoteStaysOpen: the check does not nest quotes, as the code does not; `ShellOpenQuotes.RightIff` says when that matters.
- Plan: the wording of the posts, and what the pane text shows (trust answer, busy footer), are inputs.
- NormalizeLexically: works on components; turning them back into a path string is left to the library.
- CostRows: prices; parsing of a line and the time window are parameters.
- DeltaIsGrowth: costs are exact numbers, so the rounding of floating-point sums is left out.
- PushLine: byte counts are unbounded numbers, not `usize`.
- PrepareAnimation: the GIF decoder's frames are an input; PNG compression of a stored frame is left out.
- Timeouts beyond what chrono's `Duration::seconds` accepts, where the code panics, and times where adding the startup grace leaves the calendar.
- Failures to save the task store or to start a worker; in the store they look like a cancel.
- Sorting and maps of the Rust library are modelled by an insertion sort and by ordered lists.
- Parsing of JSON, RFC 3339 times and clock times, hashing, compression and image decoders.
- Image markers and Kitty placeholders, leftover transcripts, typed-input scanning, snapshots of the shell environment, git snapshot commands: not part of this model.
- Prompts, help texts, status bar, alerts, directives and all of the binary crate's processes, files and sockets.
