# beniya core, modelled in Dafny

beniya is a terminal file browser. This project models the parts of it that decide
what the browser shows and does. It does not model the parts that talk to the
terminal, the filesystem or other programs.

- **Terminal cell widths** (`lib/beniya/text_utils.rb`):
  - display width, truncation to a width, padding to a width, and line break points
  - a single-width/double-width rule
- **Key handler** (`lib/beniya/keybind_handler.rb`):
  - the cursor over the active entries and the dispatch of every bound key
  - the incremental name filter and the filter sub-mode
  - creating a file or directory from a typed name
  - parsing the `path:line:` search result
- **Renderer arithmetic** (`lib/beniya/terminal_ui.rb`):
  - pane sizes and the scrolling window
  - the list row and the size column
  - the preview pane and its wrapping
  - the footer and key decoding
  - the terminal renderer's own width rule, which counts an ASCII space as two cells
- **Localisation** (`lib/beniya/config.rb`):
  - the English and Japanese message tables, the lookup with its two fallbacks, and `%{name}` interpolation
  - language detection from `BENIYA_LANG`, and the current language with its validation
- **File opener** (`lib/beniya/file_opener.rb`):
  - choosing the application by extension
  - building the platform's open command, with or without a line number
  - shell quoting

## How the model is organised

- **Shared cell rule.** The two width rules are instances of one rule, `Layout.CellRule`: every character takes one or two cells.
  - `Layout` defines the width of a string under a rule, the longest prefix that fits, truncation, the last break mark past half the width, and the break point.
  - It proves their properties once, for any rule.
  - `TextUtils.CharWidth` and `TerminalUI.CharWidth` are the two concrete rules. Each has its own loop methods, proved equal to the `Layout` functions.
- **Key handler.** `Keybind.KeybindHandler` is a class with the handler's instance variables as fields.
  - Its methods are proved against the pure functions beside it (`SelectClamp`, `MoveDownIndex`, `FilterInput`, `ApplyFilterTo`, `NewCursor`, ...).
  - The lemmas about those functions are the properties: round trips, invariants kept, and keys that change nothing.
- **Renderer loops.** The loops in `terminal_ui.rb` are methods with loop invariants:
  - the width scan
  - truncation
  - the break scan
  - `wrap_preview_lines`
  - the row loops of the list pane and the preview pane
  
  Each method is proved equal to a recursive function, and the lemmas are about those functions.
- **Localisation.**
  - The message tables are functions from key to `Option<string>`.
  - `Config.Config`, a class, holds the memoised current language.

Where the tests and the code disagree, the model follows the code:

- `test/test_text_utils.rb:11` expects `display_width('hello world') == 10`. The code counts the space, giving 11 (`TextUtils.HelloWorldWidth`).
- `test/test_text_utils.rb:41-48` expects `'he...'` and `'hello...'`. No ellipsis is ever appended, because the ellipsis branch of `truncate_to_width` can never be taken (`Layout.EllipsisNeverFits`). The code returns `'hello'` and `'hello wo'` (`TextUtils.AsciiTruncateExample`, `TextUtils.AsciiTruncateExampleLonger`).
- `test/test_text_utils.rb:97` expects `pad_string_to_width('世界', 10).length == 10`. The code pads to 10 cells, which is 2 characters and 6 spaces, so the length is 8 (`TextUtils.PadWideExample`).
- `test/test_text_utils.rb:106` expects `pad_string_to_width('hello世界', 15).length == 15`. The code adds 6 spaces to 9 cells, so the length is 13 (`TextUtils.PadMixedExample`).

The default application table `FileOpener.DefaultApplications` is the one that `test/test_config_loader.rb:31-33` expects the configuration loader to supply:

- the extensions txt, md, rb, py, js, html, css, json, xml, yaml and yml open with `code`
- every other file opens with `open`

The configuration loader itself is not part of this model. Every opener function takes the table as a parameter.

## Model

| member | source | states |
|---|---|---|
| Layout.WidthBounds | lib/beniya/text_utils.rb:23-34 | under either width rule a string takes at least one cell per character and at most two |
| Layout.WidthConcat | lib/beniya/text_utils.rb:23-34 | width is additive over concatenation |
| Layout.FitReach | lib/beniya/text_utils.rb:41-47 | a prefix length is within the fitting length exactly when it is empty or its width is within the limit |
| Layout.FitIsLongest | lib/beniya/text_utils.rb:41-47 | the fitting prefix is within the width and one more character would exceed it |
| Layout.FitOfWhole | lib/beniya/text_utils.rb:38 | a string already within the width fits whole |
| Layout.TruncateProperties | lib/beniya/text_utils.rb:37-54 | truncation returns a prefix of the string; it is the string itself when that fits, is within the width otherwise, and stops just before the character that would overflow |
| Layout.TruncateIdempotent | lib/beniya/text_utils.rb:37-54 | truncating twice to the same width is truncating once |
| Layout.EllipsisNeverFits | lib/beniya/text_utils.rb:49-51 | when the string is too wide the fitting prefix never leaves three cells to spare, so the ellipsis branch is never taken |
| Layout.LastBreak | lib/beniya/text_utils.rb:76-85 | the result is the last position up to the fitting length that follows a break mark and lies past half the width, or None when there is none |
| Layout.ScanStep | lib/beniya/text_utils.rb:72-86 | one step of the scan adds the character's cells and moves the last break forward exactly when this character is a mark past half the width |
| Layout.NoMarkNoBreak | lib/beniya/text_utils.rb:79-84 | with no mark in the scanned prefix there is no break |
| Layout.LastBreakAt | lib/beniya/text_utils.rb:79-84 | a mark past half width with no later mark is the break found |
| Layout.PrefixWidthMonotone | lib/beniya/text_utils.rb:23-34 | a longer prefix is never narrower |
| Layout.BreakPointBounds | lib/beniya/text_utils.rb:67-90 | a line that fits breaks at its end; the break point lies within the line, its prefix fits, and from width 2 on it is at least one |
| Entries.FilterByName | lib/beniya/keybind_handler.rb:307-317 | an entry is kept exactly when its downcased name contains the downcased query, every copy of it is kept, and the kept entries keep their order |
| Entries.FilterByEmptyQuery | lib/beniya/keybind_handler.rb:307-317 | the empty query keeps every entry |
| Entries.FilterIdempotent | lib/beniya/keybind_handler.rb:307-317 | filtering twice by the same query is filtering once |
| Entries.FilterNarrows | lib/beniya/keybind_handler.rb:280-317 | filtering by a longer query equals filtering the earlier result by it, so typing narrows the list |
| Entries.FindIndexByName | lib/beniya/keybind_handler.rb:374 | the index found is the first entry with that name, or there is none |
| Entries.DirectoryListing.constructor | lib/beniya/keybind_handler.rb:18-21 | the listing holds the given entries and path |
| Entries.DirectoryListing.NavigateTo | lib/beniya/keybind_handler.rb:145 | a failed move changes neither entries nor path |
| Entries.DirectoryListing.NavigateToParent | lib/beniya/keybind_handler.rb:158 | a failed move changes neither entries nor path |
| Entries.DirectoryListing.Refresh | lib/beniya/keybind_handler.rb:170 | refreshing keeps the current path |
| TextUtils.CharWidth | lib/beniya/text_utils.rb:23-34 | a character takes two cells exactly when its code point is at least 0x80, otherwise one |
| TextUtils.CharWidthIsCellRule | lib/beniya/text_utils.rb:23-34 | the rule gives every character one or two cells |
| TextUtils.DisplayWidth | lib/beniya/text_utils.rb:23-34 | between the length and twice the length; zero for the empty string |
| TextUtils.DisplayWidthOne | lib/beniya/text_utils.rb:23-34 | a one-character string is as wide as its character |
| TextUtils.DisplayWidthConcat | lib/beniya/text_utils.rb:23-34 | width is additive over concatenation |
| TextUtils.DisplayWidthCountsNonAscii | lib/beniya/text_utils.rb:23-34 | width is the length plus the number of non-ASCII characters |
| TextUtils.NonAsciiSplit | lib/beniya/text_utils.rb:23-34 | the non-ASCII count is additive |
| TextUtils.AsciiNonAsciiCount | lib/beniya/text_utils.rb:23-34 | an ASCII string has no non-ASCII characters |
| TextUtils.WideNonAsciiCount | lib/beniya/text_utils.rb:23-34 | a string of non-ASCII characters counts all of them |
| TextUtils.TruncateToWidth | lib/beniya/text_utils.rb:37-54 | the loop returns exactly the cell-rule truncation of the string |
| TextUtils.TruncateFacts | lib/beniya/text_utils.rb:37-54 | truncation is the string when it fits, otherwise a prefix within the width that ends just before the overflowing character |
| TextUtils.TruncateStopsAt | lib/beniya/text_utils.rb:41-47 | truncation stops at the first prefix whose next character overflows |
| TextUtils.PadStringToWidth | lib/beniya/text_utils.rb:57-64 | a narrow string is padded with spaces to exactly the target width; a string of exactly the target width is kept; a wider one is cut to its longest prefix within the target, one more character of which would overflow |
| TextUtils.SpacesWidth | lib/beniya/text_utils.rb:62 | n spaces take n cells |
| TextUtils.PadToOwnWidth | lib/beniya/text_utils.rb:57-64 | padding to the string's own width returns it unchanged |
| TextUtils.PadFallsShortOfTarget | lib/beniya/text_utils.rb:57-64 | padding "あ" to width 1 returns "" of width 0 |
| TextUtils.PadToWidthExact | lib/beniya/text_utils.rb:57-64 | the corrected padding always has exactly the target width and agrees with the original whenever the original reaches the target |
| TextUtils.FindBreakPoint | lib/beniya/text_utils.rb:67-90 | the loop returns the cell-rule break point: the line's length when it fits, a fitting prefix length otherwise, at least one from width 2 on |
| TextUtils.ScanForBreaks | lib/beniya/text_utils.rb:72-86 | the scan returns the fitting length and the last space and punctuation breaks past half the width |
| TextUtils.AsciiWidth | lib/beniya/text_utils.rb:23-34 | an ASCII string is as wide as it is long |
| TextUtils.WideWidth | lib/beniya/text_utils.rb:23-34 | a non-ASCII string is twice as wide as it is long |
| TextUtils.AsciiPrefixWidth | lib/beniya/text_utils.rb:23-34 | every prefix of an ASCII string is as wide as it is long |
| TextUtils.AsciiFit | lib/beniya/text_utils.rb:37-54 | an ASCII string too long for the width truncates to its first width characters |
| TextUtils.AsciiSpaceBreak | lib/beniya/text_utils.rb:76-90 | in ASCII text the break is right after the last space past half the width |
| TextUtils.AsciiCutoffBreak | lib/beniya/text_utils.rb:86-90 | ASCII text without a space breaks at the width |
| TextUtils.AsciiHasNoPunctuationBreak | lib/beniya/text_utils.rb:83 | ASCII text never breaks at Japanese punctuation |
| TextUtils.HelloWidth | test/test_text_utils.rb:9-10 | "hello" is 5 cells |
| TextUtils.HelloWorldWidth | test/test_text_utils.rb:11 | "hello world" is 11 cells under the code (the test expects 10) |
| TextUtils.KonnichiwaWidth | test/test_text_utils.rb:15-17 | こんにちは is 10 cells |
| TextUtils.MixedWidth | test/test_text_utils.rb:22-24 | hello世界 is 9 cells |
| TextUtils.FullwidthSymbolWidths | test/test_text_utils.rb:29-32 | the ideographic space and the fullwidth exclamation mark are 2 cells each |
| TextUtils.NoTruncationNeeded | test/test_text_utils.rb:35-38 | "hello" is kept whole at width 10 |
| TextUtils.AsciiTruncateExample | test/test_text_utils.rb:41-44 | "hello world" at width 5 is its first five characters (the test expects an ellipsis) |
| TextUtils.AsciiTruncateExampleLonger | test/test_text_utils.rb:45-47 | "hello world" at width 8 is its first eight characters (the test expects an ellipsis) |
| TextUtils.WideTruncateExample | test/test_text_utils.rb:50-54 | こんにちは at width 4 is こん |
| TextUtils.PadFooExample | test/test_text_utils.rb:74-78 | "foo" padded to 10 is "foo" and seven spaces |
| TextUtils.PadHelloExample | test/test_text_utils.rb:81-84 | "hello" padded to 5 is itself |
| TextUtils.PadHelloWorldExample | test/test_text_utils.rb:87-91 | "hello world" padded to 5 is "hello", of width 5 |
| TextUtils.PadWideExample | test/test_text_utils.rb:93-100 | "世界" padded to 10 is itself and six spaces, 8 characters (the test expects 10) |
| TextUtils.PadMixedExample | test/test_text_utils.rb:102-107 | "hello世界" padded to 15 is itself and six spaces, 13 characters (the test expects 15) |
| TextUtils.CutoffBreakExample | test/test_text_utils.rb:138-142 | "verylongword" at width 5 breaks at 5 |
| TextUtils.SpaceBreakExample | test/test_text_utils.rb:123-128 | "hello world test" at width 10 breaks after "hello " at 6 |
| Keybind.SelectClamp | lib/beniya/keybind_handler.rb:90-93 | on a non-empty list a negative index gives 0, an index past the end gives the last index, and an index in range is kept; an empty list gives -1 |
| Keybind.MoveDownIndex | lib/beniya/keybind_handler.rb:118-122 | one step down, stopping at the last entry |
| Keybind.MoveUpIndex | lib/beniya/keybind_handler.rb:124-127 | one step up, stopping at 0 |
| Keybind.MoveRoundTrips | lib/beniya/keybind_handler.rb:118-127 | down then up, and up then down, return to the start inside the list; the ends are fixed points |
| Keybind.FilterIndex | lib/beniya/keybind_handler.rb:316 | `min(index, max(length-1, 0))`: the cursor stays put when it still fits, an index past the end goes to `max(length-1, 0)`, and a valid cursor lands in the filtered list |
| Keybind.RefreshIndex | lib/beniya/keybind_handler.rb:176-180 | on a non-empty list an index past the end goes to the last index and one that still fits stays put; on an empty list the index is kept |
| Keybind.ApplyFilterTo | lib/beniya/keybind_handler.rb:307-317 | the filtered entries become the snapshot filtered by the query, with the cursor clamped by FilterIndex (an index past the end goes to the last filtered entry, or 0), and the rest unchanged |
| Keybind.TypedKeys | lib/beniya/keybind_handler.rb:297 | a one-character key is typed exactly when it is printable; longer keys are typed and the empty key is not |
| Keybind.FilterInputKeepsConsistency | lib/beniya/keybind_handler.rb:280-317 | every key in filter mode keeps the filtered entries equal to the snapshot filtered by the query |
| Keybind.FilterInputKeepsCursorValid | lib/beniya/keybind_handler.rb:280-317 | no filter key takes the cursor below -1 |
| Keybind.FilterInputCursorInRange | lib/beniya/keybind_handler.rb:280-317 | after a typed key or a change of query the cursor is within the filtered list |
| Keybind.TypeThenDelete | lib/beniya/keybind_handler.rb:286-303 | typing a character and then deleting it restores the query and the filtered entries |
| Keybind.IgnoredKeysChangeNothing | lib/beniya/keybind_handler.rb:280-305 | an untyped key other than Esc, Enter and the delete keys changes nothing |
| Keybind.CheckNewName | lib/beniya/keybind_handler.rb:345-353 | a name is accepted exactly when it is non-empty and contains no slash or backslash |
| Keybind.JoinPath | lib/beniya/keybind_handler.rb:355 | the new path starts with the directory |
| Keybind.AcceptedNameIsLastComponent | lib/beniya/keybind_handler.rb:345-355 | an accepted name is the last component of the new path, so the file is created directly in the current directory |
| Keybind.DigitRunEnd | lib/beniya/keybind_handler.rb:254 | the end of the run of digits starting at a position |
| Keybind.ParseSearchResult | lib/beniya/keybind_handler.rb:254-256 | a parsed result has a non-empty path without a newline |
| Keybind.NextLineStart | lib/beniya/keybind_handler.rb:254 | the next line begins just after a newline |
| Keybind.ParseSearchResultRoundTrip | lib/beniya/keybind_handler.rb:254-256 | a `path:line:text` result reads back as the path and the line number |
| Keybind.NewCursor | lib/beniya/keybind_handler.rb:374-375 | the cursor moves to the first entry with the new name, and stays put when there is none |
| Keybind.KeybindHandler.constructor | lib/beniya/keybind_handler.rb:7-16 | no listing, cursor 0, no filter and empty snapshots |
| Keybind.KeybindHandler.SetDirectoryListing | lib/beniya/keybind_handler.rb:18-21 | installs the listing and resets the cursor to 0 |
| Keybind.KeybindHandler.SelectIndex | lib/beniya/keybind_handler.rb:90-93 | the cursor becomes SelectClamp of the index over the active entries: 0 below the start, the last index past the end, -1 on an empty list |
| Keybind.KeybindHandler.MoveDown | lib/beniya/keybind_handler.rb:118-122 | the cursor becomes MoveDownIndex over the active entries |
| Keybind.KeybindHandler.MoveUp | lib/beniya/keybind_handler.rb:124-127 | the cursor becomes MoveUpIndex |
| Keybind.KeybindHandler.MoveToTop | lib/beniya/keybind_handler.rb:129-132 | the cursor becomes 0 |
| Keybind.KeybindHandler.MoveToBottom | lib/beniya/keybind_handler.rb:134-138 | the cursor becomes the last active index |
| Keybind.KeybindHandler.ApplyFilter | lib/beniya/keybind_handler.rb:307-317 | the state becomes ApplyFilterTo of the old state, the cursor going to the last filtered entry (or 0) when it is past the end |
| Keybind.KeybindHandler.ClearFilterMode | lib/beniya/keybind_handler.rb:325-332 | filter mode off, empty query and snapshots, cursor 0 |
| Keybind.KeybindHandler.ExitFilterModeKeepFilter | lib/beniya/keybind_handler.rb:319-323 | only filter mode is switched off |
| Keybind.KeybindHandler.StartFilterMode | lib/beniya/keybind_handler.rb:271-278 | filter mode on, empty query, both snapshots taken from the listing, cursor 0 |
| Keybind.KeybindHandler.HandleFilterInput | lib/beniya/keybind_handler.rb:280-305 | the state becomes FilterInput of the old state and the key |
| Keybind.KeybindHandler.NavigateEnter | lib/beniya/keybind_handler.rb:140-155 | a non-directory refuses and changes nothing; a successful move clears the filter and resets the cursor |
| Keybind.KeybindHandler.NavigateParent | lib/beniya/keybind_handler.rb:157-164 | a successful move clears the filter and resets the cursor; a failed one changes nothing |
| Keybind.KeybindHandler.Refresh | lib/beniya/keybind_handler.rb:166-181 | with a filter active it re-snapshots and re-filters, clamping the cursor by FilterIndex; otherwise the cursor becomes RefreshIndex over the new listing, an index past the end going to the last entry |
| Keybind.KeybindHandler.OpenCurrentFile | lib/beniya/keybind_handler.rb:183-193 | succeeds exactly when the cursor is on a file |
| Keybind.KeybindHandler.FzfSearch | lib/beniya/keybind_handler.rb:205-220 | succeeds exactly when fzf is available |
| Keybind.KeybindHandler.RgaSearch | lib/beniya/keybind_handler.rb:226-265 | succeeds exactly when rga is available and the query is non-empty |
| Keybind.KeybindHandler.CreateNamed | lib/beniya/keybind_handler.rb:339-437 | succeeds exactly when the name is accepted, the path is new and creation works; on success the cursor moves to the new entry, and on failure nothing changes |
| Keybind.KeybindHandler.CreateFile | lib/beniya/keybind_handler.rb:339-387 | as CreateNamed, for `a` |
| Keybind.KeybindHandler.CreateDirectory | lib/beniya/keybind_handler.rb:389-437 | as CreateNamed, for `A` |
| Keybind.KeybindHandler.HandleKey | lib/beniya/keybind_handler.rb:27-88 | `KeyHandled`, key by key. Without a listing it refuses and changes nothing. In filter mode every key is filter input. `j`, `k`, `g` and `G` set the cursor to MoveDownIndex, MoveUpIndex, 0 and the last active index. `h` and `l`/Enter clear the filter on a successful move and change nothing on a failed one; `l` refuses off a directory. `r` has the Refresh outcome, `o` the OpenCurrentFile one, `a`/`A` the CreateNamed one. `e` raises NoMethodError. A fresh `s` snapshots the listing into both lists; a resumed `s` takes a snapshot only when it has none, and reports exactly that. Esc clears a filter exactly when there is one. `q` reports true. `/`, `f` and `F` report the searches' outcomes. Unbound keys and Space change nothing and report false |
| TerminalUI.CharWidth | lib/beniya/terminal_ui.rb:372-385 | the renderer gives two cells to every character above 127 and to the ASCII space, one to the rest |
| TerminalUI.CharWidthIsCellRule | lib/beniya/terminal_ui.rb:372-385 | the renderer's rule gives every character one or two cells |
| TerminalUI.WidthRulesDifferOnlyOnSpace | lib/beniya/terminal_ui.rb:378 | the two width rules disagree on the space and on nothing else |
| TerminalUI.RendererWidthCountsSpacesTwice | lib/beniya/terminal_ui.rb:372-385 | the renderer's width is the text width plus the number of spaces |
| TerminalUI.DisplayWidth | lib/beniya/terminal_ui.rb:372-385 | the loop returns the renderer's cell-rule width |
| TerminalUI.TruncateToWidth | lib/beniya/terminal_ui.rb:387-408 | the loop returns the renderer's cell-rule truncation |
| TerminalUI.FindBreakPoint | lib/beniya/terminal_ui.rb:410-437 | the loop returns the renderer's break point: the line's length when it fits, a fitting prefix length otherwise, at least one from width 2 on |
| TerminalUI.ScanForBreaks | lib/beniya/terminal_ui.rb:414-432 | the scan returns the fitting length and the last space and punctuation breaks past half the width |
| TerminalUI.WrittenWrapStep | lib/beniya/terminal_ui.rb:358-362 | one step of the loop as written splits the remainder into a piece and a rest |
| TerminalUI.WrittenWrapStallsAtWidthOne | lib/beniya/terminal_ui.rb:358-362 | at width 1 a remainder that starts with a two-cell character gives an empty piece and the same remainder, so the loop never ends |
| TerminalUI.WrittenWrapStallsOnSpace | lib/beniya/terminal_ui.rb:358-362 | " x" at width 1 stalls |
| TerminalUI.WrapCut | lib/beniya/terminal_ui.rb:358-362 | the corrected cut takes at least one character, equals the written break point from width 2 on, and fits unless it is a single character |
| TerminalUI.ConcatAppend | lib/beniya/terminal_ui.rb:346-370 | concatenation of pieces is additive |
| TerminalUI.WrapLongConcat | lib/beniya/terminal_ui.rb:357-365 | the wrapped pieces of a long line join back to the line |
| TerminalUI.WrapLongPiecesFit | lib/beniya/terminal_ui.rb:357-365 | every piece is non-empty and fits, or is a single character |
| TerminalUI.WrapLineConcat | lib/beniya/terminal_ui.rb:350-366 | a fitting line is kept whole, and the pieces of any line join back to it |
| TerminalUI.WrapLinePiecesFit | lib/beniya/terminal_ui.rb:350-366 | from width 2 on every piece fits |
| TerminalUI.CorrectedCutIsWrittenCut | lib/beniya/terminal_ui.rb:358-362 | from width 2 on the corrected step is the written step |
| TerminalUI.WrapLinesConcat | lib/beniya/terminal_ui.rb:346-370 | all wrapped pieces join back to all the lines |
| TerminalUI.WrapLongLine | lib/beniya/terminal_ui.rb:357-365 | the loop returns WrapLong of the line |
| TerminalUI.WrapPreviewLines | lib/beniya/terminal_ui.rb:346-370 | the loop returns WrapLines of the lines |
| TerminalUI.ScreenLayout | lib/beniya/terminal_ui.rb:86-92 | the content is 4 rows shorter than the screen; the two panes split the width with the left taking half rounded down |
| TerminalUI.WindowStart | lib/beniya/terminal_ui.rb:167 | the window starts half a window above the cursor, or at 0 when the cursor is in the first half window; it contains the cursor |
| TerminalUI.EntryIcon | lib/beniya/terminal_ui.rb:233-257 | the icon is one character |
| TerminalUI.FileIconCases | lib/beniya/terminal_ui.rb:244-256 | a plain file gets 💎 exactly for `.rb`, 📜 exactly for `.js` and `.ts`, 📄 for any other downcased extension, and never a directory or executable icon |
| TerminalUI.EntryIconCases | lib/beniya/terminal_ui.rb:233-257 | each icon exactly for its case: 📁 directories, ⚡ executables, and for files, by downcased extension, 💎 `.rb`, 📜 `.js`/`.ts`, 📄 anything else |
| TerminalUI.FormatSize | lib/beniya/terminal_ui.rb:259-271 | under 1 KiB the size column is six characters; zero is blank; the unit letter is B, K, M or G by magnitude |
| TerminalUI.FormatSizeReadsBack | lib/beniya/terminal_ui.rb:259-264 | a byte size's digits read back as the size |
| TerminalUI.ShortName | lib/beniya/terminal_ui.rb:201-202 | a short name is kept; a long one is cut to the limit with "..." at the end |
| TerminalUI.EntryHead | lib/beniya/terminal_ui.rb:197-208 | marker, icon and space take four characters |
| TerminalUI.EntryLine | lib/beniya/terminal_ui.rb:189-231 | the row never exceeds the list pane's safe width |
| TerminalUI.EntryLineFillsRow | lib/beniya/terminal_ui.rb:194-215 | a wide enough row is exactly the safe width, starts with the head and ends with the size column |
| TerminalUI.DrawEntryLine | lib/beniya/terminal_ui.rb:189-231 | returns EntryLine |
| TerminalUI.DirectoryListRows | lib/beniya/terminal_ui.rb:166-187 | the loop returns the rows of the window over the entries |
| TerminalUI.AppendListRow | lib/beniya/terminal_ui.rb:170-186 | one more row extends the rows drawn so far by the next one |
| TerminalUI.DrawListRow | lib/beniya/terminal_ui.rb:170-186 | returns ListRow |
| TerminalUI.Tabulate | lib/beniya/terminal_ui.rb:170 | one value per row of the window |
| TerminalUI.TabulateAt | lib/beniya/terminal_ui.rb:170 | row i holds the value for start + i |
| TerminalUI.ListRowsAt | lib/beniya/terminal_ui.rb:166-187 | there are exactly as many rows as the height, row i drawing entry start + i |
| TerminalUI.ListRow | lib/beniya/terminal_ui.rb:171-185 | a row never exceeds the safe width |
| TerminalUI.CursorRowIsDrawn | lib/beniya/terminal_ui.rb:166-187 | the cursor's entry is drawn inside the window |
| TerminalUI.PreviewSafeWidthOfPanes | lib/beniya/terminal_ui.rb:277-282 | the preview text area is the right pane less two columns, never negative |
| TerminalUI.PreviewBodyFits | lib/beniya/terminal_ui.rb:311-324 | the shown text fits the safe width and is padded to exactly it |
| TerminalUI.FilePreviewRow | lib/beniya/terminal_ui.rb:276-325 | returns PreviewRow |
| TerminalUI.ChoosePreviewContent | lib/beniya/terminal_ui.rb:289-308 | the row's text comes from the wrapped preview lines |
| TerminalUI.FitToPane | lib/beniya/terminal_ui.rb:311-324 | returns PreviewBody |
| TerminalUI.FilePreviewRows | lib/beniya/terminal_ui.rb:273-326 | the loop returns PreviewRows |
| TerminalUI.AppendPreviewRow | lib/beniya/terminal_ui.rb:276-325 | one more row extends the rows drawn so far |
| TerminalUI.PreviewRowFills | lib/beniya/terminal_ui.rb:276-325 | every preview row starts with the separator and shows a prefix of its content padded to the safe width |
| TerminalUI.DisplayEntries | lib/beniya/terminal_ui.rb:439-448 | with a filter active the listing filtered by the query, otherwise the listing |
| TerminalUI.DowncaseIdempotentFilter | lib/beniya/terminal_ui.rb:443-444 | downcasing the query first does not change the filter |
| TerminalUI.DisplayedIsActive | lib/beniya/terminal_ui.rb:439-448 | while the filter's lists are consistent and the snapshot is the listing's entries, the renderer shows the same entries the handler's cursor moves over |
| TerminalUI.Footer | lib/beniya/terminal_ui.rb:450-469 | the footer is exactly the screen width: the help text padded or cut |
| TerminalUI.DecodeInput | lib/beniya/terminal_ui.rb:486-514 | a non-escape key passes through; an escape becomes an arrow key or stays escape |
| TerminalUI.DecodeArrows | lib/beniya/terminal_ui.rb:486-514 | the four arrow sequences decode to k, j, l and h; only `q` decodes to `q` |
| TerminalUI.Chomp | lib/beniya/terminal_ui.rb:479 | chomp leaves a prefix: it removes two characters exactly at a trailing "\r\n", one exactly at another trailing "\n" or "\r", and none otherwise |
| TerminalUI.ChompLineEnd | lib/beniya/terminal_ui.rb:479 | a line followed by any of the three line ends chomps back to the line |
| TerminalUI.FallbackKey | lib/beniya/terminal_ui.rb:476-482 | without a terminal the key is one character: `q` at end of input or for a line that is empty after chomp, otherwise the line's first character downcased |
| TerminalUI.Screen.constructor | lib/beniya/terminal_ui.rb:7-17 | the size comes from the console, 80 by 24 without one; not running |
| TerminalUI.Screen.UpdateScreenSize | lib/beniya/terminal_ui.rb:54-59 | a console size replaces the screen size; without one it is kept |
| TerminalUI.Screen.HandleInput | lib/beniya/terminal_ui.rb:471-523 | the handler does with the decoded key what `KeyHandled` states for it, and that result and error are returned; `q` stops the loop; the line fallback returns its key and touches neither the handler nor the loop |
| Config.Either | lib/beniya/config.rb:144 | the first present value, else the second |
| Config.Table | lib/beniya/config.rb:10-127 | only English and Japanese have tables, both know exactly the English keys, and every text in them is non-empty |
| Config.TablesShareKeys | lib/beniya/config.rb:10-127 | the Japanese table has exactly the English keys |
| Config.SameAppKeys | lib/beniya/config.rb:12-15 | the app group has the same keys in both languages |
| Config.SameFileKeys | lib/beniya/config.rb:18-30 | the file group has the same keys in both languages |
| Config.SameKeybindKeys | lib/beniya/config.rb:33-41 | the keybind group has the same keys in both languages |
| Config.SameUiKeys | lib/beniya/config.rb:44-47 | the ui group has the same keys in both languages |
| Config.SameHelpKeys | lib/beniya/config.rb:50-52 | the help group has the same keys in both languages |
| Config.SameHealthKeys | lib/beniya/config.rb:55-67 | the health group has the same keys in both languages |
| Config.Lookup | lib/beniya/config.rb:144 | the current language's text, else the English text, else the key itself |
| Config.Placeholder | lib/beniya/config.rb:148 | `%{name}` is three characters longer than the name |
| Config.InterpolateAppend | lib/beniya/config.rb:147-149 | interpolating a list is interpolating its parts in order |
| Config.InterpolateOne | lib/beniya/config.rb:148 | for a value without a replacement escape, one substitution splits the message at the placeholder and joins with the value; the pieces join back to the message and contain no placeholder |
| Config.InterpolateReadsEscapes | lib/beniya/config.rb:148 | the value is read as a `gsub` replacement: `\0` puts the placeholder back, a doubled backslash becomes one, and `\+` becomes nothing |
| Config.InterpolateAbsent | lib/beniya/config.rb:148 | a message without the placeholder is unchanged |
| Config.FirstSegment | lib/beniya/config.rb:171 | the longest prefix without `_` or `.` |
| Config.LanguageCode | lib/beniya/config.rb:171 | the downcased first segment (empty when the value starts with a separator); none when the value is nothing but separators |
| Config.DetectLanguage | lib/beniya/config.rb:164-176 | always an available language; Japanese exactly when BENIYA_LANG is set and its language part is `ja`; English when unset or empty |
| Config.FirstSegmentOfPrefix | lib/beniya/config.rb:171 | a code followed by a separator is the first segment |
| Config.DetectReadsLanguagePart | lib/beniya/config.rb:164-176 | a supported language code followed by a region is detected as that language |
| Config.DetectFrenchIsEnglish | lib/beniya/config.rb:164-176 | BENIYA_LANG `fr_FR.UTF-8` falls back to English |
| Config.DetectJapaneseLocale | lib/beniya/config.rb:170-172 | BENIYA_LANG `ja_JP.UTF-8` is Japanese |
| Config.DetectLeadingSeparator | lib/beniya/config.rb:171 | `_ja` is English, since Ruby's split drops no leading empty field |
| Config.AvailableLanguagesCopy | lib/beniya/config.rb:154-156 | the languages are exactly en and ja, including the default |
| Config.Config.constructor | lib/beniya/config.rb:129-133 | no language chosen yet |
| Config.Config.CurrentLanguage | lib/beniya/config.rb:131-133 | the memoised language, detected on first use |
| Config.Config.SetCurrentLanguage | lib/beniya/config.rb:135-141 | a supported language is stored; any other raises the ArgumentError with its message and changes nothing |
| Config.Config.ResetLanguage | lib/beniya/config.rb:158-160 | forgets the chosen language |
| Config.Config.Message | lib/beniya/config.rb:143-152 | the looked-up text in the current language with every interpolation applied in order |
| FileOpener.Extension | lib/beniya/file_opener.rb:28 | the downcased extension without its dot; empty when there is none |
| FileOpener.DowncaseKeeps | lib/beniya/file_opener.rb:28 | downcasing keeps the dots and slashes of a name |
| FileOpener.RemoveFirst | lib/beniya/file_opener.rb:28 | `sub('.', '')` removes the first dot only, and changes nothing when there is no dot |
| FileOpener.DefaultApplication | lib/beniya/file_opener.rb:35 | the `:default` entry's application, if the table has one |
| FileOpener.FindApplication | lib/beniya/file_opener.rb:27-36 | the first table entry listing the extension wins; otherwise the default entry, or `open` |
| FileOpener.FirstHandler | lib/beniya/file_opener.rb:31-33 | the first entry among the rest that handles the extension |
| FileOpener.TwoEntryTable | lib/beniya/file_opener.rb:27-36 | with one extension list and a default, a listed extension takes the list's application and any other `open` |
| FileOpener.ListedGoesToCode | test/test_config_loader.rb:31-33 | a listed extension opens with code |
| FileOpener.UnlistedGoesToDefault | test/test_config_loader.rb:31-33 | any other opens with open |
| FileOpener.ExtensionOfFile | lib/beniya/file_opener.rb:28 | `dir/stem.ext` has extension `ext` downcased |
| FileOpener.ExtnameOfFile | lib/beniya/file_opener.rb:28 | `dir/stem.x` has Ruby extname `.x` |
| FileOpener.MarkdownExample | lib/beniya/file_opener.rb:27-36 | notes/README.MD opens with code under the default table |
| FileOpener.QuoteShellArgument | lib/beniya/file_opener.rb:105-111 | an argument with a space, quote or apostrophe becomes `"` + `argument.gsub('"', '\"')` + `"`. Every quote inside follows a backslash, and the inside unescapes back to the argument. Other arguments pass through |
| FileOpener.EscapeQuotesIsGSub | lib/beniya/file_opener.rb:107 | the escaping is Ruby's `gsub` with the replacement `\"`, which holds no escape |
| FileOpener.EscapedQuotesFollowBackslash | lib/beniya/file_opener.rb:107 | in the escaped text every double quote comes right after a backslash |
| FileOpener.UnescapeAfterEscape | lib/beniya/file_opener.rb:107 | escaping double quotes can be undone |
| FileOpener.OpenCommand | lib/beniya/file_opener.rb:38-60 | Windows uses `start`; elsewhere `open` becomes the platform opener and the quoted path follows the application |
| FileOpener.OpenCommandEndsWithPath | lib/beniya/file_opener.rb:38-60 | off Windows the command ends with a space and the quoted path, which reads back as the path |
| FileOpener.OpenCommandWithLine | lib/beniya/file_opener.rb:66-99 | an application containing `code` gets `--goto path:line`, off Windows one containing `vim` gets `+line path`, and the rest (and every application on Windows apart from `code`) open plainly |
| FileOpener.NvimContainsVim | lib/beniya/file_opener.rb:83 | the nvim branch is covered by the vim test |
| FileOpener.CodeComesBeforeVim | lib/beniya/file_opener.rb:79-97 | an application whose name has both `code` and `vim` takes the code branch, ending with the line number |
| FileOpener.OpenFile | lib/beniya/file_opener.rb:9-15 | a missing path or a directory opens nothing; a file opens with its application's command |
| FileOpener.OpenFileWithLine | lib/beniya/file_opener.rb:17-23 | the same with the line-aware command |
| FileOpener.WithLineIsPlainOpenOtherwise | lib/beniya/file_opener.rb:66-99 | for an application that is neither code nor vim, opening at a line is plain opening |
| Strings.Downcase | lib/beniya/keybind_handler.rb:311-313 | downcase maps each character in place |
| Strings.DowncaseConcat | lib/beniya/keybind_handler.rb:311-313 | downcasing is additive |
| Strings.SplitJoinRoundTrip | lib/beniya/config.rb:148 | splitting at a pattern and joining with it restores the string |
| Strings.ReplaceAllIsJoinOfSplit | lib/beniya/config.rb:148 | the plain replacement is the split joined with the replacement |
| Strings.GSubIsJoinOfSplit | lib/beniya/config.rb:148 | `gsub` with a replacement that holds no escape is the split joined with the replacement |
| Strings.ExpandInert | lib/beniya/config.rb:148 | a replacement with no escape stands for itself at every occurrence |
| Strings.NoBackslashIsInert | lib/beniya/config.rb:148 | a replacement without a backslash holds no escape |
| Strings.GSubInert | lib/beniya/config.rb:148 | `gsub` with a replacement that holds no escape is the plain replacement |
| Strings.GSubDoubleBackslash | lib/beniya/config.rb:148 | a doubled backslash in the replacement gives one backslash |
| Strings.GSubWholeMatch | lib/beniya/config.rb:148 | `\0` in the replacement stands for the occurrence |
| Strings.GSubLastGroup | lib/beniya/config.rb:148 | `\+` in the replacement stands for nothing, as a string pattern has no groups |
| Strings.GSubPreAndPost | lib/beniya/config.rb:148 | `` \` `` and `\'` in the replacement stand for the text before and after the occurrence |
| Strings.SplitPiecesAvoidPattern | lib/beniya/config.rb:148 | no piece of the split contains the pattern |
| Strings.GSubAbsent | lib/beniya/config.rb:148 | `gsub` of an absent pattern changes nothing, whatever the replacement |
| Strings.LJust | lib/beniya/terminal_ui.rb:467 | `ljust` keeps the string and pads it to the width |
| Strings.RJust | lib/beniya/terminal_ui.rb:262 | `rjust` keeps the string at the end and pads it to the width |
| Strings.RubyPrefix | lib/beniya/terminal_ui.rb:202 | `s[0...n]` with Ruby's rule for a negative end |
| Strings.RubyAt | lib/beniya/terminal_ui.rb:84 | `entries[i]`, with negative indices counting from the end and None out of range |
| Strings.NatToString | lib/beniya/terminal_ui.rb:262 | decimal digits |
| Strings.DigitsRoundTrip | lib/beniya/terminal_ui.rb:262 | the decimal digits read back as the number |
| Strings.Basename | lib/beniya/file_opener.rb:28 | the part after the last slash, a suffix of the path |
| Strings.LastIndexOf | lib/beniya/file_opener.rb:28 | the last occurrence of the character, present exactly when it occurs |
| Strings.Extname | lib/beniya/file_opener.rb:28 | the extension is empty or a dot followed by no dot or slash |
| Strings.Utf8Size | lib/beniya/text_utils.rb:27 | a character is one to four bytes, and one exactly below 0x80 |
| Strings.Bytesize | lib/beniya/text_utils.rb:27 | a string has at least as many bytes as characters |

## Left out

- Terminal output is not modelled: `print`, ANSI escape sequences, colours, `tput`, the alternate screen, and raw mode (terminal_ui.rb 19-72). The rows are modelled as the strings that would be printed.
- The console size and the keyboard are inputs. `TerminalUI.Screen` takes the size from its caller. `TerminalUI.Read` stands for one `getch`, with the non-blocking reads after an escape or the line fallback.
- `draw_header` and `draw_base_directory_info` (terminal_ui.rb 104-164) are not modelled. The header prints `📁 beniya - <path>`, with the filter query while a filter is active, shortened from the left when it is too wide. The second line prints the base directory and, when items are selected, their count. No decision depends on either.
- The screen loop (`start`, `main_loop`, `refresh_display`, `setup_terminal`, `cleanup_terminal`) is not modelled. It is I/O sequencing.
- TerminalUI.FormatSize: the digits of the K, M and G branches come from a `scaled` parameter. Float formatting is not modelled. Only the column's length and its unit letter are stated.
- `get_preview_content` and file previews are not modelled. The preview's lines are an input of `TerminalUI.FilePreviewRows`.
- The fzf and rga subprocesses, the `which` probes, `File.exist?` and the actual file opening are not modelled. `Keybind.Outside` carries their answers, and the handler methods return what the source returns.
- `Keybind.Outside` also carries the prompt for a new name, `File.write` and `Dir.mkdir`, and the `rescue` around them. The messages the handler prints are not modelled.
- `open_directory_in_explorer` (keybind_handler.rb 195-199) calls `open_directory_in_explorer` on the file opener, which file_opener.rb does not define. So `e` raises NoMethodError before `true` is reached. The model returns that as the error outcome `Some("NoMethodError")` of `HandleKey` and `Screen.HandleInput`, with nothing changed. The unwinding of `main_loop` and the terminal cleanup in `start`'s `ensure` are not modelled.
- `is_selected?` is called by `draw_entry_line` but defined nowhere in the core. In the model it is the `marked` parameter.
- `exit_request` and `exit_filter_mode` are one-line aliases. They are modelled only as `HandleKey`'s `q` branch and as `ClearFilterMode`.
- `set_terminal_ui` is not modelled. The reference it stores is used only by `refresh` (see the next line).
- Keybind.KeybindHandler.Refresh: `@terminal_ui&.refresh_display` (keybind_handler.rb 168) re-reads the console size (terminal_ui.rb 36-40, 54-59) and clears the screen. The model drops this effect: the handler does not see the screen, and `TerminalUI.Screen`'s size stays whatever its caller set.
- Entries.DirectoryListing.NavigateTo: the listing's implementation is outside the core. What a successful move leaves in the entries and the path is unspecified.
- Entries.DirectoryListing.NavigateToParent: likewise unspecified after a successful move.
- Entries.DirectoryListing.Refresh: the contents after a refresh are unspecified.
- The configuration loader (the applications table, colours and keybindings) is not part of this model. The opener functions take the table as a parameter.
- Strings.Downcase: only ASCII letters are folded. Ruby's Unicode case mapping is not modelled.
- Strings.Extname: the edge cases of Ruby's `File.extname` are not modelled. These are a trailing slash and Windows separators; a name ending in a dot gives ".", as on Unix.
- Symbol arguments are not modelled: `current_language=` with a Symbol and `to_s` on interpolated values. All arguments are strings.
- `LANG` and `LC_ALL` are ignored by the source's detection, and so are absent from the model.
- The source beyond the core is not modelled: bookmarks, zoxide, plugins, floating dialogs and the health check. So are the multilingual integration tests.
- TerminalUI.ListRow: on a screen one column wide or less, `safe_width` is negative. Ruby's `' ' * safe_width` for a blank row (terminal_ui.rb 183) then raises ArgumentError. The model draws an empty blank row instead. `DrawListRow` and `DirectoryListRows` inherit this.
- TerminalUI.DisplayedIsActive: the lemma needs the snapshot to be the listing's entries. After `a` or `A` with a filter applied, the handler refreshes the listing without taking a new snapshot, so the condition can fail and the renderer and the handler can see different lists.
- Config.InterpolateOne: stated only for values with no `gsub` replacement escape (`Strings.Inert`). Other values are read for their escapes by `Config.Interpolate` and `Config.Config.Message`, as Ruby does (`Config.InterpolateReadsEscapes`).
- Config.Interpolate: a value holding `\k<` makes Ruby raise, because a string pattern has no named groups. The model keeps such characters as written.
- When `s` re-enters a filter that is already in use, the source does not re-apply it (keybind_handler.rb 54-62). The model follows the code and keeps the earlier filtered entries.

## Findings

| source | as written | input that shows it | evidently intended | confidence | as-written member | corrected member |
|---|---|---|---|---|---|---|
| lib/beniya/terminal_ui.rb:358-362 | at width 1 a remainder starting with a two-cell character (a space or any non-ASCII character) gets break point 0, so the loop makes no progress and never ends | `wrap_preview_lines([" x"], 1)`, reached with a screen 7 or 8 columns wide while a text file is selected | every turn consumes at least one character and the loop ends | not executed | TerminalUI.WrittenWrapStallsAtWidthOne | TerminalUI.WrapLongLine |
| lib/beniya/text_utils.rb:57-64 | truncation can stop one cell short of the target and nothing pads the gap | `pad_string_to_width("あ", 1)` returns `""`, of width 0 | the result is exactly the target width | not executed | TextUtils.PadFallsShortOfTarget | TextUtils.PadToWidthExact |
