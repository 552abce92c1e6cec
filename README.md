# Loula SQLite Viewer — a Dafny model of its core logic

Loula SQLite Viewer is a curses front end for SQLite databases. It has a
main menu, a list of saved databases, a split-screen table browser with
paging and a record view, a fixed-width table formatter, and a set of
database tools: insert, update, delete, create table, drop table and view
structure. The tools come in two versions. The modular program
(`src/ui`, `src/tools`) takes text typed at prompts. The standalone one
(`src/tui.py`) works through choosers and builds its insert, update and
delete with `?` placeholders and a list of values, which its own database
layer does not accept (see Findings).

This project models the sequential logic behind those screens:

- `text.dfy`, modules `Wrappers` and `Text`: the Python string behaviour the
  program relies on.
  - Slicing, written `PyTake`, including negative bounds.
  - Padding and `"..."` truncation.
  - `strip()`, `upper()` and `lower()` over ASCII.
  - `" ".join`.
- `terminal.dfy`, module `Terminal`:
  - the abstract keys;
  - the two program variants;
  - the modular cursor step of every selector;
  - `FitCount`, the "stop at the bottom of the screen" rule that every prompt loop and list uses.
- `sqlite.dfy`, module `Sqlite`: cells, rows, schema columns, the catalog of schemas and how a cell is shown.
- `table_format.dfy`, module `TableFormat`: `format_table_data`, written as an imperative method over loops. It is proved against specification functions for:
  - the raw widths;
  - the proportional scaling;
  - cell fitting;
  - the header, separator and row lines.
- `browser.dfy`, module `Browser`:
  - the table browser's pager and cursor state machine, as a class whose `HandleKey` and `Run` change its four state fields;
  - page slicing, the page counter, the record indicator and the record view.
- `config.dfy`, module `Config`: `ConfigManager`, a class over the saved-database list and the last-connected slot. What is written to the file is modelled as a value.
- `menus.dfy`, module `Menus`:
  - the selector loop shared by the colour picker, the connection-type screen, the column-type chooser and the table choosers;
  - the main menu and the tools menu;
  - the Read-Me scroll window.
- `screens.dfy`, module `Screens`:
  - the saved-database screen, with its delete-and-clamp;
  - the new-database screen's bookkeeping on success;
  - the reconnect to the last database at start.
- `statements.dfy`, module `Statements`:
  - statements with bound parameters;
  - what a call of `execute_sql` with or without values hands to SQLite;
  - the placeholder list;
  - the "yes" confirmation;
  - Python's `int()` and `str()` on integers.
- `tools.dfy`, module `Tools`: the modular tools in `src/tools/tools.py`.
- `quick_tools.dfy`, module `QuickTools`: the standalone tools in `src/tui.py`.

Every tool ends in one of three ways:

- it hands a statement to the database;
- it returns early for a stated reason;
- it is still waiting for input when the given keys or lines run out.

The database itself is not modelled. The schemas are a parameter, a catalog mapping each table name to its columns; a table missing from it has no columns, as `PRAGMA table_info` reports. The table list and the row data are parameters too. Keys and typed lines are input sequences.

The model follows the code in these points:

- **Page count.** An empty table has `(0 + rpp - 1) // rpp = 0` pages, not 1 (`Browser.TotalPagesIsCeiling`).
- **Short rows.** A row shorter than the schema yields fewer cell parts, not blank cells (`TableFormat.RowPartsExact`).
- **Narrow widths.** A scaled column narrower than 3 truncates with Python slicing on a negative bound. The code cannot produce one, because every scaled width is at least 5, but `Text.PyTake` and `Text.EllipsizeSmallLimit` model the slice exactly.
- **Narrow windows.** The scaled layout is not guaranteed to fit the window. With the floor of 5, four 20-wide columns in a 20-column window still take 29 characters (`TableFormat.FloorOverflowsNarrowWindow`). A layout that needs no scaling always fits (`TableFormat.UnscaledFitsWindow`).

## Model

| member | source | states |
|---|---|---|
| Text.PyTake | src/ui/ui_utils.py:128-130 | Python's `s[:k]`: its length is `min(k, len)` for `k ≥ 0` and `max(0, len + k)` for negative `k`, and it is a prefix of `s` |
| Text.PadRight | src/ui/ui_utils.py:129-130 | `f"{s:<{w}}"` keeps `s` as a prefix, fills with spaces only, and has length `max(len, w)` |
| Text.EllipsizeBounded | src/table_browser.py:230-233 | for a limit of at least 3, text that fits is kept and longer text becomes its first `limit-3` characters plus `"..."`; the result has length `min(len, limit)` |
| Text.EllipsizeSmallLimit | src/ui/tui.py:218-219 | below a limit of 3, Python's negative slice makes the "truncated" text longer than the limit |
| Text.StripLeftSpec | src/tools/tools.py:92-93 | `lstrip()` removes exactly a leading run of whitespace and leaves a non-space first character |
| Text.StripRightSpec | src/tools/tools.py:92-93 | `rstrip()` removes exactly a trailing run of whitespace and leaves a non-space last character |
| Text.StripShape | src/tools/tools.py:92-93 | `strip()` is a contiguous slice with only whitespace cut on either side and no whitespace at its ends |
| Text.CaseFolding | src/tools/tools.py:96 | `upper()` and `lower()` are idempotent, each erases the other's effect on case, both act part by part on a concatenation, and two texts agree in upper case exactly when they agree in lower case |
| Text.NullWordSpec | src/tools/tools.py:96 | the null spellings are exactly the texts whose upper-case form is `"NULL"`, equivalently whose lower-case form is `"null"` |
| Text.Repeat | src/ui/ui_utils.py:133 | `"─" * w`: exactly `w` copies of the character |
| Terminal.Cycle | src/table_browser.py:168-171 | Up and Down move a selector modulo the list length, so the cursor stays in range |
| Terminal.CycleRoundTrip | src/ui/screens.py:131-134 | Up then Down, or Down then Up, returns the cursor to where it was |
| Terminal.PressMoves | src/ui/tui.py:116-119 | k presses of Down or Up move the cursor by `+k` or `-k` modulo the length |
| Terminal.PressFullTurn | src/ui/tui.py:269-272 | pressing one arrow as many times as the list is long returns to the start |
| Terminal.FitCountSpec | src/tools/tools.py:83-86 | a prompt loop that stops at the screen bottom shows a prefix of the items, every shown row is above the limit, and it stops early only when the next row would reach the limit |
| Sqlite.NamesSplit | src/ui/ui_utils.py:98 | the column names of a schema made of two parts are the names of each part in order, and a prefix of the schema gives the same prefix of the names |
| TableFormat.ComputeRawWidths | src/ui/ui_utils.py:100-114 | the width loop computes one width per column as specified by `RawWidths` |
| TableFormat.NeededWidthIsMax | src/ui/ui_utils.py:104-110 | a column needs the maximum of its name's length and the lengths of its cells, where null counts as `"NULL"` and only rows with more than `i` cells count |
| TableFormat.RawWidthsCapped | src/ui/ui_utils.py:113 | every raw width is at most 20, and is below the name or a cell only when it is exactly 20 |
| TableFormat.ScaleWidthsBounds | src/ui/ui_utils.py:117-122 | when the layout is too wide, every scaled width is at least 5 and at most `max(5, w)` |
| TableFormat.ScaleWidths | src/ui/ui_utils.py:121-122 | scaling keeps one width per column |
| TableFormat.ColumnWidths | src/ui/ui_utils.py:100-122 | the final widths hold one entry per column |
| TableFormat.ColumnWidthsRoomy | src/ui/ui_utils.py:113-122 | a name or cell is truncated only when its column has width at least 5, so the truncation is well formed |
| TableFormat.FitCellExact | src/ui/ui_utils.py:128-130 | a header or cell part has length exactly its column width: padded when it fits, its first `w-3` characters plus `"..."` otherwise |
| TableFormat.HeaderParts | src/ui/ui_utils.py:125-130 | one header part per column |
| TableFormat.Rule | src/ui/ui_utils.py:133 | one separator segment per column |
| TableFormat.RowParts | src/ui/ui_utils.py:139-146 | a row with k cells gives `min(k, n)` parts; cells beyond the schema are dropped |
| TableFormat.FormatHeader | src/ui/ui_utils.py:125-132 | the header loop builds the header parts and joins them with `" │ "` |
| TableFormat.FormatRow | src/ui/ui_utils.py:138-148 | the row loop stops at the last column and joins the fitted cells |
| TableFormat.FormatTableData | src/ui/ui_utils.py:92-150 | the method returns exactly the specified header, separator and row lines |
| TableFormat.JoinedWidth | src/ui/ui_utils.py:132-133 | joining parts of widths `ws` with a 3-character separator gives length `sum(ws) + 3(n-1)` |
| TableFormat.FormatShape | src/ui/ui_utils.py:94-95 | empty data or schema gives `([], [])`; otherwise there are 2 header lines of length `sum(ws) + 3(n-1)` and one line per row, in order |
| TableFormat.RowPartsExact | src/ui/ui_utils.py:139-148 | every row part has exactly its column's width, and a full row has the header's length |
| TableFormat.UnscaledFitsWindow | src/ui/ui_utils.py:117-120 | when no scaling is needed, the header fits within `max_width - 8` |
| TableFormat.FloorOverflowsNarrowWindow | src/ui/ui_utils.py:120-122 | the floor of 5 can push a scaled layout past the window: four 20-wide columns in a 20-column window take 29 characters |
| Browser.TotalPagesIsCeiling | src/table_browser.py:130-133 | the page count `(n+rpp-1)//rpp` is the ceiling of `n/rpp`, and 0 exactly for an empty table |
| Browser.PageRowsShape | src/table_browser.py:83-85 | a page is the slice `data[p*rpp : p*rpp+rpp]`: at most `rpp` rows, full before the last page, non-empty on every existing page, empty beyond |
| Browser.PagesPrefix | src/table_browser.py:83-85 | the first k pages together are the first `k*rpp` rows |
| Browser.PagesCoverTable | src/table_browser.py:130-133 | all pages together are the whole table, in order |
| Browser.PageCounterShown | src/table_browser.py:130-133 | the page counter appears exactly when the table has more than one page |
| Browser.InitialInv | src/table_browser.py:45-49 | the browser starts in list mode on table 0 with the cursor invariant holding |
| Browser.StepPreservesInv | src/table_browser.py:166-205 | every key keeps the table index in range, the page within the page count, and the row within the current page |
| Browser.CursorOnRecord | src/table_browser.py:136-141 | in record mode on a non-empty page, the indicator `page*rpp + row + 1` lies in `[1, n]` and names the highlighted row |
| Browser.ViewRecordIsHighlighted | src/table_browser.py:197-202 | Enter in record mode opens exactly the highlighted record and changes no state; in list mode it opens nothing |
| Browser.ListUpDownRoundTrip | src/table_browser.py:168-171 | in list mode, Up then Down, or Down then Up, restores the state |
| Browser.PageRightLeftRoundTrip | src/table_browser.py:187-196 | Right turns to the next page with the row reset, and Left after it returns to the page |
| Browser.PagingResetsRowOnlyOnPageChange | src/table_browser.py:187-196 | Left and Right change the page only when a neighbouring page exists, and reset the row exactly when the page changes |
| Browser.EscapeBehaviour | src/table_browser.py:176-177 | Esc in record mode returns to the list with row 0 and the same table; in list mode it leaves |
| Browser.RunKeysAdvance | src/table_browser.py:166-205 | one pass of the key loop advances the run of the remaining keys, and the record view consumes the next key |
| Browser.RunPreservesInv | src/table_browser.py:159-205 | the cursor invariant holds after any sequence of keys |
| Browser.TableBrowser.constructor | src/table_browser.py:45-49 | the browser starts in list mode on the first table, page 0, row 0 |
| Browser.TableBrowser.HandleKey | src/table_browser.py:166-205 | one key changes the four state fields as `Step` specifies and keeps the invariant |
| Browser.TableBrowser.Run | src/table_browser.py:159-205 | the key loop changes the state, shows the records and leaves as `RunKeys` specifies |
| Browser.SplitScreenTableBrowser | src/tui.py:288-465 | no tables: nothing is shown; otherwise the browser runs from its initial state with `h-8` (modular) or `h-6` (standalone) rows per page |
| Browser.RecordDetailsSpec | src/table_browser.py:207-253 | the record view pairs each shown field with its column name; a value is cut to `w-13` characters plus `"..."` when longer than `w-10`, and null shows as `"NULL"` |
| Config.WithoutPath | src/config.py:44-45 | filtering by path never lengthens the list |
| Config.WithoutPathMembers | src/config.py:44-45 | the filter keeps exactly the entries whose path differs |
| Config.WithoutPathAppend | src/config.py:44-45 | filtering works piecewise, so the relative order of kept entries is preserved |
| Config.WithoutAbsentPath | src/config.py:51-52 | filtering on a path no entry has changes nothing |
| Config.WithoutPathGone | src/config.py:51-52 | after filtering, no entry has the path |
| Config.AddedOnePerPath | src/config.py:44-46 | after an add, the new entry is last and no other entry has its path |
| Config.AddedIdempotent | src/config.py:44-46 | adding the same entry twice gives the same list as adding it once |
| Config.RemoveAfterAdd | src/config.py:41-53 | an add followed by a remove of that path is the same as the remove alone |
| Config.RemoveAbsent | src/config.py:51-52 | removing an absent path changes nothing |
| Config.RemovedKeepsOthers | src/config.py:51-52 | a remove keeps exactly the entries with other paths, and none with the removed one |
| Config.WithoutPathUnique | src/config.py:44-45 | filtering keeps paths unique |
| Config.UniquePathsPreserved | src/config.py:41-53 | add and remove keep every path unique in the saved list |
| Config.ConfigManager.constructor | src/config.py:12-27 | a new manager holds what the file gives, or an empty list and no last connection when the file is missing or malformed |
| Config.ConfigManager.SaveConfig | src/config.py:29-39 | saving writes the list and the slot and changes neither, so loading gives them back |
| Config.ConfigManager.AddSavedDatabase | src/config.py:41-47 | the list becomes the deduplicated list plus the entry, `last_connected` is unchanged, and the file holds the new state |
| Config.ConfigManager.RemoveSavedDatabase | src/config.py:49-53 | the list becomes the filtered list, `last_connected` is unchanged, and the file holds the new state |
| Config.ConfigManager.GetSavedDatabases | src/config.py:55-57 | returns the saved list |
| Config.ConfigManager.SetLastConnected | src/config.py:59-62 | the slot holds the entry, the list is unchanged, and the file holds the new state |
| Config.ConfigManager.GetLastConnected | src/config.py:64-66 | returns the slot, so it returns what the last set stored |
| Config.ReloadAfterSave | src/config.py:12-39 | a manager built from the saved file has the same list and slot |
| Menus.SelectPosition | src/ui/screens.py:82-90 | a selector's final index stays in range; without Enter or the cancel key it moves by the net number of Down minus Up presses, modulo the length |
| Menus.SelectLoop | src/tui.py:617-625 | the selector loop ends as `Select` specifies: picked, cancelled or still pending |
| Menus.ColorTable | src/ui/screens.py:21-28 | the colour table holds 6 entries with distinct ids from 1 to 7 |
| Menus.SelectColorScreen | src/ui/screens.py:18-55 | Enter returns the id paired with the highlighted colour, `'q'` returns none, and any returned id is one of 1, 2, 3, 5, 6, 7 |
| Menus.ConnectionScreen | src/ui/screens.py:57-92 | Enter at index 0 opens the saved-database screen, at index 1 the new-database screen; Esc goes back |
| Menus.ChooseColumnType | src/tui.py:1081-1103 | the type chooser cannot be cancelled and returns one of the five types, the one highlighted at Enter |
| Menus.NoCancelKey | src/tui.py:1097-1103 | a selector without a cancel key never ends cancelled |
| Menus.MenuRunSpec | src/ui/tui.py:100-138 | a menu's cursor stays in range, no action is the quit entry, and the menu stays open only when the quit key was never pressed |
| Menus.MenuLoop | src/ui/tui.py:108-138 | the loop performs the actions and leaves as `MenuRun` specifies |
| Menus.ToolsMenu | src/ui/tui.py:100-138 | every tool run is the entry highlighted at Enter, never "Back to Main Menu"; `'q'` or that entry leaves |
| Menus.SqlInputScreen | src/tui.py:515-581 | the standalone tools menu runs the highlighted tools and leaves on Esc or "Back to Main Menu" |
| Menus.MainMenu.constructor | src/ui/tui.py:18-22 | the main menu starts on its first option |
| Menus.MainMenu.Run | src/ui/tui.py:238-289 | `selected_option` moves modulo the option count and stays in range; every action is the highlighted option other than Exit; Exit or `'q'` quits |
| Menus.ScrollStepBounded | src/ui/tui.py:231-234 | Up moves back one line only above line 0; Down moves forward only while `start < len - max_lines`; the offset stays in `[0, max(0, len - max_lines)]` |
| Menus.VisibleWindow | src/ui/tui.py:214-219 | the shown lines are `content[start : start+max_lines]` clipped to the content, and a line longer than `w-4` becomes its first `w-7` characters plus `"..."` |
| Menus.ReadMeScreen | src/ui/tui.py:140-236 | the scroll loop ends at the offset `ScrollRun` gives, within the scroll bound |
| Screens.RemovedAt | src/ui/screens.py:146-148 | deleting the highlighted entry from a list with unique paths removes exactly that position |
| Screens.DeleteClamp | src/ui/screens.py:146-151 | after a delete the list is one shorter and `min(selected, len-1)` is in range, landing on the next entry, or on the previous one when the last was deleted |
| Screens.RemovedIsSublist | src/ui/screens.py:146-148 | a delete only removes entries |
| Screens.SavedRunSpec | src/ui/screens.py:94-153 | the saved screen only removes entries and keeps paths unique; it connects only to an entry that opens; it returns an empty list only when every entry was deleted |
| Screens.ConnectionScreens.constructor | src/ui/tui.py:18-33 | at start, when a last connected database is recorded and its file exists, the program connects to it when it opens and takes its colour (3 when it has none) even when the connection fails; otherwise nothing is connected and the colour is 3. The standalone start (`src/tui.py:14-25`) is the same |
| Screens.ConnectionScreens.ConnectSavedScreen | src/ui/screens.py:94-153 | a successful connection sets `last_connected` to the entry and the colour to the entry's colour (3 by default); otherwise the slot, the connection and the colour are unchanged |
| Screens.ConnectionScreens.ConnectNewScreen | src/ui/screens.py:155-210 | a new database is registered exactly when its path is non-empty, exists, opens and a colour is chosen; the form ends still choosing exactly when the colour picker runs out of keys; a registered entry is then added to the list, becomes last connected and sets the colour; otherwise the configuration is unchanged |
| Statements.Deliver | src/database.py:70-84 | the standalone `execute_sql` takes the SQL text alone: a call runs exactly when it passes no further argument, and it binds no values |
| Statements.DeliverBound | src/tui.py:671 | the call the quick tools evidently mean, with one optional value list: it runs with at most one extra argument and binds that list |
| Statements.ValuesArgument | src/tui.py:818 | a call with the values is refused as written and runs the statement as built when bound; calls with the SQL text alone are unchanged by the correction |
| Statements.PlaceholdersCount | src/tools/tools.py:102-103 | the placeholder list holds exactly n `?` marks in `3n-2` characters |
| Statements.ConfirmedSpec | src/tools/tools.py:237-244 | a confirmation is accepted exactly when, stripped, it is "yes" in any case |
| Statements.ConfirmedExamples | src/tools/tools.py:327-334 | `"YES"` and `" yes"` confirm; `"y"` does not |
| Statements.DecimalIsNumeral | src/tui.py:658 | `str(n)` of a natural number is a digit string that denotes n |
| Statements.IntTextRoundTrip | src/tui.py:657-660 | `int(str(i)) == i` for every integer |
| Statements.ParseIntRejects | src/tui.py:657-662 | `int()` refuses empty text, a lone sign, a decimal point, and doubled, leading or trailing underscores |
| Statements.ParseIntAccepts | src/tui.py:657-660 | `int()` reads single underscores between digits, leading zeros and a sign |
| Tools.InsertValueSpec | src/tools/tools.py:92-99 | an insert value is None exactly when it is empty or a spelling of NULL; otherwise it is the stripped, non-empty text |
| Tools.InsertValuesExtend | src/tools/tools.py:82-99 | each answered prompt appends its own value and leaves the earlier values as they were: the values of the first j prompts are a prefix of those of the first k |
| Tools.InsertPrompts | src/tools/tools.py:83-86 | at most one prompt per schema column |
| Tools.InsertPromptsAll | src/tools/tools.py:83-86 | every column is prompted exactly when the last prompt row, `7 + 2(n-1)`, is above `h - 2` |
| Tools.InsertRecordTool | src/tools/tools.py:52-116 | an empty name or an unknown table returns early; otherwise the insert names every column and binds the collected values |
| Tools.InsertBindingMismatch | src/tools/tools.py:83-86 | as written: when the prompts stop at the screen bottom, the insert has one `?` per column but fewer values |
| Tools.InsertMismatchExample | src/tools/tools.py:83-86 | 10 columns on a 24-row screen collect only 8 values |
| Tools.CorrectedInsertBinds | src/tools/tools.py:102-104 | corrected: the insert names only the prompted columns, with one placeholder per bound value; with room for every column it is the insert as written |
| Tools.SetPartSpec | src/tools/tools.py:169-176 | an empty or NULL input gives no SET part; otherwise `c = v`, with `v` quoted for TEXT, VARCHAR and CHAR columns |
| Tools.SetPartsEmpty | src/tools/tools.py:178-184 | no SET part remains exactly when every prompted input was empty or NULL |
| Tools.SetPartsCount | src/tools/tools.py:159-176 | the SET parts number the non-empty inputs, at most one per prompted column |
| Tools.UpdatePrompts | src/tools/tools.py:159-163 | at most one update prompt per schema column |
| Tools.CollectSetParts | src/tools/tools.py:159-176 | the prompt loop collects exactly the SET parts of the prompted columns |
| Tools.UpdateRecordTool | src/tools/tools.py:118-199 | an empty name, unknown table or empty condition returns early; no SET part means no update; otherwise `UPDATE t SET parts WHERE cond` |
| Tools.DeleteRecordTool | src/tools/tools.py:201-256 | a delete runs exactly when the name and condition are non-empty and "yes" is typed; its text is `DELETE FROM t WHERE cond` |
| Tools.CreateTableTool | src/tools/tools.py:258-300 | a create runs exactly when the name and the column list are non-empty; its text is `CREATE TABLE t (cols)` |
| Tools.DropTableTool | src/tools/tools.py:302-346 | a drop runs exactly when the name is non-empty and "yes" is typed; its text is `DROP TABLE t` |
| QuickTools.CoerceSpec | src/tui.py:652-663 | "null" in any case becomes None; other column types keep the text; on numeric columns `str(i)` reads back as `i`, and a float needs a point and must parse as a float |
| QuickTools.IntTextHasNoPoint | src/tui.py:657-659 | `str()` of an integer has no decimal point, so it never takes the float branch |
| QuickTools.QuickValuesSpec | src/tui.py:639-663 | one coerced value per schema column, in order |
| QuickTools.QuickInsert | src/tui.py:583-683 | no tables, Esc or an unknown table returns early; otherwise the insert names every column and binds one coerced value each |
| QuickTools.QuickInsertBinds | src/tui.py:665-668 | the insert has exactly as many `?` as bound values, one per schema column |
| QuickTools.UpdateClausesPlaceholders | src/tui.py:815-818 | the SET and WHERE clauses hold one `?` each, two together |
| QuickTools.SetClauseMark | src/tui.py:815 | the SET clause holds one `?` |
| QuickTools.RowClauseMark | src/tui.py:815 | the WHERE rowid clause holds one `?` |
| QuickTools.QuickUpdate | src/tui.py:685-831 | the update is `UPDATE t SET c = ? WHERE rowid = ?` with the coerced value and the record id, in that order; Esc, no tables, an unknown table or an empty id returns early |
| QuickTools.QuickUpdateBinds | src/tui.py:815-818 | an update runs exactly when the table has columns, a row id is typed and a column is chosen; it binds the new value and then the row id to the two trailing placeholders |
| QuickTools.QuickDelete | src/tui.py:833-927 | a delete by rowid runs only when the confirmation key is exactly `'y'` |
| QuickTools.QuickDeleteRefused | src/tui.py:911-914 | deleting row 1 of table `t` builds one placeholder and one value; the call as written refuses it and the bound call runs it |
| QuickTools.QuickDrop | src/tui.py:1130-1208 | a drop runs only when the confirmation key is exactly `'y'` |
| QuickTools.DefinitionTextsAppend | src/tui.py:1105 | the `"name TYPE"` texts of definitions collected in two runs are the texts of each run, in order |
| QuickTools.DefinitionsSpec | src/tui.py:1055-1107 | kept columns have non-empty names and a type from the five-type list; none is kept exactly when every name was empty |
| QuickTools.CollectColumns | src/tui.py:1055-1105 | the column loop collects the definitions exactly when the input suffices |
| QuickTools.PendingStaysPending | src/tui.py:1056-1103 | once the input runs out, later columns cannot complete the list |
| QuickTools.QuickCreate | src/tui.py:1015-1128 | an empty name or a non-positive count aborts; no kept column builds no statement; otherwise `CREATE TABLE t (defs)` |
| QuickTools.StructureLinesSpec | src/tui.py:1277-1287 | the structure view shows a prefix of the columns with names and types cut to their fields, "NO" exactly for NOT NULL columns, and a default only where one is set |
| QuickTools.ViewTableStructure | src/tui.py:1210-1291 | no tables, Esc or an unknown table shows nothing; otherwise the structure lines of the chosen table |

## Left out

- Curses drawing, windows, colour pairs and key reading are not modelled. Keys and typed lines are input sequences. A screen or tool whose input runs out ends as `Waiting`.
- `src/database.py` is not part of this model beyond the parameters of `execute_sql` (`Statements.Deliver`). Table lists, schemas and row data are parameters, and handing a statement to the database is the `Execute` outcome.
- Reading and writing `db_config.json` appear only as the stored value (`Config.Stored`). `IOError` on save is not modelled.
- The width scale factor is a Python float. It is modelled as the exact integer floor `w * B / S`, so rare float-rounding differences are not captured.
- `float(value)` is a parameter `isFloat`; a float value keeps its text (`RealValue`).
- `os.path.exists`, `basename` and `splitext` are parameters (`existing`, `fileStem`).
- Whether a database file opens is the parameter `opens`.
- Length limits on `getstr` are not modelled.
- TableFormat.ScaleWidths: the `ZeroDivisionError` when every raw width is 0 is excluded by a precondition.
- Browser.TableBrowser: the crash on `rows_per_page <= 0` is excluded by the precondition `rowsPerPage > 0`.
- Browser.Step: rows re-fetched between key presses are modelled as a fixed table per step.
- Case mapping and whitespace stripping cover ASCII only.
- SQL semantics are not modelled, including the injection exposure of text spliced into statements. Only the statement text and its bound values are modelled.
- `custom_sql_tool`, and the modular `view_table_structure_tool` in `src/tools/tools.py`, are not part of this model. The standalone structure view is modelled.
- `src/core`, `src/main.py`, `build_app.py` and `setup.py` are not part of this model.
- QuickTools.QuickInsert, QuickTools.QuickUpdate and QuickTools.QuickDelete: their `Execute` outcome is the statement with its values as the tool builds it. As written, the standalone `execute_sql` refuses the values, so none of these statements reaches SQLite (see Findings).
- Tools.InsertRecordTool requires one typed line per schema column, even for columns below the screen bottom. Lines past the collected prompts are never read.
- Tools.UpdateRecordTool has the same requirement of one typed line per schema column.
- Menus.SelectLoop: entries of a table list drawn below the screen bottom remain selectable, as in the source, but their drawing is not modelled.

## Findings

| source | as written | input that shows it | evidently intended | confidence | as-written member | corrected member |
|---|---|---|---|---|---|---|
| src/tools/tools.py:83-86,102-104 | the value prompts stop at the screen bottom (`7 + 2i >= h - 2`), but the insert always has one `?` per schema column | a table of 10 columns on a 24-row screen collects 8 values for 10 placeholders, and SQLite would refuse the binding; the modular `DatabaseManager` (module `src.database.database`) is not part of this model, so this assumes it passes the values on | name and bind only the prompted columns, or prompt for every column | not executed | Tools.InsertBindingMismatch | Tools.CorrectedInsertBinds |
| src/tui.py:671,818,914 | the quick insert, update and delete call `execute_sql(sql, values)`, but the standalone `DatabaseManager.execute_sql` (`src/database.py:70`) takes the SQL text alone, so each call raises a `TypeError`, which the tool's handler shows as an error | deleting row 1 of table `t`: the statement `DELETE FROM t WHERE rowid = ?` with the value `"1"` is never run | an `execute_sql(sql, params=())` that passes the values to `cursor.execute` | not executed | QuickTools.QuickDeleteRefused | Statements.DeliverBound |
