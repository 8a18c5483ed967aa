# twd bookmark picker — a Dafny model

`twd` bookmarks directories under short aliases. Running it with no
argument opens an interactive terminal picker, and the chosen bookmark's
path is the one to `cd` to. This project models that picker in two versions:

- the current one: `display_select_screen` / `display_select` in twd/crud.py;
- the older one: the same two functions in twd/screen.py.

Each picker is a loop. Each turn draws a frame and then handles one key.
The model keeps that shape:

- **State.** `Crud.State` / `Screen.State` hold:
  - the mode flags (`search_mode`, `post_search_mode`, `confirm_mode` and the pending `action`);
  - `selected_entry` and the pre-selected path;
  - `search_query`;
  - the two dict globals, and the store deletes go to;
  - in the current picker, the column toggles, the `CONFIG` dict they are
    written to and the number of save-callback calls.
- **Functions over the state.**
  - The frame: `Crud.Normalise` and `Crud.ActionLine`; in the older picker, `Screen.FrameStart`.
  - One key: `Crud.Step` and `Screen.Step`.
  - A run over a list of inputs: `Crud.Session` and `Screen.Session`.
- **The `Picker` classes.** They hold the same state as fields and update it
  in place, as the source does. Each method is proved to do exactly what the
  function above says, and `Run` is the `while running` loop.
- **The two dicts.** `filtered_DIRS` and `original_DIRS` are the value
  `Views.Dicts`. Its `shared` flag records that `filtered_DIRS` *is*
  `original_DIRS`: true at start, after an empty-query filter and after
  leaving post-search. Only then does `del filtered_DIRS[...]` shrink the
  original too.
- **Dicts as views.** A dict is a `Views.View`: its key order plus its map, so
  "the i-th entry" means what `list(d.keys())[i]` means.
- **Strings.** A string is a sequence of code points, so `chr(key)` is exact.
- **Layout.** Column widths, the header, the number of visible rows and the
  cells of `draw_path` are computed values (module `Layout`).

Two crashes follow from the computations the model covers:

- **Current picker, `IndexError`.** In post-search, `d` sets the confirm flag
  without leaving post-search. `s` then starts a new search with the flag
  still set. A character that no alias matches empties the view, and enter
  leaves search. The next frame builds the delete prompt from an empty view
  and raises `IndexError` (twd/crud.py:234-235). Proved as
  `CrudProperties.DeletePromptOnEmptyViewRaises`.
- **Older picker, `ValueError`.** The column widths take `max` over the view
  with no empty case, so any frame of an empty view raises `ValueError`. A
  search that matches nothing does this. See Findings.

## Model

| member | source | states |
|---|---|---|
| Text.LowerIdempotent | twd/crud.py:96 | lower-casing twice is lower-casing once |
| Text.LowerAppend | twd/crud.py:96 | lower-casing distributes over concatenation |
| Text.ContainsAt | twd/crud.py:96 | the `in` test holds exactly when the query occurs at some offset of the alias |
| Text.ContainsEmpty | twd/crud.py:97-98 | every alias contains the empty query |
| Text.ContainsShorter | twd/crud.py:286-287 | an alias containing an extended query contains the shorter one |
| Text.PyMod | twd/crud.py:332-335 | Python's `%` by a positive count lands in `[0, n)`, keeps an in-range index, sends -1 to `n-1` and `n` to 0 |
| Text.Spaces | twd/crud.py:250 | `" " * n` has `max(n, 0)` characters, all spaces |
| Text.LJust | twd/crud.py:181-182 | `ljust(w)` keeps the string as its prefix, pads with spaces only, and has length `max(len, w)` |
| Text.LJustWiden | twd/screen.py:106-110 | padding to `w + k` is padding to `w` followed by `k` spaces |
| Text.PyTake | twd/crud.py:162 | `s[:n]` is a prefix of `s` of length `min(n, len)` for `n >= 0`, and drops `-n` characters for negative `n` |
| Text.DropLast | twd/crud.py:282 | `s[:-1]` is empty for the empty string and otherwise `s` without its last character |
| Views.Keep | twd/crud.py:96 | the comprehension keeps, in dict order and without duplicates, exactly the keys whose record matches |
| Views.FilterByAlias | twd/crud.py:92-99 | the empty query gives the dict itself; any other query gives exactly the matching entries, in their original order, with their records unchanged |
| Views.FilterNarrows | twd/crud.py:286-287 | typing one more character, the first one included, only removes entries from the filtered view |
| Views.FilterCaseInsensitive | twd/crud.py:96 | filtering with the lower-cased query keeps the same entries as with the query itself |
| Views.DeleteAt | twd/crud.py:317-321 | `del d[list(d.keys())[i]]` removes exactly the i-th key and keeps the other entries in order with their records |
| Views.Refilter | twd/crud.py:92-99 | `filter_dirs_by_search(q)` filters the original dict; the result is the original dict itself exactly when the query is empty |
| Views.RestoreOriginal | twd/crud.py:292 | `filtered_DIRS = original_DIRS` makes the view the original dict, shared |
| Views.DeleteFromView | twd/crud.py:321 | the view loses the entry; the original loses it too exactly when the two are the same dict |
| Views.SubViewSize | twd/crud.py:119 | a view drawn from another never has more entries |
| Layout.MaxOf | twd/crud.py:146-148 | `max` bounds every element and is one of them |
| Layout.AliasWidthFits | twd/crud.py:146 | every alias fits the alias width, and a non-empty view has one that fills it |
| Layout.PathWidthFits | twd/crud.py:147 | the same for paths |
| Layout.IdWidthFits | twd/crud.py:148 | the same for ids |
| Layout.FlooredWidths | twd/crud.py:145-148 | the widths of a non-empty view fit every field and are the longest field or the floor 5/4/2 |
| Layout.ColumnWidths | twd/crud.py:141-148 | the widths fit every field; an empty view gets the floors 5/4/2 |
| Layout.Header | twd/crud.py:150-162 | the drawn header is the joined header cut to `min(inner_width, len)` characters, or with `-inner_width` characters dropped from its end when `inner_width` is negative |
| Layout.JoinCons | twd/crud.py:161 | joining a part before others puts the separator between them |
| Layout.HeaderUnfold | twd/crud.py:150-161 | the joined header is the ALIAS/ID half followed by the PATH/CREATED AT half |
| Layout.HeadAligned | twd/crud.py:151-154 | ALIAS starts at 0, ID at the ID column, and the half ends where PATH starts |
| Layout.TailAligned | twd/crud.py:156-159 | PATH starts its half, CREATED AT starts two past the path width |
| Layout.HeaderAligned | twd/crud.py:150-205 | each header title starts at the column where the rows draw that field |
| Layout.AtConcat | twd/crud.py:161 | a text found in the right part of a concatenation is found shifted by the left part's length |
| Layout.AtExtend | twd/crud.py:161 | a text found in a string is still found after appending |
| Layout.VisibleRows | twd/crud.py:167-179 | the rows drawn are exactly those whose screen line is above `inner_height - 5`, never more than the view has |
| Layout.WalkRows | twd/crud.py:178-213 | the row loop draws `VisibleRows` rows and sets the pre-selected path exactly when the selected row is drawn |
| Layout.DrawPath | twd/crud.py:75-90 | exactly `max_len` cells: the path's characters while they fit, `/` in the slash colour and the rest in the text colour, then spaces |
| Crud.Init | twd/crud.py:348-357 | the picker starts browsing with selection 0, no query, the view and the original both the caller's dict, columns from CONFIG defaulting to shown, and no save calls |
| Crud.ClampIndex | twd/crud.py:173-176 | the clamped selection is in `[0, n)`; it keeps an in-range index, sends one too large to `n - 1` and a negative one to 0 |
| Crud.Normalise | twd/crud.py:168-213 | frame start changes only the selection and the pre-selected path, and leaves the selection normalised |
| Crud.ActionLine | twd/crud.py:232-250 | each case in both directions: while searching, the search prompt; else with the confirm flag, the delete prompt for the selected entry, or `IndexError` exactly when the view is empty; else `cd` to a non-empty pre-selected path; else blanks of width `max(0, inner_width - 2)` |
| Crud.Step | twd/crud.py:256-346 | a key that returns leaves the state as it was |
| Crud.StepKeepsInv | twd/crud.py:256-346 | every key keeps the dicts consistent and confirm mode tied to the delete action |
| Crud.Session | twd/crud.py:118-346 | whatever way a run ends, the state it leaves is valid |
| Crud.SessionUnfold | twd/crud.py:118-346 | one turn: a raising frame ends the run, a returning key ends it with that record or `None`, any other key goes on from the new state |
| Crud.SessionTurn | twd/crud.py:118-346 | the same turn, for inputs written as the first input followed by the rest |
| Crud.Picker.constructor | twd/crud.py:348-357 | the fields hold `Init`'s state |
| Crud.Picker.Frame | twd/crud.py:168-213 | the fields become the normalised state and the number of rows drawn is `VisibleRows` |
| Crud.Picker.ToggleIdColumn | twd/crud.py:260-265 | only the ID toggle, its CONFIG entry and the save count change |
| Crud.Picker.ToggleCreatedColumn | twd/crud.py:266-271 | only the CREATED AT toggle, its CONFIG entry and the save count change |
| Crud.Picker.FilterBySearch | twd/crud.py:92-99 | only the dicts change, to the original filtered by the query |
| Crud.Picker.HandleSearchKey | twd/crud.py:277-289 | the fields become `SearchKey`'s state |
| Crud.Picker.LeavePostSearchMode | twd/crud.py:291-295 | the fields become `LeavePostSearch`'s state |
| Crud.Picker.HandlePostSearchKey | twd/crud.py:290-313 | state and outcome are `PostSearchKey`'s |
| Crud.Picker.DeleteSelectedEntry | twd/crud.py:316-325 | the fields become `DeleteSelected`'s state |
| Crud.Picker.HandleConfirmKey | twd/crud.py:314-328 | the fields become `ConfirmKey`'s state |
| Crud.Picker.HandleBrowseKey | twd/crud.py:329-346 | state and outcome are `BrowseKey`'s |
| Crud.Picker.HandleKey | twd/crud.py:256-346 | state and outcome are `Step`'s, and the invariant is kept |
| Crud.Picker.Turn | twd/crud.py:118-346 | one turn on the fields: either it ends the run as `Session` says, with the fields holding the end's state, or the fields become `Step`'s state after the frame and the rest of the run from there is the same as the whole |
| Crud.Picker.Run | twd/crud.py:118-346 | the loop ends exactly as `Session` says, and the fields hold the state the run ends in: store, dicts and CONFIG included |
| CrudProperties.NormaliseClamps | twd/crud.py:168-176 | an empty view gets selection 0 and no pre-selected path; otherwise the selection is clamped into `[0, n)` |
| CrudProperties.NormaliseIdempotent | twd/crud.py:168-213 | drawing a second frame without a key in between changes nothing |
| CrudProperties.DeletePromptNamesDeletedEntry | twd/crud.py:234-241 | the entry the delete prompt names is the one enter then deletes |
| CrudProperties.BrowseMovesWrap | twd/crud.py:330-335 | in browse mode up and down move circularly modulo the count, do nothing on an empty view, and change nothing else |
| CrudProperties.PostSearchMovesClamp | twd/crud.py:296-301 | in post-search up and down stop at 0 and `n - 1`, do nothing on an empty view, and change nothing else |
| CrudProperties.EnterSelectsOnNonEmptyView | twd/crud.py:302-305 | enter in browse or post-search returns the selected record exactly when the view is non-empty, otherwise changes nothing |
| CrudProperties.QuitOutsideSearch | twd/crud.py:274-275 | `q` returns `None` in browse mode and in confirm mode too, leaving the state as it was |
| CrudProperties.PostSearchDeleteThenEnterSelects | twd/crud.py:302-314 | in post-search `d` then enter returns the record instead of deleting it |
| CrudProperties.SearchEnterCommits | twd/crud.py:278-280 | enter in search mode moves to post-search and changes nothing else |
| CrudProperties.SearchKeyEditsQuery | twd/crud.py:281-289 | any other key in search mode, `n` and `t` included, drops or appends a character and re-filters the dicts, or is ignored when not a code point; selection, pre-selected path, modes, toggles and store stay |
| CrudProperties.PostSearchEscapeRestores | twd/crud.py:291-295 | `q` or escape in post-search restores the original view, clears the query, selects 0 and leaves post-search |
| CrudProperties.ConfirmedDelete | twd/crud.py:315-326 | enter in confirm mode on a non-empty view removes exactly the selected id from the view and the store, and from the original dict while it is the same dict; the other entries keep their order and records, the selection is clamped to the shorter view (0 when empty) and the flag is cleared; nothing else changes |
| CrudProperties.ConfirmOtherKeyCancels | twd/crud.py:314-328 | every other key reaching the confirm branch only clears the flag |
| CrudProperties.ToggleIdFlipsOneColumn | twd/crud.py:259-265 | outside search `n` flips the ID column, writes it into CONFIG, calls the callback once if given, and changes nothing else |
| CrudProperties.ToggleCreatedFlipsOneColumn | twd/crud.py:266-271 | the same for `t` and the CREATED AT column |
| CrudProperties.ToggleIdTwice | twd/crud.py:259-265 | `n`, a frame and `n` again show the ID column as before, with CONFIG holding that value |
| CrudProperties.InitConsistent | twd/crud.py:348-357 | the picker starts consistent when the dict it is given comes from the store |
| CrudProperties.NormaliseKeepsConsistent | twd/crud.py:168-213 | frame start keeps the picker consistent |
| CrudProperties.StepKeepsConsistent | twd/crud.py:256-346 | every key keeps the picker consistent: the view is the original filtered by the query, shared exactly when the query is empty, the query is empty outside search and post-search, and every original id is stored |
| CrudProperties.SearchKeyKeepsConsistent | twd/crud.py:277-289 | a search key keeps the picker consistent |
| CrudProperties.RefilterKeepsConsistent | twd/crud.py:282-287 | re-filtering with a new query keeps the picker consistent |
| CrudProperties.PostSearchKeyKeepsConsistent | twd/crud.py:290-313 | a post-search key keeps the picker consistent |
| CrudProperties.ConfirmKeyKeepsConsistent | twd/crud.py:314-328 | a confirm-mode key keeps the picker consistent |
| CrudProperties.BrowseKeyKeepsConsistent | twd/crud.py:329-346 | a browse-mode key keeps the picker consistent |
| CrudProperties.ConfirmedDeleteEverywhere | twd/crud.py:319-321 | in a consistent state a confirmed delete removes the id from the view, the original dict and the store |
| CrudProperties.ChosenRecordIsStored | twd/crud.py:302-305 | a record returned by enter is the record of a stored id |
| CrudProperties.StepSelectsSelected | twd/crud.py:302-305 | a key returns a record only on a non-empty view, and it is the selected entry's |
| CrudProperties.StepShrinks | twd/crud.py:256-346 | a key never adds to the original dict or to the store, nor changes a record in either |
| CrudProperties.SessionKeepsConsistent | twd/crud.py:118-346 | from a consistent state, the state a run ends in (waiting, returned or raised) is consistent |
| CrudProperties.SessionShrinks | twd/crud.py:118-346 | after any run the store and the original dict (the caller's dict while it is aliased) have only lost entries, and the rest keep their records |
| CrudProperties.InitConfigAgrees | twd/crud.py:114-115 | the picker starts showing the columns `CONFIG.get(..., True)` asks for |
| CrudProperties.StepKeepsConfig | twd/crud.py:258-271 | every key keeps `CONFIG` in agreement with the columns shown |
| CrudProperties.SessionKeepsConfig | twd/crud.py:118-346 | whatever state a run ends in, `CONFIG` agrees with the columns shown, so the saved `CONFIG` reproduces the display |
| CrudProperties.SessionChoosesBookmark | twd/crud.py:118-346 | the picker only ever returns a bookmark it was given |
| CrudProperties.DeletePromptOnEmptyViewRaises | twd/crud.py:234-235 | `d`, `s`, an unmatched character and enter in post-search make the next frame raise `IndexError`, in confirm mode on an empty view with the store untouched |
| CrudProperties.CrashAsksDelete | twd/crud.py:306-309 | `d` in post-search sets the confirm flag and stays in post-search |
| CrudProperties.CrashSearchesAgain | twd/crud.py:310-313 | `s` in post-search starts a search with the confirm flag still set |
| CrudProperties.CrashTypes | twd/crud.py:284-287 | an unmatched character empties the view while the flag stays set |
| CrudProperties.CrashCommits | twd/crud.py:278-280 | enter leaves search with the flag still set and the view empty |
| Screen.Init | twd/screen.py:230-237 | the picker starts browsing with selection 0, no query, and both dicts the caller's |
| Screen.ScreenWidths | twd/screen.py:98-104 | the widths raise `ValueError` exactly on an empty view, and otherwise fit every field |
| Screen.ScreenHeader | twd/screen.py:106-111 | the drawn header is the full header cut to `min(inner_width, len)` characters, or with `-inner_width` characters dropped when negative |
| Screen.Row | twd/screen.py:120-129 | the drawn row is the row text cut to `min(inner_width, len)` characters, or with `-inner_width` characters dropped when negative |
| Screen.FrameStart | twd/screen.py:98-134 | a frame raises `ValueError` exactly on an empty view; otherwise only the pre-selected path changes, to the selected row's path when that row is drawn and to nothing new otherwise |
| Screen.ActionLine | twd/screen.py:152-168 | while searching, the search prompt; else with the confirm flag, the delete prompt for the selected entry; else `cd` to a non-empty pre-selected path; nothing is drawn exactly when none applies |
| Screen.Step | twd/screen.py:173-228 | a key that returns leaves the state as it was |
| Screen.StepKeepsInv | twd/screen.py:173-228 | every key keeps the dicts consistent, the selection in range, 0 while searching, and confirm tied to delete |
| Screen.Session | twd/screen.py:75-228 | whatever way a run ends, the state it leaves is valid |
| Screen.SessionUnfold | twd/screen.py:75-228 | one turn: a raising frame ends the run, a returning key ends it, any other key goes on |
| Screen.SessionTurn | twd/screen.py:75-228 | the same turn, for inputs written as the first input followed by the rest |
| Screen.Picker.constructor | twd/screen.py:230-237 | the fields hold `Init`'s state |
| Screen.Picker.Frame | twd/screen.py:98-134 | the widths are `ScreenWidths`; on an empty view nothing changes, otherwise the fields become `FrameStart`'s state |
| Screen.Picker.HandleSearchKey | twd/screen.py:175-187 | the fields become `SearchKey`'s state |
| Screen.Picker.HandlePostSearchKey | twd/screen.py:188-198 | state and outcome are `PostSearchKey`'s |
| Screen.Picker.HandleConfirmKey | twd/screen.py:199-212 | the fields become `ConfirmKey`'s state |
| Screen.Picker.HandleBrowseKey | twd/screen.py:213-228 | state and outcome are `BrowseKey`'s |
| Screen.Picker.HandleKey | twd/screen.py:173-228 | state and outcome are `Step`'s, and the invariant is kept |
| Screen.Picker.Turn | twd/screen.py:75-228 | one turn on the fields: either it ends the run as `Session` says, with the fields holding the end's state, or the frame succeeded, the fields become `Step`'s state after it, and the rest of the run from there is the same as the whole |
| Screen.Picker.Run | twd/screen.py:75-228 | the loop ends exactly as `Session` says, and the fields hold the state the run ends in, store and dicts included |
| ScreenProperties.WidthsAgreeWithCurrent | twd/screen.py:98-104 | on a non-empty view the widths are the current picker's; on an empty one they raise where the current picker uses the floors |
| ScreenProperties.HeaderMatchesCurrent | twd/screen.py:106-110 | the header equals the current picker's header with both optional columns shown |
| ScreenProperties.HeadFieldsAt | twd/screen.py:127 | in alias, two spaces, id, two spaces, the id starts two past the alias field |
| ScreenProperties.TailFieldsAt | twd/screen.py:127 | in path, two spaces, time, the time starts two past the path field |
| ScreenProperties.JoinedFieldsAt | twd/screen.py:127 | joining four fields with two spaces puts each field right after the previous one and its separator |
| ScreenProperties.LJustAt | twd/screen.py:120-122 | a padded field starts with the field and has the column's width |
| ScreenProperties.RowAligned | twd/screen.py:120-127 | alias, id, path and time start at the same columns as the header titles |
| ScreenProperties.BrowseMovesWrap | twd/screen.py:214-217 | in browse mode up and down move circularly and change nothing else |
| ScreenProperties.PostSearchMovesClamp | twd/screen.py:192-195 | in post-search up and down stop at 0 and `n - 1` and change nothing else |
| ScreenProperties.PostSearchEscapeKeepsQuery | twd/screen.py:189-191 | `q` or escape in post-search restores the original view and leaves post-search, keeping the query and the selection |
| ScreenProperties.SearchEnterCommits | twd/screen.py:176-178 | enter in search mode moves to post-search and changes nothing else |
| ScreenProperties.SearchKeyEditsQuery | twd/screen.py:179-187 | any other key in search mode drops or appends a character and re-filters the dicts, or is ignored when not a code point; selection, pre-selected path, modes and store stay |
| ScreenProperties.BrowseSearchResets | twd/screen.py:226-228 | `s` in browse enters search with selection 0 and changes nothing else |
| ScreenProperties.EnterSelects | twd/screen.py:196-198 | enter in browse or post-search returns the selected record |
| ScreenProperties.QuitOnlyFromBrowse | twd/screen.py:199-222 | a key returns `None` exactly when it is `q` in browse mode |
| ScreenProperties.ConfirmedDelete | twd/screen.py:200-210 | enter in confirm mode removes exactly the selected id from the view, and from the store when present, keeps the others in order, moves an out-of-range selection to `max(n - 1, 0)` and clears the flag |
| ScreenProperties.DeleteSelectedRemovesEntry | twd/screen.py:201-209 | the delete removes exactly the selected entry from the view and its id from the store when present, and moves an out-of-range selection to `max(n - 1, 0)` |
| ScreenProperties.ConfirmOtherKeyCancels | twd/screen.py:211-212 | every other key in confirm mode, `q` included, only clears the flag |
| ScreenProperties.SessionRaisesOnlyValueError | twd/screen.py:98-104 | `ValueError` is the only error the modelled frame raises, and the first frame of an empty view raises it, leaving the state as it was |
| ScreenProperties.UnmatchedSearchRaises | twd/screen.py:184-185 | a search character no alias matches makes the next frame raise `ValueError`, on an empty view holding the extended query |
| ScreenProperties.StepShrinksOriginal | twd/screen.py:173-228 | a key never adds to the original dict or to the store, nor changes a record in either |
| ScreenProperties.SessionShrinks | twd/screen.py:75-228 | after any run the store and the original dict have only lost entries, and the rest keep their records |
| ScreenProperties.SessionChoosesBookmark | twd/screen.py:75-228 | the picker only ever returns a bookmark it was given |

## Left out

- Curses output is not modelled: colours, borders, rules, `addstr`/`addch`
  attributes, `clear`/`refresh` and `curses.wrapper`. The model computes
  the header, the rows, the action line and the `draw_path` cells.
  It does not model where they are written.
- The controls line (twd/crud.py:216-226) is constant text per mode and is not modelled.
- The action line's texts are not modelled. `Prompt` records what is shown,
  not the formatted string.
- `getch` and `getmaxyx` are inputs. A run is a finite list of `Input` values
  (height, width, key). The model does not cover a loop that never ends.
- `os.getcwd`, `os.path.abspath` and `os.path.expanduser` are not modelled.
  `CdCommand` carries the pre-selected path before these are applied.
- `time.strftime`/`localtime` are not modelled. A row takes its creation time
  as an already formatted string.
- Case folding covers the ASCII letters only. Python's `str.lower` on other
  code points is not modelled.
- Persistence is not modelled. `crud.load_data`, `crud.delete_entry` and
  `save_config_function` have no visible body: twd/crud.py:4 imports the
  module itself.
  - The store is an abstract map, and a delete removes the key.
  - The save callback is a call counter.
  - In twd/crud.py a failing `delete_entry` would propagate. The model does
    not cover that.
- Logging (`error_log.error` in twd/screen.py:206) is not modelled.
- Draw calls that reach past the window raise `_curses.error`, and the model
  does not cover that error. The reachable case is the row loop of
  twd/crud.py:178-210: it never cuts a row to the window width, and
  `draw_path` (twd/crud.py:75-90) writes `max_path_len` cells. So one path
  wider than the space left makes every frame raise. The errors the model
  does cover are the ones the frame's own computations raise.
- Screen.Step requires a non-empty view. On an empty view every frame raises
  first, so no key is ever handled there (`Screen.FrameStart`). The
  divisions by zero and the `-1` selection the key code would produce with
  no entries are therefore unreachable and not modelled.
- twd/twd.py, tests/ and setup.py are not part of this model. They are the
  command-line front end, its test and packaging.
- Sorting, path-shortening display modes, mouse selection, alias-prefix
  resolution, alias validation and id generation have no implementation in
  the modelled files and are not modelled.
- Where the design and the code disagree, the model follows the code:
  - `s` keeps the query and does not re-filter.
  - A row too wide for the window is not skipped: the draw call raises (see above).
  - Post-search escape in twd/screen.py keeps the query.
  - Nothing is re-sorted.

## Findings

| source | as written | input that shows it | evidently intended | confidence | as-written member | corrected member |
|---|---|---|---|---|---|---|
| twd/screen.py:98-104 | the column widths take `max` over the view's entries, which raises `ValueError` on an empty view, so every frame of an empty view crashes the picker | in search mode, type a character that no alias contains (or delete the last entry) | fall back to the floor widths 5/4/2 on an empty view, as twd/crud.py:141-144 later does | high (not executed) | ScreenProperties.UnmatchedSearchRaises | Layout.ColumnWidths |
