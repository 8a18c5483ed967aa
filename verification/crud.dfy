/** The current interactive picker, `display_select_screen` in twd/crud.py.

    The loop's state is the `State` value below. `Normalise` is what a frame
    does to it before the key is read (clamp the selection, remember the
    path of the selected visible row), `ActionLine` is the bottom line the
    frame draws (the only part of the modelled frame that can raise; draw
    calls that run past the window are not modelled), and `Step` is
    the handling of one key. `Session` strings these together over a list of
    inputs. The `Picker` class holds the same state as fields and its
    methods are proved to do exactly what these functions say. */
module Crud {
  import opened Text
  import opened Views
  import opened Layout
  import opened Events

  /** The two keys of the `CONFIG` dict the picker writes; `None` is a key
      that is absent. */
  datatype Config = Config(showIdColumn: Option<bool>, showCreatedColumn: Option<bool>)

  /** `CONFIG.get(key, True)`. */
  function GetOrTrue(b: Option<bool>): bool {
    if b.Some? then b.value else true
  }

  /** The column toggles, the CONFIG dict they are written to, whether a
      save callback was passed, and how often it has been called. */
  datatype Toggles = Toggles(showId: bool, showCreated: bool, config: Config, hasSaveCallback: bool, saveCalls: nat)

  /** The picker's state. `selected` is `selected_entry`, `query` the global
      `search_query`, `store` the persisted bookmarks that `delete_entry`
      removes from. */
  datatype State = State(
    modes: Modes,
    selected: int,
    preSelectedPath: Option<Str>,
    query: Str,
    dicts: Dicts,
    toggles: Toggles,
    store: map<Id, Record>)

  /** What stays true across the whole session: the dicts keep their
      invariant and confirm mode always has the delete action. */
  ghost predicate Inv(s: State) {
    && s.dicts.Valid()
    && (s.modes.confirm ==> s.modes.action == Delete)
  }

  /** The selection after a frame: a valid index, or 0 on an empty view. */
  predicate Normalised(s: State) {
    if |s.dicts.view.order| == 0 then s.selected == 0 else 0 <= s.selected < |s.dicts.view.order|
  }

  /** `display_select(config, dirs, save_config_func)` followed by the
      set-up at the top of `display_select_screen`. */
  function Init(config: Config, dirs: View, hasSaveCallback: bool, store: map<Id, Record>): (s: State)
    requires dirs.Valid()
    ensures Inv(s) && s.dicts.shared && s.dicts.view == dirs && s.dicts.original == dirs && s.query == []
    ensures !s.modes.search && !s.modes.postSearch && !s.modes.confirm && s.selected == 0
    ensures s.toggles.showId == GetOrTrue(config.showIdColumn) && s.toggles.showCreated == GetOrTrue(config.showCreatedColumn)
    ensures s.toggles.saveCalls == 0
  {
    State(Modes(false, false, false, NoAction), 0, None, [], Dicts(dirs, dirs, true),
          Toggles(GetOrTrue(config.showIdColumn), GetOrTrue(config.showCreatedColumn), config, hasSaveCallback, 0),
          store)
  }

  /** `sel` moved into `[0, n-1]`: too large becomes `n - 1`, negative 0. */
  function ClampIndex(sel: int, n: int): (r: int)
    requires n > 0
    ensures 0 <= r < n
    ensures 0 <= sel < n ==> r == sel
    ensures sel >= n ==> r == n - 1
    ensures sel < 0 ==> r == 0
  {
    var c := if sel >= n then n - 1 else sel;
    if c < 0 && n > 0 then 0 else c
  }

  /** Frame start: clamp the selection into the view (0 when empty, which
      also forgets the pre-selected path) and, when the selected row is one
      of the rows that fit on screen, remember its path. */
  function Normalise(s: State, innerHeight: int): (r: State)
    requires Inv(s)
    ensures Normalised(r)
    ensures r == s.(selected := r.selected, preSelectedPath := r.preSelectedPath)
  {
    var n := |s.dicts.view.order|;
    if n == 0 then s.(selected := 0, preSelectedPath := None)
    else
      var sel := ClampIndex(s.selected, n);
      s.(selected := sel,
         preSelectedPath := if sel < VisibleRows(n, innerHeight) then Some(s.dicts.view.At(sel).path) else s.preSelectedPath)
  }

  /** The action line of a frame. The delete confirmation indexes the view
      at the selection, which raises `IndexError` on an empty view. */
  function ActionLine(s: State, innerWidth: int): (r: Result<Prompt>)
    requires Inv(s) && Normalised(s)
    ensures r.Err? <==> !s.modes.search && s.modes.confirm && |s.dicts.view.order| == 0
    ensures r.Err? ==> r.error == IndexError
    ensures s.modes.search ==> r == Ok(SearchPrompt(s.query))
    ensures !s.modes.search && s.modes.confirm && |s.dicts.view.order| > 0 ==>
      r == Ok(DeletePrompt(s.dicts.view.At(s.selected).alias, s.dicts.view.At(s.selected).path))
    ensures !s.modes.search && !s.modes.confirm && s.preSelectedPath.Some? && s.preSelectedPath.value != [] ==>
      r == Ok(CdCommand(s.preSelectedPath.value))
    ensures !s.modes.search && !s.modes.confirm && (s.preSelectedPath.None? || s.preSelectedPath.value == []) ==>
      r == Ok(Blank(Max(0, innerWidth - 2)))
  {
    if s.modes.search then Ok(SearchPrompt(s.query))
    else if s.modes.confirm && s.modes.action == Delete then
      if |s.dicts.view.order| == 0 then Err(IndexError)
      else Ok(DeletePrompt(s.dicts.view.At(s.selected).alias, s.dicts.view.At(s.selected).path))
    else if s.preSelectedPath.Some? && |s.preSelectedPath.value| > 0 then Ok(CdCommand(s.preSelectedPath.value))
    else Ok(Blank(Max(0, innerWidth - 2)))
  }

  /** The next state and what the key ends in. */
  datatype Transition = Transition(next: State, outcome: Outcome)

  /** `n`: flip the ID column, write it to CONFIG, call the save callback. */
  function ToggleId(t: Toggles): Toggles {
    t.(showId := !t.showId,
       config := t.config.(showIdColumn := Some(!t.showId)),
       saveCalls := t.saveCalls + if t.hasSaveCallback then 1 else 0)
  }

  /** `t`: the same for the CREATED AT column. */
  function ToggleCreated(t: Toggles): Toggles {
    t.(showCreated := !t.showCreated,
       config := t.config.(showCreatedColumn := Some(!t.showCreated)),
       saveCalls := t.saveCalls + if t.hasSaveCallback then 1 else 0)
  }

  /** A key in search mode: enter commits, backspace drops a character,
      any code point extends the query; the view is filtered again. */
  function SearchKey(s: State, key: int): State
    requires Inv(s)
  {
    if key == KeyEnter then s.(modes := s.modes.(search := false, postSearch := true))
    else if key == KeyBackspace || key == KeyDel then
      s.(query := DropLast(s.query), dicts := Refilter(s.dicts, DropLast(s.query)))
    else match Chr(key)
      case None => s
      case Some(c) => s.(query := s.query + [c], dicts := Refilter(s.dicts, s.query + [c]))
  }

  /** `q` or escape in post-search: back to the original view, with the
      query cleared and the first entry selected. */
  function LeavePostSearch(s: State): State
    requires Inv(s)
  {
    s.(dicts := RestoreOriginal(s.dicts), modes := s.modes.(postSearch := false), query := [], selected := 0)
  }

  /** Marks the selected entry for deletion, when there is one. */
  function AskDelete(s: State): State {
    if |s.dicts.view.order| > 0 then s.(modes := s.modes.(confirm := true, action := Delete)) else s
  }

  /** Enter: the selected record, when the view is not empty. */
  function Choose(s: State): Transition
    requires Inv(s) && Normalised(s)
  {
    if |s.dicts.view.order| > 0 then Transition(s, Selected(s.dicts.view.At(s.selected))) else Transition(s, Continue)
  }

  /** A key in post-search mode: moves clamp at both ends. */
  function PostSearchKey(s: State, key: int): Transition
    requires Inv(s) && Normalised(s)
  {
    var n := |s.dicts.view.order|;
    if key == KeyQ || key == KeyEsc then Transition(LeavePostSearch(s), Continue)
    else if key == KeyUp || key == KeyK then
      Transition(if n > 0 then s.(selected := Max(0, s.selected - 1)) else s, Continue)
    else if key == KeyDown || key == KeyJ then
      Transition(if n > 0 then s.(selected := Min(n - 1, s.selected + 1)) else s, Continue)
    else if key == KeyEnter then Choose(s)
    else if key == KeyD || key == KeyBackspace then Transition(AskDelete(s), Continue)
    else if key == KeyS then
      Transition(s.(modes := s.modes.(search := true, postSearch := false), selected := 0), Continue)
    else Transition(s, Continue)
  }

  /** The confirmed delete of the selected entry: from the store and from
      the dicts; then the selection is clamped to the shorter view. */
  function DeleteSelected(s: State): State
    requires Inv(s) && 0 <= s.selected < |s.dicts.view.order|
  {
    var id := s.dicts.view.order[s.selected];
    var d := DeleteFromView(s.dicts, s.selected);
    var n := |d.view.order|;
    var sel := if s.selected >= n && n > 0 then n - 1 else if n == 0 then 0 else s.selected;
    s.(store := s.store - {id}, dicts := d, selected := sel)
  }

  /** A key in confirm mode: enter deletes the selected entry (when there is
      one); every key clears the flag. */
  function ConfirmKey(s: State, key: int): State
    requires Inv(s) && Normalised(s)
  {
    if key == KeyEnter && s.modes.action == Delete && |s.dicts.view.order| > 0 then
      DeleteSelected(s).(modes := s.modes.(confirm := false))
    else s.(modes := s.modes.(confirm := false))
  }

  /** A key in browse mode: moves wrap around. */
  function BrowseKey(s: State, key: int): Transition
    requires Inv(s) && Normalised(s)
  {
    var n := |s.dicts.view.order|;
    if key == KeyUp || key == KeyK then
      Transition(if n > 0 then s.(selected := PyMod(s.selected - 1, n)) else s, Continue)
    else if key == KeyDown || key == KeyJ then
      Transition(if n > 0 then s.(selected := PyMod(s.selected + 1, n)) else s, Continue)
    else if key == KeyEnter then Choose(s)
    else if key == KeyD || key == KeyBackspace then Transition(AskDelete(s), Continue)
    else if key == KeyS then
      Transition(s.(modes := s.modes.(search := true), selected := 0), Continue)
    else Transition(s, Continue)
  }

  /** One key, in the source's branch order: column toggles (not while
      searching), quit on `q` (not while searching or post-searching), then
      search, post-search, confirm and browse. */
  function Step(s: State, key: int): (t: Transition)
    requires Inv(s) && Normalised(s)
    ensures !t.outcome.Continue? ==> t.next == s
  {
    if !s.modes.search && key == KeyN then Transition(s.(toggles := ToggleId(s.toggles)), Continue)
    else if !s.modes.search && key == KeyT then Transition(s.(toggles := ToggleCreated(s.toggles)), Continue)
    else if key == KeyQ && !s.modes.search && !s.modes.postSearch then Transition(s, Cancelled)
    else if s.modes.search then Transition(SearchKey(s, key), Continue)
    else if s.modes.postSearch then PostSearchKey(s, key)
    else if s.modes.confirm then Transition(ConfirmKey(s, key), Continue)
    else BrowseKey(s, key)
  }

  /** Every key keeps the session invariant. */
  lemma StepKeepsInv(s: State, key: int)
    requires Inv(s) && Normalised(s)
    ensures Inv(Step(s, key).next)
  {
    if s.modes.confirm && !s.modes.search && !s.modes.postSearch && key == KeyEnter && |s.dicts.view.order| > 0 {
      var d := DeleteFromView(s.dicts, s.selected);
    }
  }

  /** The `while running` loop over a finite list of inputs: each turn draws
      a frame (which may raise) and then handles the key. */
  function Session(s: State, inputs: seq<Input>): (e: SessionEnd<State>)
    requires Inv(s)
    ensures Inv(e.state)
    decreases |inputs|
  {
    if inputs == [] then Waiting(s)
    else
      var f := Normalise(s, inputs[0].height - 2);
      match ActionLine(f, inputs[0].width - 2)
      case Err(e) => Raised(e, f)
      case Ok(_) =>
        var t := Step(f, inputs[0].key);
        StepKeepsInv(f, inputs[0].key);
        match t.outcome
        case Continue => Session(t.next, inputs[1..])
        case Selected(r) => Returned(Some(r), t.next)
        case Cancelled => Returned(None, t.next)
  }

  /** One turn of `Session`, spelled out. */
  lemma SessionUnfold(s: State, inputs: seq<Input>)
    requires Inv(s) && inputs != []
    ensures
      var f := Normalise(s, inputs[0].height - 2);
      var line := ActionLine(f, inputs[0].width - 2);
      && (line.Err? ==> Session(s, inputs) == Raised(line.error, f))
      && (line.Ok? ==>
            var t := Step(f, inputs[0].key);
            && Inv(t.next)
            && (t.outcome.Continue? ==> Session(s, inputs) == Session(t.next, inputs[1..]))
            && (t.outcome.Selected? ==> Session(s, inputs) == Returned(Some(t.outcome.rec), t.next))
            && (t.outcome.Cancelled? ==> Session(s, inputs) == Returned(None, t.next)))
  {
    StepKeepsInv(Normalise(s, inputs[0].height - 2), inputs[0].key);
  }

  /** `SessionUnfold` for inputs given as the first one and the rest. */
  lemma SessionTurn(s: State, input: Input, rest: seq<Input>)
    requires Inv(s)
    ensures
      var f := Normalise(s, input.height - 2);
      var line := ActionLine(f, input.width - 2);
      && (line.Err? ==> Session(s, [input] + rest) == Raised(line.error, f))
      && (line.Ok? ==>
            var t := Step(f, input.key);
            && Inv(t.next)
            && (t.outcome.Continue? ==> Session(s, [input] + rest) == Session(t.next, rest))
            && (t.outcome.Selected? ==> Session(s, [input] + rest) == Returned(Some(t.outcome.rec), t.next))
            && (t.outcome.Cancelled? ==> Session(s, [input] + rest) == Returned(None, t.next)))
  {
    var inputs := [input] + rest;
    assert inputs[0] == input && inputs[1..] == rest;
    StepKeepsInv(Normalise(s, input.height - 2), input.key);
  }

  /** The picker's state held as fields, updated in place as the source
      updates its locals and module globals. */
  class Picker {
    var modes: Modes
    var selected: int
    var preSelectedPath: Option<Str>
    var query: Str
    var dicts: Dicts
    var toggles: Toggles
    var store: map<Id, Record>

    function Snapshot(): State
      reads this
    {
      State(modes, selected, preSelectedPath, query, dicts, toggles, store)
    }

    ghost predicate Valid()
      reads this
    {
      Inv(Snapshot())
    }

    /** `display_select`: every dict is the caller's. */
    constructor (config: Config, dirs: View, hasSaveCallback: bool, store: map<Id, Record>)
      requires dirs.Valid()
      ensures Valid()
      ensures Snapshot() == Init(config, dirs, hasSaveCallback, store)
    {
      modes := Modes(false, false, false, NoAction);
      selected, preSelectedPath, query := 0, None, [];
      dicts := Dicts(dirs, dirs, true);
      toggles := Toggles(GetOrTrue(config.showIdColumn), GetOrTrue(config.showCreatedColumn), config, hasSaveCallback, 0);
      this.store := store;
    }

    /** The state-changing part of a frame: clamp the selection, then walk
        the rows that fit, remembering the selected row's path. Returns the
        number of rows drawn. */
    method Frame(innerHeight: int) returns (drawn: nat)
      requires Valid()
      modifies this
      ensures Valid()
      ensures Snapshot() == Normalise(old(Snapshot()), innerHeight)
      ensures drawn == VisibleRows(|dicts.view.order|, innerHeight)
    {
      var n := |dicts.view.order|;
      if n == 0 {
        selected := 0;
        preSelectedPath := None;
        return 0;
      }
      if selected >= n {
        selected := n - 1;
      }
      if selected < 0 && n > 0 {
        selected := 0;
      }
      drawn, preSelectedPath := WalkRows(dicts.view, selected, preSelectedPath, innerHeight);
    }

    method ToggleIdColumn()
      modifies this
      ensures Snapshot() == old(Snapshot()).(toggles := ToggleId(old(toggles)))
    {
      var show := !toggles.showId;
      toggles := toggles.(showId := show, config := toggles.config.(showIdColumn := Some(show)));
      if toggles.hasSaveCallback {
        toggles := toggles.(saveCalls := toggles.saveCalls + 1);   // save_config_function(CONFIG)
      }
    }

    method ToggleCreatedColumn()
      modifies this
      ensures Snapshot() == old(Snapshot()).(toggles := ToggleCreated(old(toggles)))
    {
      var show := !toggles.showCreated;
      toggles := toggles.(showCreated := show, config := toggles.config.(showCreatedColumn := Some(show)));
      if toggles.hasSaveCallback {
        toggles := toggles.(saveCalls := toggles.saveCalls + 1);   // save_config_function(CONFIG)
      }
    }

    /** `filter_dirs_by_search(search_query)`. */
    method FilterBySearch()
      requires Valid()
      modifies this
      ensures Snapshot() == old(Snapshot()).(dicts := Refilter(old(dicts), old(query)))
    {
      dicts := Refilter(dicts, query);
    }

    method HandleSearchKey(key: int)
      requires Valid() && modes.search
      modifies this
      ensures Snapshot() == SearchKey(old(Snapshot()), key)
    {
      if key == KeyEnter {
        modes := modes.(search := false, postSearch := true);
      } else if key == KeyBackspace || key == KeyDel {
        query := DropLast(query);
        FilterBySearch();
      } else if 0 <= key < 0x11_0000 {
        query := query + [key];
        FilterBySearch();
      }
    }

    method LeavePostSearchMode()
      requires Valid()
      modifies this
      ensures Snapshot() == LeavePostSearch(old(Snapshot()))
    {
      dicts := RestoreOriginal(dicts);
      modes := modes.(postSearch := false);
      query := [];
      selected := 0;
    }

    method HandlePostSearchKey(key: int) returns (outcome: Outcome)
      requires Valid() && Normalised(Snapshot())
      modifies this
      ensures PostSearchKey(old(Snapshot()), key) == Transition(Snapshot(), outcome)
    {
      var n := |dicts.view.order|;
      outcome := Continue;
      if key == KeyQ || key == KeyEsc {
        LeavePostSearchMode();
      } else if key == KeyUp || key == KeyK {
        if n > 0 {
          selected := Max(0, selected - 1);
        }
      } else if key == KeyDown || key == KeyJ {
        if n > 0 {
          selected := Min(n - 1, selected + 1);
        }
      } else if key == KeyEnter {
        if n > 0 {
          outcome := Selected(dicts.view.recs[dicts.view.order[selected]]);
        }
      } else if key == KeyD || key == KeyBackspace {
        if n > 0 {
          modes := modes.(confirm := true, action := Delete);
        }
      } else if key == KeyS {
        modes := modes.(search := true, postSearch := false);
        selected := 0;
      }
    }

    method DeleteSelectedEntry()
      requires Valid() && 0 <= selected < |dicts.view.order|
      modifies this
      ensures Snapshot() == DeleteSelected(old(Snapshot()))
    {
      var id := dicts.view.order[selected];
      store := store - {id};   // crud.delete_entry(CONFIG, crud.load_data(CONFIG), id)
      dicts := DeleteFromView(dicts, selected);
      var n := |dicts.view.order|;
      if selected >= n && n > 0 {
        selected := n - 1;
      } else if n == 0 {
        selected := 0;
      }
    }

    method HandleConfirmKey(key: int)
      requires Valid() && Normalised(Snapshot())
      modifies this
      ensures Snapshot() == ConfirmKey(old(Snapshot()), key)
    {
      if key == KeyEnter && modes.action == Delete {
        if |dicts.view.order| > 0 {
          DeleteSelectedEntry();
        }
        modes := modes.(confirm := false);
      } else {
        modes := modes.(confirm := false);
      }
    }

    method HandleBrowseKey(key: int) returns (outcome: Outcome)
      requires Valid() && Normalised(Snapshot())
      modifies this
      ensures BrowseKey(old(Snapshot()), key) == Transition(Snapshot(), outcome)
    {
      var n := |dicts.view.order|;
      outcome := Continue;
      if key == KeyUp || key == KeyK {
        if n > 0 {
          selected := (selected - 1) % n;
        }
      } else if key == KeyDown || key == KeyJ {
        if n > 0 {
          selected := (selected + 1) % n;
        }
      } else if key == KeyEnter {
        if n > 0 {
          outcome := Selected(dicts.view.recs[dicts.view.order[selected]]);
        }
      } else if key == KeyD || key == KeyBackspace {
        if n > 0 {
          modes := modes.(confirm := true, action := Delete);
        }
      } else if key == KeyS {
        modes := modes.(search := true);
        selected := 0;
      }
    }

    /** The key-handling half of one turn of the loop. */
    method HandleKey(key: int) returns (outcome: Outcome)
      requires Valid() && Normalised(Snapshot())
      modifies this
      ensures Valid()
      ensures Step(old(Snapshot()), key) == Transition(Snapshot(), outcome)
    {
      StepKeepsInv(Snapshot(), key);
      if !modes.search {
        if key == KeyN {
          ToggleIdColumn();
          return Continue;
        } else if key == KeyT {
          ToggleCreatedColumn();
          return Continue;
        }
      }
      if key == KeyQ && !modes.search && !modes.postSearch {
        return Cancelled;
      }
      if modes.search {
        HandleSearchKey(key);
        outcome := Continue;
      } else if modes.postSearch {
        outcome := HandlePostSearchKey(key);
      } else if modes.confirm {
        HandleConfirmKey(key);
        outcome := Continue;
      } else {
        outcome := HandleBrowseKey(key);
      }
    }

    /** One turn of the loop over `inputs`, whose first element is
        `input`: a frame (which may raise), then a key. `done` says whether
        the picker stopped, with `end` saying how and in which state;
        otherwise the fields hold the state the key led to, and the run
        goes on from there over the remaining inputs. */
    method Turn(input: Input, ghost inputs: seq<Input>) returns (done: bool, end: SessionEnd<State>)
      requires Valid() && inputs != [] && inputs[0] == input
      modifies this
      ensures Valid()
      ensures done ==> end == Session(old(Snapshot()), inputs) && Snapshot() == end.state
      ensures !done ==> Snapshot() == Step(Normalise(old(Snapshot()), input.height - 2), input.key).next
      ensures !done ==> Session(old(Snapshot()), inputs) == Session(Snapshot(), inputs[1..])
    {
      assert inputs == [input] + inputs[1..];
      SessionTurn(Snapshot(), input, inputs[1..]);
      var drawn := Frame(input.height - 2);
      var line := ActionLine(Snapshot(), input.width - 2);
      if line.Err? {
        return true, Raised(line.error, Snapshot());
      }
      var outcome := HandleKey(input.key);
      match outcome {
        case Selected(r) => return true, Returned(Some(r), Snapshot());
        case Cancelled => return true, Returned(None, Snapshot());
        case Continue => return false, Waiting(Snapshot());
      }
    }

    /** `display_select_screen` over a finite list of inputs; the fields
        are left holding the state the run ends in. */
    method Run(inputs: seq<Input>) returns (end: SessionEnd<State>)
      requires Valid()
      modifies this
      ensures end == Session(old(Snapshot()), inputs)
      ensures Snapshot() == end.state
    {
      ghost var start := Snapshot();
      var i := 0;
      while i < |inputs|
        invariant 0 <= i <= |inputs|
        invariant Valid()
        invariant Session(start, inputs) == Session(Snapshot(), inputs[i..])
      {
        var done;
        done, end := Turn(inputs[i], inputs[i..]);
        assert inputs[i..][1..] == inputs[i + 1..];
        if done {
          return;
        }
        i := i + 1;
      }
      return Waiting(Snapshot());
    }
  }
}
