/** The older interactive picker, `display_select_screen` in twd/screen.py.

    It differs from the current one (module `Crud`) in ways the model keeps:
    the column widths take `max` over the view with no empty-view case, so a
    frame of an empty view raises `ValueError`; the selection is never
    clamped at frame start; there are no column toggles; post-search knows
    only escape, up, down and enter, and escape keeps the query and the
    selection; `q` quits only from browse mode; the row is one string. */
module Screen {
  import opened Text
  import opened Views
  import opened Layout
  import opened Events

  /** The picker's state: the same locals and globals as in the current
      picker, without the column toggles. */
  datatype State = State(
    modes: Modes,
    selected: int,
    preSelectedPath: Option<Str>,
    query: Str,
    dicts: Dicts,
    store: map<Id, Record>)

  /** The selection is an index of the view, or 0 once the view is empty. */
  predicate SelectionInRange(s: State) {
    0 <= s.selected && (s.selected < |s.dicts.view.order| || s.selected == 0)
  }

  /** What stays true across the whole session: the dicts keep their
      invariant, the selection stays in range, it is 0 while searching
      (searching only starts from `s`, which resets it), and confirm mode
      has the delete action. */
  ghost predicate Inv(s: State) {
    && s.dicts.Valid()
    && SelectionInRange(s)
    && (s.modes.search ==> s.selected == 0)
    && (s.modes.confirm ==> s.modes.action == Delete)
  }

  /** `display_select(config, dirs)` and the set-up of `display_select_screen`. */
  function Init(dirs: View, store: map<Id, Record>): (s: State)
    requires dirs.Valid()
    ensures Inv(s) && s.dicts == Dicts(dirs, dirs, true) && s.query == [] && s.selected == 0
    ensures !s.modes.search && !s.modes.postSearch && !s.modes.confirm
  {
    State(Modes(false, false, false, NoAction), 0, None, [], Dicts(dirs, dirs, true), store)
  }

  // ---------------------------------------------------------------------
  // The frame

  /** The column widths as twd/screen.py computes them: `max` of an empty
      generator raises `ValueError`, so only a non-empty view has widths. */
  function ScreenWidths(v: View): (r: Result<Widths>)
    requires v.Valid()
    ensures r.Err? <==> |v.order| == 0
    ensures r.Err? ==> r.error == ValueError
    ensures r.Ok? ==> FitsTightly(v, r.value)
  {
    if |v.order| == 0 then Err(ValueError) else Ok(FlooredWidths(v))
  }

  /** The header line before the cut: ALIAS and ID padded two past their
      widths, PATH padded to its width, then `"  CREATED AT"`. */
  function ScreenFullHeader(w: Widths): Str {
    LJust(Lit("ALIAS"), w.alias + 2) + LJust(Lit("ID"), w.id + 2) + LJust(Lit("PATH"), w.path) + Lit("  CREATED AT")
  }

  /** The header as drawn: cut to the inner width. */
  function ScreenHeader(w: Widths, innerWidth: int): (r: Str)
    ensures IsPrefix(r, ScreenFullHeader(w))
    ensures innerWidth >= 0 ==> |r| == Min(innerWidth, |ScreenFullHeader(w)|)
    ensures innerWidth < 0 ==> |r| == Max(0, |ScreenFullHeader(w)| + innerWidth)
  {
    PyTake(ScreenFullHeader(w), innerWidth)
  }

  /** One row before the cut: alias, id and path padded to their widths,
      then the creation time (`created`, already formatted), two spaces
      between each. */
  function RowText(w: Widths, id: Id, r: Record, created: Str): Str {
    LJust(r.alias, w.alias) + Lit("  ") + LJust(id, w.id) + Lit("  ") + LJust(r.path, w.path) + Lit("  ") + created
  }

  /** One row as drawn: cut to the inner width. */
  function Row(w: Widths, id: Id, r: Record, created: Str, innerWidth: int): (t: Str)
    ensures IsPrefix(t, RowText(w, id, r, created))
    ensures innerWidth >= 0 ==> |t| == Min(innerWidth, |RowText(w, id, r, created)|)
    ensures innerWidth < 0 ==> |t| == Max(0, |RowText(w, id, r, created)| + innerWidth)
  {
    PyTake(RowText(w, id, r, created), innerWidth)
  }

  /** Frame start: the widths raise on an empty view; otherwise the row
      loop remembers the path of the selected row when that row is drawn.
      Nothing else changes: there is no clamping in this version. */
  function FrameStart(s: State, innerHeight: int): (r: Result<State>)
    requires Inv(s)
    ensures r.Err? <==> |s.dicts.view.order| == 0
    ensures r.Err? ==> r.error == ValueError
    ensures r.Ok? ==> r.value == s.(preSelectedPath := r.value.preSelectedPath) && Inv(r.value)
    ensures r.Ok? && RowFits(s.selected, innerHeight) ==> r.value.preSelectedPath == Some(s.dicts.view.At(s.selected).path)
    ensures r.Ok? && !RowFits(s.selected, innerHeight) ==> r.value.preSelectedPath == s.preSelectedPath
  {
    var n := |s.dicts.view.order|;
    if n == 0 then Err(ValueError)
    else Ok(s.(preSelectedPath :=
      if s.selected < VisibleRows(n, innerHeight) then Some(s.dicts.view.At(s.selected).path) else s.preSelectedPath))
  }

  /** The action line: the search prompt, the delete confirmation, the `cd`
      command for the pre-selected path, or nothing at all. On a state a
      frame accepted it cannot raise. */
  function ActionLine(s: State): (r: Option<Prompt>)
    requires Inv(s) && |s.dicts.view.order| > 0
    ensures s.modes.search ==> r == Some(SearchPrompt(s.query))
    ensures !s.modes.search && s.modes.confirm ==>
      r == Some(DeletePrompt(s.dicts.view.At(s.selected).alias, s.dicts.view.At(s.selected).path))
    ensures !s.modes.search && !s.modes.confirm && s.preSelectedPath.Some? && s.preSelectedPath.value != [] ==>
      r == Some(CdCommand(s.preSelectedPath.value))
    ensures r.None? <==> !s.modes.search && !s.modes.confirm && (s.preSelectedPath.None? || s.preSelectedPath.value == [])
  {
    if s.modes.search then Some(SearchPrompt(s.query))
    else if s.modes.confirm && s.modes.action == Delete then
      Some(DeletePrompt(s.dicts.view.At(s.selected).alias, s.dicts.view.At(s.selected).path))
    else if s.preSelectedPath.Some? && |s.preSelectedPath.value| > 0 then Some(CdCommand(s.preSelectedPath.value))
    else None
  }

  // ---------------------------------------------------------------------
  // One key

  datatype Transition = Transition(next: State, outcome: Outcome)

  /** A key in search mode: the same as in the current picker. */
  function SearchKey(s: State, key: int): State
    requires Inv(s)
  {
    if key == KeyEnter then s.(modes := s.modes.(search := false, postSearch := true))
    else if key == KeyBackspace || key == KeyDel then
      s.(query := DropLast(s.query), dicts := Refilter(s.dicts, DropLast(s.query)))
    else match Chr(key)
      case None => s
      case Some(c) => s.(query := s.query + [c], dicts := Refilter(s.dicts, s.query + [c]))
  }

  /** A key in post-search mode; `n` is the view's size when the frame
      started, which the frame guarantees is positive. */
  function PostSearchKey(s: State, key: int): Transition
    requires Inv(s) && |s.dicts.view.order| > 0
  {
    var n := |s.dicts.view.order|;
    if key == KeyQ || key == KeyEsc then
      Transition(s.(dicts := RestoreOriginal(s.dicts), modes := s.modes.(postSearch := false)), Continue)
    else if key == KeyUp || key == KeyK then Transition(s.(selected := Max(0, s.selected - 1)), Continue)
    else if key == KeyDown || key == KeyJ then Transition(s.(selected := Min(n - 1, s.selected + 1)), Continue)
    else if key == KeyEnter then Transition(s, Selected(s.dicts.view.At(s.selected)))
    else Transition(s, Continue)
  }

  /** The confirmed delete: the store loses the id (a missing id raises
      `KeyError` there, which is caught, so the store just stays as it is),
      the view loses the entry whatever happened in the store, and a
      selection past the end moves to the last entry, or 0. */
  function DeleteSelected(s: State): State
    requires Inv(s) && |s.dicts.view.order| > 0
  {
    var id := s.dicts.view.order[s.selected];
    var d := DeleteFromView(s.dicts, s.selected);
    var n := |d.view.order|;
    s.(store := s.store - {id}, dicts := d, selected := if s.selected >= n then Max(n - 1, 0) else s.selected)
  }

  /** A key in confirm mode: enter deletes, every other key (`q` included)
      only cancels. */
  function ConfirmKey(s: State, key: int): State
    requires Inv(s) && |s.dicts.view.order| > 0
  {
    if key == KeyEnter && s.modes.action == Delete then DeleteSelected(s).(modes := s.modes.(confirm := false))
    else s.(modes := s.modes.(confirm := false))
  }

  /** A key in browse mode: moves wrap around, `q` quits. */
  function BrowseKey(s: State, key: int): Transition
    requires Inv(s) && |s.dicts.view.order| > 0
  {
    var n := |s.dicts.view.order|;
    if key == KeyUp || key == KeyK then Transition(s.(selected := PyMod(s.selected - 1, n)), Continue)
    else if key == KeyDown || key == KeyJ then Transition(s.(selected := PyMod(s.selected + 1, n)), Continue)
    else if key == KeyEnter then Transition(s, Selected(s.dicts.view.At(s.selected)))
    else if key == KeyQ then Transition(s, Cancelled)
    else if key == KeyD || key == KeyBackspace then
      Transition(s.(modes := s.modes.(confirm := true, action := Delete)), Continue)
    else if key == KeyS then Transition(s.(modes := s.modes.(search := true), selected := 0), Continue)
    else Transition(s, Continue)
  }

  /** One key, in the source's branch order: search, post-search, confirm,
      browse. A key is only read after a frame, so the view is not empty. */
  function Step(s: State, key: int): (t: Transition)
    requires Inv(s) && |s.dicts.view.order| > 0
    ensures !t.outcome.Continue? ==> t.next == s
  {
    if s.modes.search then Transition(SearchKey(s, key), Continue)
    else if s.modes.postSearch then PostSearchKey(s, key)
    else if s.modes.confirm then Transition(ConfirmKey(s, key), Continue)
    else BrowseKey(s, key)
  }

  /** Every key keeps the session invariant; in particular the selection
      stays an index of the (possibly shrunk or restored) view. */
  lemma StepKeepsInv(s: State, key: int)
    requires Inv(s) && |s.dicts.view.order| > 0
    ensures Inv(Step(s, key).next)
  {
    if !s.modes.search && s.modes.postSearch && (key == KeyQ || key == KeyEsc) {
      SubViewSize(s.dicts.view, s.dicts.original);
    } else if !s.modes.search && !s.modes.postSearch && s.modes.confirm && key == KeyEnter {
      var d := DeleteFromView(s.dicts, s.selected);
    }
  }

  /** The loop over a finite list of inputs. */
  function Session(s: State, inputs: seq<Input>): (e: SessionEnd<State>)
    requires Inv(s)
    ensures Inv(e.state)
    decreases |inputs|
  {
    if inputs == [] then Waiting(s)
    else match FrameStart(s, inputs[0].height - 2)
      case Err(e) => Raised(e, s)
      case Ok(f) =>
        var t := Step(f, inputs[0].key);
        StepKeepsInv(f, inputs[0].key);
        match t.outcome
        case Continue => Session(t.next, inputs[1..])
        case Selected(r) => Returned(Some(r), t.next)
        case Cancelled => Returned(None, t.next)
  }

  /** One turn of `Session`, spelled out. */
  lemma SessionUnfold(s: State, inputs: seq<Input>)
    requires Inv(s) && inputs != []
    ensures
      var f := FrameStart(s, inputs[0].height - 2);
      && (f.Err? ==> Session(s, inputs) == Raised(f.error, s))
      && (f.Ok? ==>
            var t := Step(f.value, inputs[0].key);
            && Inv(t.next)
            && (t.outcome.Continue? ==> Session(s, inputs) == Session(t.next, inputs[1..]))
            && (t.outcome.Selected? ==> Session(s, inputs) == Returned(Some(t.outcome.rec), t.next))
            && (t.outcome.Cancelled? ==> Session(s, inputs) == Returned(None, t.next)))
  {
    var f := FrameStart(s, inputs[0].height - 2);
    if f.Ok? {
      StepKeepsInv(f.value, inputs[0].key);
    }
  }

  /** `SessionUnfold` for inputs given as the first one and the rest. */
  lemma SessionTurn(s: State, input: Input, rest: seq<Input>)
    requires Inv(s)
    ensures
      var f := FrameStart(s, input.height - 2);
      && (f.Err? ==> Session(s, [input] + rest) == Raised(f.error, s))
      && (f.Ok? ==>
            var t := Step(f.value, input.key);
            && Inv(t.next)
            && (t.outcome.Continue? ==> Session(s, [input] + rest) == Session(t.next, rest))
            && (t.outcome.Selected? ==> Session(s, [input] + rest) == Returned(Some(t.outcome.rec), t.next))
            && (t.outcome.Cancelled? ==> Session(s, [input] + rest) == Returned(None, t.next)))
  {
    var inputs := [input] + rest;
    assert inputs[0] == input && inputs[1..] == rest;
    var f := FrameStart(s, input.height - 2);
    if f.Ok? {
      StepKeepsInv(f.value, input.key);
    }
  }

  /** The picker's state held as fields, updated in place. */
  class Picker {
    var modes: Modes
    var selected: int
    var preSelectedPath: Option<Str>
    var query: Str
    var dicts: Dicts
    var store: map<Id, Record>

    function Snapshot(): State
      reads this
    {
      State(modes, selected, preSelectedPath, query, dicts, store)
    }

    ghost predicate Valid()
      reads this
    {
      Inv(Snapshot())
    }

    /** `display_select`: every dict is the caller's. */
    constructor (dirs: View, store: map<Id, Record>)
      requires dirs.Valid()
      ensures Valid()
      ensures Snapshot() == Init(dirs, store)
    {
      modes := Modes(false, false, false, NoAction);
      selected, preSelectedPath, query := 0, None, [];
      dicts := Dicts(dirs, dirs, true);
      this.store := store;
    }

    /** The state-changing part of a frame: the widths (which raise on an
        empty view), then the row loop, which remembers the selected row's
        path. */
    method Frame(innerHeight: int) returns (widths: Result<Widths>)
      requires Valid()
      modifies this
      ensures Valid()
      ensures widths == ScreenWidths(old(dicts.view))
      ensures widths.Err? ==> Snapshot() == old(Snapshot())
      ensures widths.Ok? ==> FrameStart(old(Snapshot()), innerHeight) == Ok(Snapshot())
    {
      widths := ScreenWidths(dicts.view);
      if widths.Err? {
        return;
      }
      ghost var next := FrameStart(Snapshot(), innerHeight).value;
      var drawn;
      drawn, preSelectedPath := WalkRows(dicts.view, selected, preSelectedPath, innerHeight);
      assert Snapshot() == next;
    }

    method HandleSearchKey(key: int)
      requires Valid() && modes.search
      modifies this
      ensures Snapshot() == SearchKey(old(Snapshot()), key)
    {
      if key == KeyEnter {
        modes := modes.(search := false, postSearch := true);
      } else if key == KeyBackspace || key == KeyDel {
        query := DropLast(query);
        dicts := Refilter(dicts, query);
      } else if 0 <= key < 0x11_0000 {
        query := query + [key];
        dicts := Refilter(dicts, query);
      }
    }

    method HandlePostSearchKey(key: int) returns (outcome: Outcome)
      requires Valid() && |dicts.view.order| > 0
      modifies this
      ensures PostSearchKey(old(Snapshot()), key) == Transition(Snapshot(), outcome)
    {
      var n := |dicts.view.order|;
      outcome := Continue;
      if key == KeyQ || key == KeyEsc {
        dicts := RestoreOriginal(dicts);
        modes := modes.(postSearch := false);
      } else if key == KeyUp || key == KeyK {
        selected := Max(0, selected - 1);
      } else if key == KeyDown || key == KeyJ {
        selected := Min(n - 1, selected + 1);
      } else if key == KeyEnter {
        outcome := Selected(dicts.view.recs[dicts.view.order[selected]]);
      }
    }

    method HandleConfirmKey(key: int)
      requires Valid() && |dicts.view.order| > 0
      modifies this
      ensures Snapshot() == ConfirmKey(old(Snapshot()), key)
    {
      if key == KeyEnter && modes.action == Delete {
        var id := dicts.view.order[selected];
        store := store - {id};   // crud.delete_entry(CONFIG, data, id); a KeyError is only logged
        dicts := DeleteFromView(dicts, selected);
        if selected >= |dicts.view.order| {
          selected := Max(|dicts.view.order| - 1, 0);
        }
        modes := modes.(confirm := false);
      } else {
        modes := modes.(confirm := false);
      }
    }

    method HandleBrowseKey(key: int) returns (outcome: Outcome)
      requires Valid() && |dicts.view.order| > 0
      modifies this
      ensures BrowseKey(old(Snapshot()), key) == Transition(Snapshot(), outcome)
    {
      var n := |dicts.view.order|;
      outcome := Continue;
      if key == KeyUp || key == KeyK {
        selected := (selected - 1) % n;
      } else if key == KeyDown || key == KeyJ {
        selected := (selected + 1) % n;
      } else if key == KeyEnter {
        outcome := Selected(dicts.view.recs[dicts.view.order[selected]]);
      } else if key == KeyQ {
        outcome := Cancelled;
      } else if key == KeyD || key == KeyBackspace {
        modes := modes.(confirm := true, action := Delete);
      } else if key == KeyS {
        modes := modes.(search := true);
        selected := 0;
      }
    }

    /** The key-handling half of one turn of the loop. */
    method HandleKey(key: int) returns (outcome: Outcome)
      requires Valid() && |dicts.view.order| > 0
      modifies this
      ensures Valid()
      ensures Step(old(Snapshot()), key) == Transition(Snapshot(), outcome)
    {
      StepKeepsInv(Snapshot(), key);
      if modes.search {
        HandleSearchKey(key);
        outcome := Continue;
      } else if modes.postSearch {
        outcome := HandlePostSearchKey(key);
      } else if modes.confirm {
        HandleConfirmKey(key);
        outcome := Continue;
      } else {
        outcome := HandleBrowseKey(key);
      }
    }

    /** One turn of the loop over `inputs`, whose first element is
        `input`: a frame, then a key. `done` says whether the picker
        stopped, with `end` saying how and in which state; otherwise the
        fields hold the state the key led to, and the run goes on from
        there over the remaining inputs. */
    method Turn(input: Input, ghost inputs: seq<Input>) returns (done: bool, end: SessionEnd<State>)
      requires Valid() && inputs != [] && inputs[0] == input
      modifies this
      ensures Valid()
      ensures done ==> end == Session(old(Snapshot()), inputs) && Snapshot() == end.state
      ensures !done ==> FrameStart(old(Snapshot()), input.height - 2).Ok?
      ensures !done ==> Snapshot() == Step(FrameStart(old(Snapshot()), input.height - 2).value, input.key).next
      ensures !done ==> Session(old(Snapshot()), inputs) == Session(Snapshot(), inputs[1..])
    {
      assert inputs == [input] + inputs[1..];
      SessionTurn(Snapshot(), input, inputs[1..]);
      var widths := Frame(input.height - 2);
      if widths.Err? {
        return true, Raised(widths.error, Snapshot());
      }
      var outcome := HandleKey(input.key);
      match outcome {
        case Selected(r) => return true, Returned(Some(r), Snapshot());
        case Cancelled => return true, Returned(None, Snapshot());
        case Continue => return false, Waiting(Snapshot());
      }
    }

    /** `display_select_screen` over a finite list of inputs; the fields
        are left holding the state the run ends in. */
    method Run(inputs: seq<Input>) returns (end: SessionEnd<State>)
      requires Valid()
      modifies this
      ensures end == Session(old(Snapshot()), inputs)
      ensures Snapshot() == end.state
    {
      ghost var start := Snapshot();
      var i := 0;
      while i < |inputs|
        invariant 0 <= i <= |inputs|
        invariant Valid()
        invariant Session(start, inputs) == Session(Snapshot(), inputs[i..])
      {
        var done;
        done, end := Turn(inputs[i], inputs[i..]);
        assert inputs[i..][1..] == inputs[i + 1..];
        if done {
          return;
        }
        i := i + 1;
      }
      return Waiting(Snapshot());
    }
  }
}
