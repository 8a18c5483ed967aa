/** What the older picker (twd/screen.py) promises, stated over `Screen.Step`,
    `Screen.FrameStart` and `Screen.Session`, and how its layout relates to
    the current picker's. */
module ScreenProperties {
  import opened Text
  import opened Views
  import opened Layout
  import opened Events
  import opened Screen

  // ---------------------------------------------------------------------
  // Layout

  /** On a non-empty view the widths agree with the current picker's; on an
      empty one they raise where the current picker falls back to the floors. */
  lemma WidthsAgreeWithCurrent(v: View)
    requires v.Valid()
    ensures |v.order| > 0 ==> ScreenWidths(v) == Ok(ColumnWidths(v))
    ensures |v.order| == 0 ==> ScreenWidths(v) == Err(ValueError) && ColumnWidths(v) == Widths(5, 4, 2)
  {
  }

  /** The header is the current picker's header with both optional columns
      shown, so its titles line up with the rows in the same way. */
  lemma HeaderMatchesCurrent(w: Widths)
    requires w.alias >= 5 && w.path >= 4 && w.id >= 2
    ensures ScreenFullHeader(w) == FullHeader(w, true, true)
  {
    var sep, a, i, p := Lit("  "), LJust(Lit("ALIAS"), w.alias), LJust(Lit("ID"), w.id), LJust(Lit("PATH"), w.path);
    var created := Lit("CREATED AT");
    assert LJust(Lit("ALIAS"), w.alias + 2) == a + sep by {
      LJustWiden(Lit("ALIAS"), w.alias, 2);
      assert Spaces(2) == sep;
    }
    assert LJust(Lit("ID"), w.id + 2) == i + sep by {
      LJustWiden(Lit("ID"), w.id, 2);
      assert Spaces(2) == sep;
    }
    assert Lit("  CREATED AT") == sep + created;
    HeaderUnfold(w, true, true);
    assert HeaderHead(w, true) + HeaderTail(w, true) == (a + sep) + (i + sep) + p + (sep + created);
  }

  /** Two fields, each followed by two spaces: the second starts right
      after the first and its separator. */
  lemma HeadFieldsAt(a: Str, i: Str, x: Str, y: Str)
    requires At(a, 0, x) && At(i, 0, y)
    ensures var h := a + Lit("  ") + i + Lit("  ");
      && At(h, 0, x) && At(h, |a| + 2, y) && |h| == |a| + |i| + 4
  {
    var sep := Lit("  ");
    AtExtend(a, sep + i + sep, 0, x);
    assert a + (sep + i + sep) == a + sep + i + sep;
    AtConcat(a + sep, i, 0, y);
    AtExtend(a + sep + i, sep, |a| + 2, y);
  }

  /** A field, two spaces, then the last field. */
  lemma TailFieldsAt(p: Str, c: Str, z: Str)
    requires At(p, 0, z)
    ensures var t := p + Lit("  ") + c;
      && At(t, 0, z) && At(t, |p| + 2, c) && |t| == |p| + 2 + |c|
  {
    var sep := Lit("  ");
    AtExtend(p, sep + c, 0, z);
    assert p + (sep + c) == p + sep + c;
    assert (p + sep + c)[|p| + 2..] == c;
  }

  /** Four fields joined by two-space separators: each field starts right
      after the previous one and its separator. */
  lemma JoinedFieldsAt(a: Str, i: Str, p: Str, c: Str, x: Str, y: Str, z: Str)
    requires At(a, 0, x) && At(i, 0, y) && At(p, 0, z)
    ensures var t := a + Lit("  ") + i + Lit("  ") + p + Lit("  ") + c;
      && At(t, 0, x)
      && At(t, |a| + 2, y)
      && At(t, |a| + |i| + 4, z)
      && At(t, |a| + |i| + |p| + 6, c)
      && |t| == |a| + |i| + |p| + 6 + |c|
  {
    var sep := Lit("  ");
    var head := a + sep + i + sep;
    var tail := p + sep + c;
    assert a + sep + i + sep + p + sep + c == head + tail;
    HeadFieldsAt(a, i, x, y);
    TailFieldsAt(p, c, z);
    AtExtend(head, tail, 0, x);
    AtExtend(head, tail, |a| + 2, y);
    AtConcat(head, tail, 0, z);
    AtConcat(head, tail, |p| + 2, c);
  }

  /** A padded field starts with the field itself. */
  lemma LJustAt(s: Str, w: int)
    requires |s| <= w
    ensures At(LJust(s, w), 0, s) && |LJust(s, w)| == w
  {
  }

  /** Each field of a row starts where its column starts, the same offsets
      at which the header puts the column titles. */
  lemma RowAligned(w: Widths, id: Id, r: Record, created: Str)
    requires |r.alias| <= w.alias && |id| <= w.id && |r.path| <= w.path
    ensures var t, c := RowText(w, id, r, created), ColumnStarts(w, true);
      && At(t, 0, r.alias)
      && At(t, c.idX, id)
      && At(t, c.pathX, r.path)
      && At(t, c.createdX, created)
      && |t| == c.createdX + |created|
  {
    LJustAt(r.alias, w.alias);
    LJustAt(id, w.id);
    LJustAt(r.path, w.path);
    JoinedFieldsAt(LJust(r.alias, w.alias), LJust(id, w.id), LJust(r.path, w.path), created, r.alias, id, r.path);
  }

  // ---------------------------------------------------------------------
  // Moving the selection

  /** Browse mode: up and down wrap around the ends. */
  lemma BrowseMovesWrap(s: State, key: int)
    requires Inv(s) && |s.dicts.view.order| > 0 && s.modes.Browsing()
    requires key == KeyUp || key == KeyK || key == KeyDown || key == KeyJ
    ensures var t := Step(s, key); var n := |s.dicts.view.order|;
      && t.outcome == Continue
      && t.next == s.(selected := t.next.selected)
      && ((key == KeyUp || key == KeyK) ==> t.next.selected == if s.selected == 0 then n - 1 else s.selected - 1)
      && ((key == KeyDown || key == KeyJ) ==> t.next.selected == if s.selected == n - 1 then 0 else s.selected + 1)
  {
  }

  /** Post-search mode: up and down stop at the ends. */
  lemma PostSearchMovesClamp(s: State, key: int)
    requires Inv(s) && |s.dicts.view.order| > 0 && s.modes.PostSearching()
    requires key == KeyUp || key == KeyK || key == KeyDown || key == KeyJ
    ensures var t := Step(s, key); var n := |s.dicts.view.order|;
      && t.outcome == Continue
      && t.next == s.(selected := t.next.selected)
      && ((key == KeyUp || key == KeyK) ==> t.next.selected == if s.selected == 0 then 0 else s.selected - 1)
      && ((key == KeyDown || key == KeyJ) ==> t.next.selected == if s.selected == n - 1 then n - 1 else s.selected + 1)
  {
  }

  // ---------------------------------------------------------------------
  // Modes

  /** `q` or escape in post-search restores the original view and leaves
      post-search, but keeps the query and the selection. */
  lemma PostSearchEscapeKeepsQuery(s: State, key: int)
    requires Inv(s) && |s.dicts.view.order| > 0 && s.modes.PostSearching() && (key == KeyQ || key == KeyEsc)
    ensures var t := Step(s, key);
      && t.outcome == Continue
      && t.next.dicts == Dicts(s.dicts.original, s.dicts.original, true)
      && t.next.modes == s.modes.(postSearch := false)
      && t.next.query == s.query && t.next.selected == s.selected && t.next.store == s.store
  {
  }

  /** Enter in search mode commits to post-search without touching the view. */
  lemma SearchEnterCommits(s: State)
    requires Inv(s) && |s.dicts.view.order| > 0 && s.modes.search
    ensures Step(s, KeyEnter) == Transition(s.(modes := s.modes.(search := false, postSearch := true)), Continue)
  {
  }

  /** Any other key in search mode edits the query (backspace drops its
      last character, a code point is appended, anything else is ignored)
      and filters `DIRS` again; the selection, the pre-selected path, the
      modes and the store stay. */
  lemma SearchKeyEditsQuery(s: State, key: int)
    requires Inv(s) && |s.dicts.view.order| > 0 && s.modes.search && key != KeyEnter
    ensures var t := Step(s, key);
      && t.outcome == Continue
      && t.next == s.(query := t.next.query, dicts := t.next.dicts)
      && t.next.dicts.original == s.dicts.original
      && (key == KeyBackspace || key == KeyDel ==> t.next.query == DropLast(s.query))
      && (key != KeyBackspace && key != KeyDel && 0 <= key < 0x11_0000 ==> t.next.query == s.query + [key])
      && (key != KeyBackspace && key != KeyDel && !(0 <= key < 0x11_0000) ==> t.next == s)
      && (t.next != s ==> t.next.dicts == Refilter(s.dicts, t.next.query))
      && (t.next != s ==> t.next.dicts.view == FilterByAlias(s.dicts.original, t.next.query))
  {
  }

  /** `s` in browse mode starts a search at the first entry; the query and
      the view are left as they are. */
  lemma BrowseSearchResets(s: State)
    requires Inv(s) && |s.dicts.view.order| > 0 && s.modes.Browsing()
    ensures Step(s, KeyS) == Transition(s.(modes := s.modes.(search := true), selected := 0), Continue)
  {
  }

  /** Enter in browse or post-search mode returns the selected record. */
  lemma EnterSelects(s: State)
    requires Inv(s) && |s.dicts.view.order| > 0 && !s.modes.search && (s.modes.postSearch || !s.modes.confirm)
    ensures Step(s, KeyEnter) == Transition(s, Selected(s.dicts.view.recs[s.dicts.view.order[s.selected]]))
  {
  }

  /** Only `q` in browse mode quits; in confirm mode it merely cancels. */
  lemma QuitOnlyFromBrowse(s: State, key: int)
    requires Inv(s) && |s.dicts.view.order| > 0
    ensures Step(s, key).outcome.Cancelled? <==> s.modes.Browsing() && key == KeyQ
  {
  }

  // ---------------------------------------------------------------------
  // Confirming a delete

  /** Enter in confirm mode deletes exactly the selected entry from the
      view, keeping the others in order, removes the id from the store if
      it is there, moves a selection that fell off the end to the last
      entry (or 0) and clears the flag. */
  lemma ConfirmedDelete(s: State)
    requires Inv(s) && |s.dicts.view.order| > 0 && s.modes.Confirming()
    ensures var t := Step(s, KeyEnter); var v := s.dicts.view; var id := v.order[s.selected];
      var w := t.next.dicts.view;
      && t.outcome == Continue
      && w.order == v.order[..s.selected] + v.order[s.selected + 1..]
      && id !in w.recs
      && (forall k :: k in v.recs && k != id ==> k in w.recs && w.recs[k] == v.recs[k])
      && (id in s.store ==> t.next.store == s.store - {id})
      && (id !in s.store ==> t.next.store == s.store)
      && t.next.selected == (if s.selected < |w.order| then s.selected else Max(|w.order| - 1, 0))
      && t.next == s.(modes := s.modes.(confirm := false), dicts := t.next.dicts, store := t.next.store,
                      selected := t.next.selected)
  {
    assert Step(s, KeyEnter) == Transition(DeleteSelected(s).(modes := s.modes.(confirm := false)), Continue);
    DeleteSelectedRemovesEntry(s);
  }

  /** The delete itself: the view loses the selected entry and nothing
      else, the store loses its id, and the selection is moved back into
      the shorter view. */
  lemma DeleteSelectedRemovesEntry(s: State)
    requires Inv(s) && |s.dicts.view.order| > 0
    ensures var r := DeleteSelected(s); var v := s.dicts.view; var id := v.order[s.selected];
      var w := r.dicts.view;
      && w.order == v.order[..s.selected] + v.order[s.selected + 1..]
      && id !in w.recs
      && (forall k :: k in v.recs && k != id ==> k in w.recs && w.recs[k] == v.recs[k])
      && (id in s.store ==> r.store == s.store - {id})
      && (id !in s.store ==> r.store == s.store)
      && r.selected == (if s.selected < |w.order| then s.selected else Max(|w.order| - 1, 0))
      && r == s.(dicts := r.dicts, store := r.store, selected := r.selected)
  {
    var id := s.dicts.view.order[s.selected];
    var d := DeleteFromView(s.dicts, s.selected);
    assert d.view.recs == s.dicts.view.recs - {id};
    if id !in s.store {
      assert s.store - {id} == s.store;
    }
  }

  /** Every other key in confirm mode, `q` included, only cancels. */
  lemma ConfirmOtherKeyCancels(s: State, key: int)
    requires Inv(s) && |s.dicts.view.order| > 0 && s.modes.Confirming() && key != KeyEnter
    ensures Step(s, key) == Transition(s.(modes := s.modes.(confirm := false)), Continue)
  {
  }

  // ---------------------------------------------------------------------
  // Sessions

  /** `ValueError` is the only error the modelled frame raises, and it is
      what the first frame of an empty view raises, leaving the state as
      it was. */
  lemma {:induction false} SessionRaisesOnlyValueError(s: State, inputs: seq<Input>)
    requires Inv(s)
    ensures Session(s, inputs).Raised? ==> Session(s, inputs).error == ValueError
    ensures inputs != [] && |s.dicts.view.order| == 0 ==> Session(s, inputs) == Raised(ValueError, s)
    decreases |inputs|
  {
    if inputs != [] {
      SessionUnfold(s, inputs);
      var fr := FrameStart(s, inputs[0].height - 2);
      if fr.Ok? {
        var t := Step(fr.value, inputs[0].key);
        if t.outcome.Continue? {
          SessionRaisesOnlyValueError(t.next, inputs[1..]);
        }
      }
    }
  }

  /** Typing a character that no alias matches empties the view, and the
      frame that follows raises `ValueError`. */
  lemma UnmatchedSearchRaises(s: State, c: CodePoint, inputs: seq<Input>)
    requires Inv(s) && |s.dicts.view.order| > 0 && s.modes.search
    requires c != KeyEnter && c != KeyBackspace && c != KeyDel
    requires FilterByAlias(s.dicts.original, s.query + [c]).order == []
    requires |inputs| >= 2 && inputs[0].key == c
    ensures var e := Session(s, inputs);
      && e.Raised? && e.error == ValueError
      && e.state.query == s.query + [c] && e.state.dicts.view.order == [] && e.state.store == s.store
  {
    SessionUnfold(s, inputs);
    var f := FrameStart(s, inputs[0].height - 2).value;
    var next := Step(f, c).next;
    assert next.dicts.view.order == [];
    SessionUnfold(next, inputs[1..]);
  }

  /** A key never adds to the original dict or the store, nor changes a
      record in either. */
  lemma StepShrinksOriginal(s: State, key: int)
    requires Inv(s) && |s.dicts.view.order| > 0
    ensures SubView(Step(s, key).next.dicts.original, s.dicts.original)
    ensures forall k :: k in Step(s, key).next.store ==> k in s.store && Step(s, key).next.store[k] == s.store[k]
  {
    if s.modes.Confirming() && key == KeyEnter {
      var d := DeleteFromView(s.dicts, s.selected);
      assert SubView(d.view, s.dicts.view);
    }
  }

  /** What a run leaves behind: the store and the original dict have only
      lost entries, and the entries left keep their records. */
  lemma {:induction false} SessionShrinks(s: State, inputs: seq<Input>)
    requires Inv(s)
    ensures var e := Session(s, inputs);
      && SubView(e.state.dicts.original, s.dicts.original)
      && (forall k :: k in e.state.store ==> k in s.store && e.state.store[k] == s.store[k])
    decreases |inputs|
  {
    if inputs != [] {
      SessionUnfold(s, inputs);
      var fr := FrameStart(s, inputs[0].height - 2);
      if fr.Ok? {
        var t := Step(fr.value, inputs[0].key);
        StepShrinksOriginal(fr.value, inputs[0].key);
        if t.outcome.Continue? {
          SessionShrinks(t.next, inputs[1..]);
        }
      }
    }
  }

  /** The picker only ever returns one of the bookmarks it was given. */
  lemma {:induction false} SessionChoosesBookmark(s: State, inputs: seq<Input>)
    requires Inv(s)
    ensures var e := Session(s, inputs);
      e.Returned? && e.choice.Some? ==> exists k :: k in s.dicts.original.recs && s.dicts.original.recs[k] == e.choice.value
    decreases |inputs|
  {
    if inputs != [] {
      SessionUnfold(s, inputs);
      var fr := FrameStart(s, inputs[0].height - 2);
      if fr.Ok? {
        var f := fr.value;
        var t := Step(f, inputs[0].key);
        StepShrinksOriginal(f, inputs[0].key);
        if t.outcome.Selected? {
          var k := f.dicts.view.order[f.selected];
          assert k in f.dicts.view.recs && f.dicts.view.recs[k] == t.outcome.rec;
        } else if t.outcome.Continue? {
          SessionChoosesBookmark(t.next, inputs[1..]);
        }
      }
    }
  }
}
