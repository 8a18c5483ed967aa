/** What the current picker (twd/crud.py) promises, stated over `Crud.Step`,
    `Crud.Normalise`, `Crud.ActionLine` and `Crud.Session`. */
module CrudProperties {
  import opened Text
  import opened Views
  import opened Layout
  import opened Events
  import opened Crud

  // ---------------------------------------------------------------------
  // The frame

  /** Frame start clamps the selection into the view, forgets the
      pre-selected path on an empty view, and remembers the selected row's
      path exactly when that row is drawn. */
  lemma NormaliseClamps(s: State, innerHeight: int)
    requires Inv(s)
    ensures var r := Normalise(s, innerHeight); var n := |s.dicts.view.order|;
      && (n == 0 ==> r.selected == 0 && r.preSelectedPath == None)
      && (0 <= s.selected < n ==> r.selected == s.selected)
      && (n > 0 && s.selected >= n ==> r.selected == n - 1)
      && (n > 0 && s.selected < 0 ==> r.selected == 0)
      && (n > 0 && RowFits(r.selected, innerHeight) ==> r.preSelectedPath == Some(s.dicts.view.At(r.selected).path))
      && (n > 0 && !RowFits(r.selected, innerHeight) ==> r.preSelectedPath == s.preSelectedPath)
  {
    var n := |s.dicts.view.order|;
    if n > 0 {
      var r := Normalise(s, innerHeight);
      var v := VisibleRows(n, innerHeight);
      assert r.selected < v <==> RowFits(r.selected, innerHeight);
    }
  }

  /** Drawing a second frame without a key in between changes nothing. */
  lemma NormaliseIdempotent(s: State, innerHeight: int)
    requires Inv(s)
    ensures Normalise(Normalise(s, innerHeight), innerHeight) == Normalise(s, innerHeight)
  {
  }

  /** The action line: the search prompt wins, the delete prompt comes
      next and names the entry that enter will delete. */
  lemma DeletePromptNamesDeletedEntry(s: State, innerWidth: int)
    requires Inv(s) && Normalised(s) && s.modes.Confirming() && |s.dicts.view.order| > 0
    ensures var id := s.dicts.view.order[s.selected]; var next := Step(s, KeyEnter).next;
      && ActionLine(s, innerWidth) == Ok(DeletePrompt(s.dicts.view.recs[id].alias, s.dicts.view.recs[id].path))
      && id in s.dicts.view.recs && id !in next.dicts.view.recs && id !in next.store
  {
  }

  // ---------------------------------------------------------------------
  // Moving the selection

  /** Browse mode: up and down wrap around the ends, and do nothing on an
      empty view. */
  lemma BrowseMovesWrap(s: State, key: int)
    requires Inv(s) && Normalised(s) && s.modes.Browsing()
    requires key == KeyUp || key == KeyK || key == KeyDown || key == KeyJ
    ensures var t := Step(s, key); var n := |s.dicts.view.order|;
      && t.outcome == Continue
      && t.next == s.(selected := t.next.selected)
      && (n == 0 ==> t.next == s)
      && (n > 0 && (key == KeyUp || key == KeyK) ==>
            t.next.selected == if s.selected == 0 then n - 1 else s.selected - 1)
      && (n > 0 && (key == KeyDown || key == KeyJ) ==>
            t.next.selected == if s.selected == n - 1 then 0 else s.selected + 1)
  {
  }

  /** Post-search mode: up and down stop at the ends instead of wrapping,
      and do nothing on an empty view. */
  lemma PostSearchMovesClamp(s: State, key: int)
    requires Inv(s) && Normalised(s) && s.modes.PostSearching()
    requires key == KeyUp || key == KeyK || key == KeyDown || key == KeyJ
    ensures var t := Step(s, key); var n := |s.dicts.view.order|;
      && t.outcome == Continue
      && t.next == s.(selected := t.next.selected)
      && (n == 0 ==> t.next == s)
      && (n > 0 && (key == KeyUp || key == KeyK) ==>
            t.next.selected == if s.selected == 0 then 0 else s.selected - 1)
      && (n > 0 && (key == KeyDown || key == KeyJ) ==>
            t.next.selected == if s.selected == n - 1 then n - 1 else s.selected + 1)
  {
  }

  // ---------------------------------------------------------------------
  // Choosing and quitting

  /** Enter in browse or post-search mode returns the selected record, and
      does so exactly when the view is not empty. */
  lemma EnterSelectsOnNonEmptyView(s: State)
    requires Inv(s) && Normalised(s) && !s.modes.search && (s.modes.postSearch || !s.modes.confirm)
    ensures var t := Step(s, KeyEnter);
      && t.next == s
      && (t.outcome.Selected? <==> |s.dicts.view.order| > 0)
      && (t.outcome.Selected? ==> t.outcome.rec == s.dicts.view.recs[s.dicts.view.order[s.selected]])
      && (!t.outcome.Selected? ==> t.outcome == Continue)
  {
  }

  /** `q` quits outside search and post-search, from confirm mode too. */
  lemma QuitOutsideSearch(s: State)
    requires Inv(s) && Normalised(s) && !s.modes.search && !s.modes.postSearch
    ensures Step(s, KeyQ) == Transition(s, Cancelled)
  {
  }

  /** In post-search `d` asks for a delete, but the next enter still goes
      to the post-search branch and returns the entry instead of deleting
      it. */
  lemma PostSearchDeleteThenEnterSelects(s: State, innerHeight: int)
    requires Inv(s) && Normalised(s) && s.modes.PostSearching() && |s.dicts.view.order| > 0
    ensures var t := Step(s, KeyD);
      && Inv(t.next) && t.next.modes.confirm
      && var f := Normalise(t.next, innerHeight);
         Step(f, KeyEnter) == Transition(f, Selected(s.dicts.view.At(s.selected))) && f.store == s.store
  {
    StepKeepsInv(s, KeyD);
  }

  // ---------------------------------------------------------------------
  // Searching

  /** Enter in search mode commits to post-search without touching the view. */
  lemma SearchEnterCommits(s: State)
    requires Inv(s) && Normalised(s) && s.modes.search
    ensures Step(s, KeyEnter) == Transition(s.(modes := s.modes.(search := false, postSearch := true)), Continue)
  {
  }

  /** Any other key in search mode edits the query (backspace drops its last
      character, a code point, `n` and `t` included, is appended, anything
      else is ignored) and filters `DIRS` again; the selection, the
      pre-selected path, the modes, the toggles and the store stay. */
  lemma SearchKeyEditsQuery(s: State, key: int)
    requires Inv(s) && Normalised(s) && s.modes.search && key != KeyEnter
    ensures var t := Step(s, key);
      && t.outcome == Continue
      && t.next == s.(query := t.next.query, dicts := t.next.dicts)
      && t.next.dicts.original == s.dicts.original
      && (t.next != s ==> t.next.dicts == Refilter(s.dicts, t.next.query))
      && (key == KeyBackspace || key == KeyDel ==> t.next.query == DropLast(s.query))
      && (key != KeyBackspace && key != KeyDel && 0 <= key < 0x11_0000 ==> t.next.query == s.query + [key])
      && (key != KeyBackspace && key != KeyDel && !(0 <= key < 0x11_0000) ==> t.next == s)
      && (t.next != s ==> t.next.dicts.view == FilterByAlias(s.dicts.original, t.next.query))
  {
  }

  /** `q` or escape in post-search: the original view is back, the query is
      cleared, the selection is 0, post-search is over. */
  lemma PostSearchEscapeRestores(s: State, key: int)
    requires Inv(s) && Normalised(s) && s.modes.PostSearching() && (key == KeyQ || key == KeyEsc)
    ensures var t := Step(s, key);
      && t.outcome == Continue
      && t.next.dicts.view == s.dicts.original && t.next.dicts.original == s.dicts.original && t.next.dicts.shared
      && t.next.query == [] && t.next.selected == 0
      && t.next.modes == s.modes.(postSearch := false)
      && t.next.toggles == s.toggles && t.next.store == s.store
  {
  }

  // ---------------------------------------------------------------------
  // Confirming a delete

  /** Enter in confirm mode on a non-empty view deletes exactly the
      selected entry: the others keep their order and records, the store
      loses the id, the original dict loses it while it is the same dict,
      the selection is clamped to the shorter view and the flag is
      cleared; nothing else changes. */
  lemma ConfirmedDelete(s: State)
    requires Inv(s) && Normalised(s) && s.modes.Confirming() && |s.dicts.view.order| > 0
    ensures var t := Step(s, KeyEnter); var v := s.dicts.view; var id := v.order[s.selected];
      var w := t.next.dicts.view;
      && t.outcome == Continue
      && w.order == v.order[..s.selected] + v.order[s.selected + 1..]
      && id !in w.recs
      && (forall k :: k in v.recs && k != id ==> k in w.recs && w.recs[k] == v.recs[k])
      && t.next.store == s.store - {id}
      && t.next.dicts.original == (if s.dicts.shared then w else s.dicts.original)
      && (|w.order| == 0 ==> t.next.selected == 0)
      && (|w.order| > 0 ==> t.next.selected == Min(s.selected, |w.order| - 1))
      && t.next == s.(modes := s.modes.(confirm := false), dicts := t.next.dicts, store := t.next.store,
                      selected := t.next.selected)
  {
  }

  /** Every other key that reaches the confirm branch only clears the flag. */
  lemma ConfirmOtherKeyCancels(s: State, key: int)
    requires Inv(s) && Normalised(s) && s.modes.Confirming()
    requires key != KeyQ && key != KeyN && key != KeyT
    requires key != KeyEnter || |s.dicts.view.order| == 0
    ensures Step(s, key) == Transition(s.(modes := s.modes.(confirm := false)), Continue)
  {
  }

  // ---------------------------------------------------------------------
  // Column toggles

  /** Outside search mode `n` flips the ID column, writes it into CONFIG
      and calls the save callback once, if there is one; nothing else
      changes. */
  lemma ToggleIdFlipsOneColumn(s: State)
    requires Inv(s) && Normalised(s) && !s.modes.search
    ensures var t := Step(s, KeyN); var g := t.next.toggles;
      && t.outcome == Continue
      && t.next == s.(toggles := g)
      && g.showId == !s.toggles.showId && g.config.showIdColumn == Some(g.showId)
      && g.showCreated == s.toggles.showCreated && g.config.showCreatedColumn == s.toggles.config.showCreatedColumn
      && g.hasSaveCallback == s.toggles.hasSaveCallback
      && g.saveCalls == s.toggles.saveCalls + (if s.toggles.hasSaveCallback then 1 else 0)
  {
  }

  /** Outside search mode `t` does the same for the CREATED AT column. */
  lemma ToggleCreatedFlipsOneColumn(s: State)
    requires Inv(s) && Normalised(s) && !s.modes.search
    ensures var t := Step(s, KeyT); var g := t.next.toggles;
      && t.outcome == Continue
      && t.next == s.(toggles := g)
      && g.showCreated == !s.toggles.showCreated && g.config.showCreatedColumn == Some(g.showCreated)
      && g.showId == s.toggles.showId && g.config.showIdColumn == s.toggles.config.showIdColumn
      && g.hasSaveCallback == s.toggles.hasSaveCallback
      && g.saveCalls == s.toggles.saveCalls + (if s.toggles.hasSaveCallback then 1 else 0)
  {
  }

  /** Pressing `n` twice shows the ID column as before and leaves CONFIG
      agreeing with it. */
  lemma ToggleIdTwice(s: State, innerHeight: int)
    requires Inv(s) && Normalised(s) && !s.modes.search
    ensures var t1 := Step(s, KeyN);
      && Inv(t1.next)
      && var f := Normalise(t1.next, innerHeight);
         var t2 := Step(f, KeyN);
         && t2.next.toggles.showId == s.toggles.showId
         && t2.next.toggles.config.showIdColumn == Some(s.toggles.showId)
  {
    StepKeepsInv(s, KeyN);
  }

  // ---------------------------------------------------------------------
  // What holds in every reachable state

  /** The states a session reaches from `display_select`: the view is
      always the filter of the original dict by the current query (so it is
      the original dict itself exactly when the query is empty), outside
      search and post-search the query is empty, and every id of the
      original dict is still in the store. */
  ghost predicate Consistent(s: State) {
    && Inv(s)
    && s.dicts.view == FilterByAlias(s.dicts.original, s.query)
    && (s.dicts.shared <==> s.query == [])
    && (!s.modes.search && !s.modes.postSearch ==> s.query == [])
    && (forall k :: k in s.dicts.original.recs ==> k in s.store)
  }

  /** The picker starts consistent when the dict it is given comes from the store. */
  lemma InitConsistent(config: Config, dirs: View, hasSaveCallback: bool, store: map<Id, Record>)
    requires dirs.Valid() && forall k :: k in dirs.recs ==> k in store
    ensures Consistent(Init(config, dirs, hasSaveCallback, store))
  {
  }

  /** Frame start keeps the picker consistent. */
  lemma NormaliseKeepsConsistent(s: State, innerHeight: int)
    requires Consistent(s)
    ensures Consistent(Normalise(s, innerHeight))
  {
  }

  /** Every key keeps the picker consistent. */
  lemma StepKeepsConsistent(s: State, key: int)
    requires Consistent(s) && Normalised(s)
    ensures Consistent(Step(s, key).next)
  {
    var t := Step(s, key);
    if !s.modes.search && (key == KeyN || key == KeyT) {
      assert t.next == s.(toggles := t.next.toggles);
    } else if key == KeyQ && !s.modes.search && !s.modes.postSearch {
    } else if s.modes.search {
      assert t.next == SearchKey(s, key);
      SearchKeyKeepsConsistent(s, key);
    } else if s.modes.postSearch {
      assert t == PostSearchKey(s, key);
      PostSearchKeyKeepsConsistent(s, key);
    } else if s.modes.confirm {
      assert t.next == ConfirmKey(s, key);
      ConfirmKeyKeepsConsistent(s, key);
    } else {
      assert t == BrowseKey(s, key);
      BrowseKeyKeepsConsistent(s, key);
    }
  }

  lemma ConfirmKeyKeepsConsistent(s: State, key: int)
    requires Consistent(s) && Normalised(s) && s.modes.Confirming()
    ensures Consistent(ConfirmKey(s, key))
  {
    if key == KeyEnter && |s.dicts.view.order| > 0 {
      ConfirmedDeleteEverywhere(s);
    }
  }

  lemma BrowseKeyKeepsConsistent(s: State, key: int)
    requires Consistent(s) && Normalised(s) && s.modes.Browsing()
    ensures Consistent(BrowseKey(s, key).next)
  {
    var t := BrowseKey(s, key);
    assert t.next.dicts == s.dicts && t.next.query == s.query && t.next.store == s.store;
  }

  lemma SearchKeyKeepsConsistent(s: State, key: int)
    requires Consistent(s) && s.modes.search
    ensures Consistent(SearchKey(s, key))
  {
    if key == KeyBackspace || key == KeyDel {
      RefilterKeepsConsistent(s, DropLast(s.query));
    } else if key != KeyEnter && Chr(key).Some? {
      RefilterKeepsConsistent(s, s.query + [key]);
    }
  }

  lemma RefilterKeepsConsistent(s: State, q: Str)
    requires Consistent(s) && s.modes.search
    ensures Consistent(s.(query := q, dicts := Refilter(s.dicts, q)))
  {
  }

  lemma PostSearchKeyKeepsConsistent(s: State, key: int)
    requires Consistent(s) && Normalised(s) && s.modes.PostSearching()
    ensures Consistent(PostSearchKey(s, key).next)
  {
    var t := PostSearchKey(s, key);
    if key == KeyQ || key == KeyEsc {
      assert t.next.dicts.view == t.next.dicts.original;
    } else {
      assert t.next.dicts == s.dicts && t.next.query == s.query && t.next.store == s.store;
    }
  }

  /** In the confirm branch the view IS the original dict, so a confirmed
      delete removes the entry from the view, the original dict and the
      store alike. */
  lemma ConfirmedDeleteEverywhere(s: State)
    requires Consistent(s) && Normalised(s) && s.modes.Confirming() && |s.dicts.view.order| > 0
    ensures var next := Step(s, KeyEnter).next; var id := s.dicts.view.order[s.selected];
      && s.dicts.shared && next.dicts.shared
      && next.dicts.original == next.dicts.view
      && next.dicts.original.recs == s.dicts.original.recs - {id}
      && next.store == s.store - {id}
  {
  }

  /** A record returned by enter is one whose id is still in the store. */
  lemma ChosenRecordIsStored(s: State, key: int)
    requires Consistent(s) && Normalised(s)
    ensures var t := Step(s, key);
      t.outcome.Selected? ==> exists k :: k in s.store && k in s.dicts.view.recs && s.dicts.view.recs[k] == t.outcome.rec
  {
    StepSelectsSelected(s, key);
    if Step(s, key).outcome.Selected? {
      var k := s.dicts.view.order[s.selected];
      assert k in s.dicts.view.recs;
    }
  }

  /** Only the selected entry of a non-empty view is ever returned. */
  lemma StepSelectsSelected(s: State, key: int)
    requires Inv(s) && Normalised(s)
    ensures var t := Step(s, key);
      t.outcome.Selected? ==> |s.dicts.view.order| > 0 && t.outcome.rec == s.dicts.view.At(s.selected)
  {
  }

  /** A key never adds to the original dict or the store, nor changes a
      record in either. */
  lemma StepShrinks(s: State, key: int)
    requires Inv(s) && Normalised(s)
    ensures SubView(Step(s, key).next.dicts.original, s.dicts.original)
    ensures forall k :: k in Step(s, key).next.store ==> k in s.store && Step(s, key).next.store[k] == s.store[k]
  {
    if s.modes.Confirming() && key == KeyEnter && |s.dicts.view.order| > 0 {
      var d := DeleteFromView(s.dicts, s.selected);
      assert SubView(d.view, s.dicts.view);
    }
  }

  /** A session that stays consistent: whatever state it ends in, waiting,
      returned or raised, is consistent again. */
  lemma {:induction false} SessionKeepsConsistent(s: State, inputs: seq<Input>)
    requires Consistent(s)
    ensures Consistent(Session(s, inputs).state)
    decreases |inputs|
  {
    if inputs != [] {
      var f := Normalise(s, inputs[0].height - 2);
      NormaliseKeepsConsistent(s, inputs[0].height - 2);
      SessionUnfold(s, inputs);
      if ActionLine(f, inputs[0].width - 2).Ok? {
        var t := Step(f, inputs[0].key);
        StepKeepsConsistent(f, inputs[0].key);
        if t.outcome.Continue? {
          SessionKeepsConsistent(t.next, inputs[1..]);
        }
      }
    }
  }

  /** The columns shown agree with what CONFIG says about them, so the
      CONFIG handed to the save callback reproduces the display. */
  predicate ConfigAgrees(t: Toggles) {
    && t.showId == GetOrTrue(t.config.showIdColumn)
    && t.showCreated == GetOrTrue(t.config.showCreatedColumn)
  }

  /** The picker starts with the columns CONFIG asks for. */
  lemma InitConfigAgrees(config: Config, dirs: View, hasSaveCallback: bool, store: map<Id, Record>)
    requires dirs.Valid()
    ensures var g := Init(config, dirs, hasSaveCallback, store).toggles;
      ConfigAgrees(g) && g.config == config
  {
  }

  /** Every key keeps CONFIG in agreement with the columns shown. */
  lemma StepKeepsConfig(s: State, key: int)
    requires Inv(s) && Normalised(s) && ConfigAgrees(s.toggles)
    ensures ConfigAgrees(Step(s, key).next.toggles)
  {
    var t := Step(s, key);
    if !(!s.modes.search && (key == KeyN || key == KeyT)) {
      assert t.next.toggles == s.toggles;
    }
  }

  /** Whatever state a run ends in, CONFIG agrees with the columns shown. */
  lemma {:induction false} SessionKeepsConfig(s: State, inputs: seq<Input>)
    requires Inv(s) && ConfigAgrees(s.toggles)
    ensures ConfigAgrees(Session(s, inputs).state.toggles)
    decreases |inputs|
  {
    if inputs != [] {
      var f := Normalise(s, inputs[0].height - 2);
      SessionUnfold(s, inputs);
      if ActionLine(f, inputs[0].width - 2).Ok? {
        var t := Step(f, inputs[0].key);
        StepKeepsConfig(f, inputs[0].key);
        if t.outcome.Continue? {
          SessionKeepsConfig(t.next, inputs[1..]);
        }
      }
    }
  }

  /** What a run leaves behind: the store and the original dict (the
      caller's dict, while they are the same object) have only lost
      entries, and the entries left keep their records. */
  lemma {:induction false} SessionShrinks(s: State, inputs: seq<Input>)
    requires Inv(s)
    ensures var e := Session(s, inputs);
      && SubView(e.state.dicts.original, s.dicts.original)
      && (forall k :: k in e.state.store ==> k in s.store && e.state.store[k] == s.store[k])
    decreases |inputs|
  {
    if inputs != [] {
      var f := Normalise(s, inputs[0].height - 2);
      SessionUnfold(s, inputs);
      if ActionLine(f, inputs[0].width - 2).Ok? {
        var t := Step(f, inputs[0].key);
        StepShrinks(f, inputs[0].key);
        if t.outcome.Continue? {
          SessionShrinks(t.next, inputs[1..]);
        }
      }
    }
  }

  /** The picker only ever returns one of the bookmarks it was given. */
  lemma {:induction false} SessionChoosesBookmark(s: State, inputs: seq<Input>)
    requires Inv(s)
    ensures var e := Session(s, inputs);
      e.Returned? && e.choice.Some? ==> exists k :: k in s.dicts.original.recs && s.dicts.original.recs[k] == e.choice.value
    decreases |inputs|
  {
    if inputs != [] {
      var f := Normalise(s, inputs[0].height - 2);
      SessionUnfold(s, inputs);
      if ActionLine(f, inputs[0].width - 2).Ok? {
        var t := Step(f, inputs[0].key);
        StepShrinks(f, inputs[0].key);
        if t.outcome.Selected? {
          var k := f.dicts.view.order[f.selected];
          assert k in f.dicts.view.recs && f.dicts.view.recs[k] == t.outcome.rec;
        } else if t.outcome.Continue? {
          SessionChoosesBookmark(t.next, inputs[1..]);
        }
      }
    }
  }

  /** A reachable crash: `d` in post-search sets the confirm flag, `s`
      goes back to searching without clearing it, a character that no
      alias matches empties the view, and after enter the next frame
      indexes the empty view for the delete prompt. */
  lemma DeletePromptOnEmptyViewRaises(s: State, c: CodePoint, inputs: seq<Input>)
    requires Inv(s) && Normalised(s) && s.modes.PostSearching() && !s.modes.confirm && |s.dicts.view.order| > 0
    requires c != KeyEnter && c != KeyBackspace && c != KeyDel
    requires FilterByAlias(s.dicts.original, s.query + [c]).order == []
    requires |inputs| == 5
    requires inputs[0].key == KeyD && inputs[1].key == KeyS && inputs[2].key == c && inputs[3].key == KeyEnter
    ensures var e := Session(s, inputs);
      && e.Raised? && e.error == IndexError
      && e.state.modes.confirm && e.state.dicts.view.order == [] && e.state.store == s.store
  {
    var s1 := CrashAsksDelete(s, inputs);
    assert inputs[1..][1..] == inputs[2..] && inputs[2..][1..] == inputs[3..] && inputs[3..][1..] == inputs[4..];
    var s2 := CrashSearchesAgain(s1, inputs[1..]);
    var s3 := CrashTypes(s2, c, inputs[2..]);
    var s4 := CrashCommits(s3, inputs[3..]);
    SessionUnfold(s4, inputs[4..]);
  }

  lemma CrashAsksDelete(s: State, inputs: seq<Input>) returns (next: State)
    requires Inv(s) && Normalised(s) && s.modes.PostSearching() && !s.modes.confirm && |s.dicts.view.order| > 0
    requires inputs != [] && inputs[0].key == KeyD
    ensures Inv(next) && next.modes.PostSearching() && next.modes.confirm
    ensures next.dicts == s.dicts && next.query == s.query && next.store == s.store
    ensures Session(s, inputs) == Session(next, inputs[1..])
  {
    SessionUnfold(s, inputs);
    next := Step(Normalise(s, inputs[0].height - 2), KeyD).next;
  }

  lemma CrashSearchesAgain(s: State, inputs: seq<Input>) returns (next: State)
    requires Inv(s) && s.modes.PostSearching() && s.modes.confirm && |s.dicts.view.order| > 0
    requires inputs != [] && inputs[0].key == KeyS
    ensures Inv(next) && next.modes.search && next.modes.confirm
    ensures next.dicts == s.dicts && next.query == s.query && next.store == s.store
    ensures Session(s, inputs) == Session(next, inputs[1..])
  {
    SessionUnfold(s, inputs);
    next := Step(Normalise(s, inputs[0].height - 2), KeyS).next;
  }

  lemma CrashTypes(s: State, c: CodePoint, inputs: seq<Input>) returns (next: State)
    requires Inv(s) && s.modes.search && s.modes.confirm
    requires c != KeyEnter && c != KeyBackspace && c != KeyDel
    requires FilterByAlias(s.dicts.original, s.query + [c]).order == []
    requires inputs != [] && inputs[0].key == c
    ensures Inv(next) && next.modes.search && next.modes.confirm && next.dicts.view.order == [] && next.store == s.store
    ensures Session(s, inputs) == Session(next, inputs[1..])
  {
    SessionUnfold(s, inputs);
    next := Step(Normalise(s, inputs[0].height - 2), c).next;
  }

  lemma CrashCommits(s: State, inputs: seq<Input>) returns (next: State)
    requires Inv(s) && s.modes.search && s.modes.confirm && s.dicts.view.order == []
    requires inputs != [] && inputs[0].key == KeyEnter
    ensures Inv(next) && !next.modes.search && next.modes.confirm && next.dicts.view.order == [] && next.store == s.store
    ensures Session(s, inputs) == Session(next, inputs[1..])
  {
    SessionUnfold(s, inputs);
    next := Step(Normalise(s, inputs[0].height - 2), KeyEnter).next;
  }
}
