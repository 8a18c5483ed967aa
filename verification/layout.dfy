/** The computed (not drawn) parts of the picker's frame in twd/crud.py:
    column widths, the header line, how many rows fit, and the cells that
    `draw_path` writes. The row-count rule is shared with twd/screen.py. */
module Layout {
  import opened Text
  import opened Views

  /** Colour pairs used by `draw_path`. */
  const ColorPathText := 10
  const ColorPathSlash := 11

  /** The first screen line holding a bookmark row. */
  const FirstRowLine := 5

  /** Column widths: longest alias, longest path, longest id. */
  datatype Widths = Widths(alias: int, path: int, id: int)

  /** Python's `max(xs)`, with 0 for the empty sequence. */
  function MaxOf(xs: seq<nat>): (m: nat)
    ensures forall i :: 0 <= i < |xs| ==> xs[i] <= m
    ensures |xs| > 0 ==> exists i :: 0 <= i < |xs| && xs[i] == m
    ensures |xs| == 0 ==> m == 0
  {
    if |xs| == 0 then 0
    else
      var rest := MaxOf(xs[1..]);
      if xs[0] >= rest then xs[0] else rest
  }

  function AliasLengths(v: View): seq<nat>
    requires v.Valid()
  {
    seq(|v.order|, i requires 0 <= i < |v.order| => |v.recs[v.order[i]].alias|)
  }

  function PathLengths(v: View): seq<nat>
    requires v.Valid()
  {
    seq(|v.order|, i requires 0 <= i < |v.order| => |v.recs[v.order[i]].path|)
  }

  function IdLengths(v: View): seq<nat>
    requires v.Valid()
  {
    seq(|v.order|, i requires 0 <= i < |v.order| => |v.order[i]|)
  }

  /** Every field of every entry fits its column, and no column is wider
      than its floor (5, 4, 2) or its longest field. */
  ghost predicate FitsTightly(v: View, w: Widths)
    requires v.Valid()
  {
    && w.alias >= 5 && w.path >= 4 && w.id >= 2
    && (forall k :: k in v.recs ==> |v.recs[k].alias| <= w.alias && |v.recs[k].path| <= w.path && |k| <= w.id)
    && (w.alias == 5 || exists k :: k in v.recs && |v.recs[k].alias| == w.alias)
    && (w.path == 4 || exists k :: k in v.recs && |v.recs[k].path| == w.path)
    && (w.id == 2 || exists k :: k in v.recs && |k| == w.id)
  }

  /** The widths of a non-empty view, floored at 5, 4 and 2. */
  function FlooredWidths(v: View): (w: Widths)
    requires v.Valid() && |v.order| > 0
    ensures FitsTightly(v, w)
  {
    AliasWidthFits(v);
    PathWidthFits(v);
    IdWidthFits(v);
    Widths(Max(MaxOf(AliasLengths(v)), 5), Max(MaxOf(PathLengths(v)), 4), Max(MaxOf(IdLengths(v)), 2))
  }

  lemma AliasWidthFits(v: View)
    requires v.Valid()
    ensures var m := MaxOf(AliasLengths(v));
      && (forall k :: k in v.recs ==> |v.recs[k].alias| <= m)
      && (|v.order| > 0 ==> exists k :: k in v.recs && |v.recs[k].alias| == m)
  {
    var a := AliasLengths(v);
    forall k | k in v.recs ensures |v.recs[k].alias| <= MaxOf(a) {
      var j :| 0 <= j < |v.order| && v.order[j] == k;
      assert a[j] == |v.recs[k].alias|;
    }
    if |v.order| > 0 {
      var j :| 0 <= j < |a| && a[j] == MaxOf(a);
      assert v.order[j] in v.recs;
    }
  }

  lemma PathWidthFits(v: View)
    requires v.Valid()
    ensures var m := MaxOf(PathLengths(v));
      && (forall k :: k in v.recs ==> |v.recs[k].path| <= m)
      && (|v.order| > 0 ==> exists k :: k in v.recs && |v.recs[k].path| == m)
  {
    var a := PathLengths(v);
    forall k | k in v.recs ensures |v.recs[k].path| <= MaxOf(a) {
      var j :| 0 <= j < |v.order| && v.order[j] == k;
      assert a[j] == |v.recs[k].path|;
    }
    if |v.order| > 0 {
      var j :| 0 <= j < |a| && a[j] == MaxOf(a);
      assert v.order[j] in v.recs;
    }
  }

  lemma IdWidthFits(v: View)
    requires v.Valid()
    ensures var m := MaxOf(IdLengths(v));
      && (forall k :: k in v.recs ==> |k| <= m)
      && (|v.order| > 0 ==> exists k :: k in v.recs && |k| == m)
  {
    var a := IdLengths(v);
    forall k | k in v.recs ensures |k| <= MaxOf(a) {
      var j :| 0 <= j < |v.order| && v.order[j] == k;
      assert a[j] == |k|;
    }
    if |v.order| > 0 {
      var j :| 0 <= j < |a| && a[j] == MaxOf(a);
      assert v.order[j] in v.recs;
    }
  }

  /** The widths in twd/crud.py: the bare floors for an empty view. */
  function ColumnWidths(v: View): (w: Widths)
    requires v.Valid()
    ensures FitsTightly(v, w)
    ensures |v.order| == 0 ==> w == Widths(5, 4, 2)
  {
    if |v.order| == 0 then Widths(5, 4, 2) else FlooredWidths(v)
  }

  /** Where each column starts, counted from the inner left edge: the
      `current_x - 1` reached while a row is drawn. */
  datatype Columns = Columns(idX: int, pathX: int, createdX: int)

  function ColumnStarts(w: Widths, showId: bool): Columns
  {
    var idX := w.alias + 2;
    var pathX := idX + (if showId then w.id + 2 else 0);
    Columns(idX, pathX, pathX + w.path + 2)
  }

  /** The header parts, before joining. */
  function HeaderParts(w: Widths, showId: bool, showCreated: bool): seq<Str> {
    [LJust(Lit("ALIAS"), w.alias)]
    + (if showId then [LJust(Lit("ID"), w.id)] else [])
    + [LJust(Lit("PATH"), w.path)]
    + (if showCreated then [Lit("CREATED AT")] else [])
  }

  /** The header line before it is cut to the inner width. */
  function FullHeader(w: Widths, showId: bool, showCreated: bool): Str {
    Join(Lit("  "), HeaderParts(w, showId, showCreated))
  }

  /** The header as drawn: `header_text[:inner_width]`. */
  function Header(w: Widths, showId: bool, showCreated: bool, innerWidth: int): (r: Str)
    ensures IsPrefix(r, FullHeader(w, showId, showCreated))
    ensures innerWidth >= 0 ==> |r| == Min(innerWidth, |FullHeader(w, showId, showCreated)|)
    ensures innerWidth < 0 ==> |r| == Max(0, |FullHeader(w, showId, showCreated)| + innerWidth)
  {
    PyTake(FullHeader(w, showId, showCreated), innerWidth)
  }

  lemma JoinCons(sep: Str, p: Str, rest: seq<Str>)
    requires |rest| > 0
    ensures Join(sep, [p] + rest) == p + sep + Join(sep, rest)
  {
    assert ([p] + rest)[1..] == rest;
  }

  /** `s` holds `t` starting at offset `x`. */
  predicate At(s: Str, x: int, t: Str) {
    0 <= x && x + |t| <= |s| && s[x..x + |t|] == t
  }

  lemma AtConcat(a: Str, b: Str, x: int, t: Str)
    requires At(b, x, t)
    ensures At(a + b, |a| + x, t)
  {
    assert (a + b)[|a| + x..|a| + x + |t|] == b[x..x + |t|];
  }

  /** The header with the joins written out: the ALIAS column and, when
      shown, the ID column, each with its two-space separator ... */
  function HeaderHead(w: Widths, showId: bool): Str {
    LJust(Lit("ALIAS"), w.alias) + Lit("  ") + (if showId then LJust(Lit("ID"), w.id) + Lit("  ") else [])
  }

  /** ... then the PATH column and, when shown, the CREATED AT column. */
  function HeaderTail(w: Widths, showCreated: bool): Str {
    LJust(Lit("PATH"), w.path) + (if showCreated then Lit("  ") + Lit("CREATED AT") else [])
  }

  lemma HeaderUnfold(w: Widths, showId: bool, showCreated: bool)
    ensures FullHeader(w, showId, showCreated) == HeaderHead(w, showId) + HeaderTail(w, showCreated)
  {
    var sep, a, i, p := Lit("  "), LJust(Lit("ALIAS"), w.alias), LJust(Lit("ID"), w.id), LJust(Lit("PATH"), w.path);
    var last: seq<Str> := if showCreated then [p, Lit("CREATED AT")] else [p];
    assert Join(sep, last) == HeaderTail(w, showCreated) by {
      if showCreated { JoinCons(sep, p, [Lit("CREATED AT")]); }
    }
    if showId {
      assert HeaderParts(w, showId, showCreated) == [a] + ([i] + last);
      JoinCons(sep, i, last);
      JoinCons(sep, a, [i] + last);
    } else {
      assert HeaderParts(w, showId, showCreated) == [a] + last;
      JoinCons(sep, a, last);
    }
  }

  lemma HeadAligned(w: Widths, showId: bool)
    requires w.alias >= 5 && w.id >= 2
    ensures At(HeaderHead(w, showId), 0, Lit("ALIAS"))
    ensures showId ==> At(HeaderHead(w, showId), w.alias + 2, Lit("ID"))
    ensures |HeaderHead(w, showId)| == ColumnStarts(w, showId).pathX
  {
    var a, sep, i := LJust(Lit("ALIAS"), w.alias), Lit("  "), LJust(Lit("ID"), w.id);
    var h := HeaderHead(w, showId);
    assert h[..5] == a[..5];
    if showId {
      assert h[w.alias + 2..w.alias + 4] == i[..2];
    }
  }

  lemma TailAligned(w: Widths, showCreated: bool)
    requires w.path >= 4
    ensures At(HeaderTail(w, showCreated), 0, Lit("PATH"))
    ensures showCreated ==> At(HeaderTail(w, showCreated), w.path + 2, Lit("CREATED AT"))
    ensures |HeaderTail(w, showCreated)| == w.path + (if showCreated then 12 else 0)
  {
    var p := LJust(Lit("PATH"), w.path);
    assert IsPrefix(Lit("PATH"), p);
    var t := HeaderTail(w, showCreated);
    assert t[..4] == p[..4];
    if showCreated {
      assert t[w.path + 2..] == Lit("CREATED AT");
    }
  }

  lemma AtExtend(a: Str, b: Str, x: int, t: Str)
    requires At(a, x, t)
    ensures At(a + b, x, t)
  {
    assert (a + b)[x..x + |t|] == a[x..x + |t|];
  }

  /** In the header each title starts exactly where the rows put that
      column's cells, so titles line up with their columns. */
  lemma HeaderAligned(w: Widths, showId: bool, showCreated: bool)
    requires w.alias >= 5 && w.path >= 4 && w.id >= 2
    ensures var h, c := FullHeader(w, showId, showCreated), ColumnStarts(w, showId);
      && At(h, 0, Lit("ALIAS"))
      && (showId ==> At(h, c.idX, Lit("ID")))
      && At(h, c.pathX, Lit("PATH"))
      && (showCreated ==> At(h, c.createdX, Lit("CREATED AT")))
      && |h| == (if showCreated then c.createdX + 10 else c.pathX + w.path)
  {
    HeaderUnfold(w, showId, showCreated);
    var head, tail := HeaderHead(w, showId), HeaderTail(w, showCreated);
    var c := ColumnStarts(w, showId);
    assert c.idX == w.alias + 2 && c.createdX == c.pathX + w.path + 2;
    HeadAligned(w, showId);
    TailAligned(w, showCreated);
    AtExtend(head, tail, 0, Lit("ALIAS"));
    if showId {
      AtExtend(head, tail, w.alias + 2, Lit("ID"));
    }
    AtConcat(head, tail, 0, Lit("PATH"));
    if showCreated {
      AtConcat(head, tail, w.path + 2, Lit("CREATED AT"));
    }
  }

  /** Row `i` goes on screen line `5 + i`, which must be above `inner_height - 5`. */
  predicate RowFits(i: int, innerHeight: int) {
    FirstRowLine + i < innerHeight - 5
  }

  /** How many rows of an `n`-entry view are drawn: rows go on screen lines
      5, 6, ... while the line is above `inner_height - 5`. */
  function VisibleRows(n: nat, innerHeight: int): (r: nat)
    ensures r <= n
    ensures forall i :: 0 <= i < n ==> (i < r <==> RowFits(i, innerHeight))
  {
    if innerHeight - 5 - FirstRowLine <= 0 then 0
    else if n <= innerHeight - 5 - FirstRowLine then n
    else innerHeight - 5 - FirstRowLine
  }

  /** The row loop of a frame: rows are drawn from screen line 5 down
      while they fit; the selected row, when drawn, becomes the pre-selected
      path. Returns how many rows were drawn and the pre-selected path
      after the loop. */
  method WalkRows(v: View, selected: int, pre: Option<Str>, innerHeight: int) returns (drawn: nat, path: Option<Str>)
    requires v.Valid()
    ensures drawn == VisibleRows(|v.order|, innerHeight)
    ensures path == if 0 <= selected < drawn then Some(v.At(selected).path) else pre
  {
    var n := |v.order|;
    path := pre;
    var line := FirstRowLine;
    var i := 0;
    while i < n
      invariant 0 <= i <= n
      invariant line == FirstRowLine + i
      invariant forall j :: 0 <= j < i ==> RowFits(j, innerHeight)
      invariant path == if 0 <= selected < i then Some(v.At(selected).path) else pre
    {
      if line >= innerHeight - 5 {
        break;
      }
      if i == selected {
        path := Some(v.recs[v.order[i]].path);
      }
      line := line + 1;
      i := i + 1;
    }
    ghost var r := VisibleRows(n, innerHeight);
    assert i < n ==> !RowFits(i, innerHeight);
    assert r < i ==> RowFits(r, innerHeight);
    assert i < r ==> RowFits(i, innerHeight);
    drawn := i;
  }

  /** One terminal cell written by `addch`: a character, its colour pair and
      whether it is drawn reversed (the selected row). */
  datatype Cell = Cell(ch: CodePoint, color: int, reverse: bool)

  /** `draw_path`: the path's characters, slashes in `slashColor` and the rest
      in `textColor`, cut at `maxLen` and padded with spaces to `maxLen`. */
  method DrawPath(path: Str, maxLen: int, textColor: int, slashColor: int, selected: bool)
    returns (cells: seq<Cell>)
    ensures |cells| == if maxLen > 0 then maxLen else 0
    ensures forall i :: 0 <= i < |cells| && i < |path| ==>
      cells[i] == Cell(path[i], if path[i] == '/' as int then slashColor else textColor, selected)
    ensures forall i :: |path| <= i < |cells| ==> cells[i] == Cell(' ' as int, textColor, selected)
  {
    cells := [];
    var pos := 0;  // pos - x in the source
    var n := 0;
    while n < |path|
      invariant 0 <= n <= |path|
      invariant pos == n == |cells|
      invariant maxLen > 0 ==> pos <= maxLen
      invariant maxLen <= 0 ==> pos == 0
      invariant forall i :: 0 <= i < |cells| ==>
        cells[i] == Cell(path[i], if path[i] == '/' as int then slashColor else textColor, selected)
    {
      if pos >= maxLen {
        break;
      }
      var ch := path[n];
      if ch == '/' as int {
        cells := cells + [Cell(ch, slashColor, selected)];
      } else {
        cells := cells + [Cell(ch, textColor, selected)];
      }
      pos := pos + 1;
      n := n + 1;
    }
    ghost var drawn := pos;
    while pos < maxLen
      invariant drawn <= pos == |cells|
      invariant drawn == |path| || pos >= maxLen || drawn == pos
      invariant maxLen <= 0 ==> pos == 0
      invariant maxLen > 0 ==> pos <= maxLen
      invariant drawn <= |path|
      invariant drawn < |path| ==> drawn == pos
      invariant forall i :: 0 <= i < drawn ==>
        cells[i] == Cell(path[i], if path[i] == '/' as int then slashColor else textColor, selected)
      invariant forall i :: drawn <= i < |cells| ==> cells[i] == Cell(' ' as int, textColor, selected)
    {
      cells := cells + [Cell(' ' as int, textColor, selected)];
      pos := pos + 1;
    }
  }
}
