/** The bookmark collection as the picker sees it: a Python dict from id to
    record, whose iteration order is insertion order, and the alias search
    `filter_dirs_by_search` (identical in twd/crud.py and twd/screen.py). */
module Views {
  import opened Text

  type Id = Str

  /** One bookmark: the value stored under its id. `createdAt` stands for
      the JSON number of seconds since the epoch. */
  datatype Record = Record(alias: Str, path: Str, createdAt: int)

  predicate Distinct<T(==)>(s: seq<T>) {
    forall i, j :: 0 <= i < j < |s| ==> s[i] != s[j]
  }

  /** A dict value: `order` is the key order of iteration, `recs` the
      mapping; each key is iterated exactly once. */
  datatype View = View(order: seq<Id>, recs: map<Id, Record>) {
    ghost predicate Valid() {
      && Distinct(order)
      && (forall k :: k in order ==> k in recs)
      && (forall k :: k in recs ==> k in order)
    }

    function Size(): nat {
      |order|
    }

    /** The record at position `i` of the iteration order:
        `filtered_DIRS[list(filtered_DIRS.keys())[i]]`. */
    function At(i: int): Record
      requires Valid() && 0 <= i < |order|
    {
      recs[order[i]]
    }
  }

  /** Every entry of `a` is an entry of `b` with the same record. */
  ghost predicate SubView(a: View, b: View) {
    forall k :: k in a.recs ==> k in b.recs && a.recs[k] == b.recs[k]
  }

  predicate IsSubsequence<T(==)>(a: seq<T>, b: seq<T>)
    decreases |b|
  {
    if a == [] then true
    else if b == [] then false
    else if a[0] == b[0] then IsSubsequence(a[1..], b[1..])
    else IsSubsequence(a, b[1..])
  }

  /** The search predicate: `query.lower() in alias.lower()`. */
  predicate Matches(r: Record, query: Str) {
    Contains(Lower(r.alias), Lower(query))
  }

  /** The keys of `order` whose record matches, in iteration order. */
  function Keep(order: seq<Id>, recs: map<Id, Record>, query: Str): (ks: seq<Id>)
    requires forall k :: k in order ==> k in recs
    ensures IsSubsequence(ks, order)
    ensures forall k :: k in ks <==> k in order && Matches(recs[k], query)
    ensures Distinct(order) ==> Distinct(ks)
  {
    if order == [] then []
    else
      var rest := Keep(order[1..], recs, query);
      assert forall k :: k in rest ==> k in order[1..];
      if Matches(recs[order[0]], query) then
        [order[0]] + rest
      else
        assert rest != [] ==> rest[0] in order[1..];
        assert Distinct(order) && rest != [] ==> rest[0] != order[0];
        rest
  }

  /** `filter_dirs_by_search(query)` as a value: the empty query gives the
      dict itself back, any other query a new dict of the matching entries. */
  function FilterByAlias(dirs: View, query: Str): (r: View)
    requires dirs.Valid()
    ensures r.Valid()
    ensures query == [] ==> r == dirs
    ensures query != [] ==> IsSubsequence(r.order, dirs.order)
    ensures query != [] ==> forall k :: k in r.recs <==> k in dirs.recs && Matches(dirs.recs[k], query)
    ensures SubView(r, dirs)
  {
    if query == [] then dirs
    else
      var ks := Keep(dirs.order, dirs.recs, query);
      View(ks, map k | k in ks :: dirs.recs[k])
  }

  /** `del d[list(d.keys())[i]]`: the entry at position `i` goes, the
      others keep their order and records. */
  function DeleteAt(v: View, i: int): (r: View)
    requires v.Valid() && 0 <= i < |v.order|
    ensures r.Valid()
    ensures r.order == v.order[..i] + v.order[i + 1..]
    ensures r.recs == v.recs - {v.order[i]}
    ensures v.order[i] !in r.recs
    ensures |r.order| == |v.order| - 1
    ensures SubView(r, v)
  {
    var id := v.order[i];
    var ks := v.order[..i] + v.order[i + 1..];
    assert forall k :: k in ks ==> k in v.order[..i] || k in v.order[i + 1..];
    assert forall k :: k in v.order && k != id ==> k in ks by {
      forall k | k in v.order && k != id ensures k in ks {
        var j :| 0 <= j < |v.order| && v.order[j] == k;
        if j < i { assert ks[j] == k; } else { assert ks[j - 1] == k; }
      }
    }
    View(ks, v.recs - {id})
  }

  /** The module globals `filtered_DIRS` (`view`) and `original_DIRS`
      (`original`, the same object as `DIRS`). `shared` says that
      `filtered_DIRS` currently IS that object, so that deleting from it
      deletes from `original_DIRS` too. */
  datatype Dicts = Dicts(view: View, original: View, shared: bool) {
    ghost predicate Valid() {
      && view.Valid()
      && original.Valid()
      && SubView(view, original)
      && (shared ==> view == original)
    }
  }

  /** `filter_dirs_by_search(q)`: the filter runs over `DIRS`; the empty
      query makes `filtered_DIRS` that dict again, any other a new dict. */
  function Refilter(d: Dicts, q: Str): (r: Dicts)
    requires d.Valid()
    ensures r.Valid()
    ensures r.original == d.original && r.view == FilterByAlias(d.original, q)
    ensures r.shared <==> q == []
  {
    Dicts(FilterByAlias(d.original, q), d.original, q == [])
  }

  /** `filtered_DIRS = original_DIRS`. */
  function RestoreOriginal(d: Dicts): (r: Dicts)
    requires d.Valid()
    ensures r.Valid() && r.shared && r.view == d.original && r.original == d.original
  {
    Dicts(d.original, d.original, true)
  }

  /** `del filtered_DIRS[list(filtered_DIRS.keys())[i]]`: the view loses
      its i-th entry, and so does the original dict exactly when it is the
      same object. */
  function DeleteFromView(d: Dicts, i: int): (r: Dicts)
    requires d.Valid() && 0 <= i < |d.view.order|
    ensures r.Valid()
    ensures r.view == DeleteAt(d.view, i) && r.shared == d.shared
    ensures r.original == if d.shared then r.view else d.original
  {
    var v := DeleteAt(d.view, i);
    Dicts(v, if d.shared then v else d.original, d.shared)
  }

  /** A distinct sequence has as many elements as its set. */
  lemma {:induction false} DistinctCard<T>(s: seq<T>)
    requires Distinct(s)
    ensures |set x | x in s| == |s|
  {
    if s != [] {
      DistinctCard(s[1..]);
      assert (set x | x in s) == (set x | x in s[1..]) + {s[0]};
      assert s[0] !in s[1..];
    }
  }

  /** A sub-view is never longer than the view it is drawn from. */
  lemma SubViewSize(a: View, b: View)
    requires a.Valid() && b.Valid() && SubView(a, b)
    ensures |a.order| <= |b.order|
  {
    DistinctCard(a.order);
    DistinctCard(b.order);
    SubsetCard(set x | x in a.order, set x | x in b.order);
  }

  lemma {:induction false} SubsetCard<T>(a: set<T>, b: set<T>)
    requires a <= b
    ensures |a| <= |b|
    decreases a
  {
    if a != {} {
      var x :| x in a;
      SubsetCard(a - {x}, b - {x});
    }
  }

  /** Extending the query narrows the result to a sub-view. */
  lemma FilterNarrows(dirs: View, q: Str, c: Str)
    requires dirs.Valid()
    ensures SubView(FilterByAlias(dirs, q + c), FilterByAlias(dirs, q))
  {
    var long, short := FilterByAlias(dirs, q + c), FilterByAlias(dirs, q);
    forall k | k in long.recs
      ensures k in short.recs && long.recs[k] == short.recs[k]
    {
      LowerAppend(q, c);
      ContainsShorter(Lower(dirs.recs[k].alias), Lower(q), Lower(c));
    }
  }

  /** The search is case-insensitive: folding the query first changes nothing. */
  lemma FilterCaseInsensitive(dirs: View, q: Str)
    requires dirs.Valid()
    ensures FilterByAlias(dirs, Lower(q)).recs == FilterByAlias(dirs, q).recs
  {
    LowerIdempotent(q);
    if q != [] {
      assert Lower(q) != [];
    }
  }
}
