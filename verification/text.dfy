/** Python strings as sequences of code points, and the few `str` operations
    the picker uses: `lower`, `in` (substring), `ljust`, `[:n]`, `[:-1]`. */
module Text {

  /** A Python code point: `chr(k)` accepts exactly these values. */
  type CodePoint = c: int | 0 <= c < 0x11_0000

  /** A Python `str`. */
  type Str = seq<CodePoint>

  /** The errors the picker's frame can raise. */
  datatype PyError = IndexError | ValueError

  datatype Result<+T> = Ok(value: T) | Err(error: PyError)

  datatype Option<+T> = None | Some(value: T)

  /** A Dafny string literal read as code points. */
  function Lit(s: string): (r: Str)
    ensures |r| == |s|
    ensures forall i :: 0 <= i < |s| ==> r[i] == s[i] as int
  {
    seq(|s|, i requires 0 <= i < |s| => s[i] as int)
  }

  /** `chr(key)`: defined only for code points, otherwise ValueError. */
  function Chr(key: int): Option<CodePoint>
  {
    if 0 <= key < 0x11_0000 then Some(key) else None
  }

  /** Case folding of one code point; only the ASCII letters are mapped. */
  function LowerChar(c: CodePoint): CodePoint
  {
    if 'A' as int <= c <= 'Z' as int then c + 32 else c
  }

  /** `s.lower()`, character by character. */
  function Lower(s: Str): Str
  {
    seq(|s|, i requires 0 <= i < |s| => LowerChar(s[i]))
  }

  lemma LowerIdempotent(s: Str)
    ensures Lower(Lower(s)) == Lower(s)
  {
    assert forall i :: 0 <= i < |s| ==> Lower(Lower(s))[i] == Lower(s)[i];
  }

  lemma LowerAppend(s: Str, t: Str)
    ensures Lower(s + t) == Lower(s) + Lower(t)
  {
    assert forall i :: 0 <= i < |s + t| ==> Lower(s + t)[i] == (Lower(s) + Lower(t))[i];
  }

  predicate IsPrefix(p: Str, s: Str) {
    |p| <= |s| && s[..|p|] == p
  }

  /** Python's `q in s` for strings: `q` occurs as a contiguous block of `s`. */
  predicate Contains(s: Str, q: Str)
    decreases |s|
  {
    IsPrefix(q, s) || (|s| > 0 && Contains(s[1..], q))
  }

  /** `Contains` is the existence of an occurrence offset. */
  lemma {:induction false} ContainsAt(s: Str, q: Str)
    ensures Contains(s, q) <==> exists i :: 0 <= i <= |s| && IsPrefix(q, s[i..])
    decreases |s|
  {
    assert s[0..] == s;
    if |s| > 0 {
      ContainsAt(s[1..], q);
      if Contains(s[1..], q) {
        var i :| 0 <= i <= |s[1..]| && IsPrefix(q, s[1..][i..]);
        assert s[1..][i..] == s[i + 1..];
      }
      if exists i :: 0 <= i <= |s| && IsPrefix(q, s[i..]) {
        var i :| 0 <= i <= |s| && IsPrefix(q, s[i..]);
        if i > 0 {
          assert s[1..][i - 1..] == s[i..];
        }
      }
    } else {
      if exists i :: 0 <= i <= |s| && IsPrefix(q, s[i..]) {
        var i :| 0 <= i <= |s| && IsPrefix(q, s[i..]);
        assert i == 0;
      }
    }
  }

  /** Every string contains the empty string. */
  lemma ContainsEmpty(s: Str)
    ensures Contains(s, [])
  {
    assert IsPrefix([], s);
  }

  /** Extending a search term can only lose matches. */
  lemma {:induction false} ContainsShorter(s: Str, q: Str, c: Str)
    requires Contains(s, q + c)
    ensures Contains(s, q)
    decreases |s|
  {
    if IsPrefix(q + c, s) {
      assert s[..|q|] == (q + c)[..|q|] == q;
    } else {
      ContainsShorter(s[1..], q, c);
    }
  }

  /** Python's `max(a, b)`. */
  function Max(a: int, b: int): int {
    if a >= b then a else b
  }

  /** Python's `min(a, b)`. */
  function Min(a: int, b: int): int {
    if a <= b then a else b
  }

  /** Python's `a % n` for `n > 0`: Dafny's Euclidean `%` agrees with
      Python's floored one when the divisor is positive. */
  function PyMod(a: int, n: int): (r: int)
    requires n > 0
    ensures 0 <= r < n
    ensures 0 <= a < n ==> r == a
    ensures a == -1 ==> r == n - 1
    ensures a == n ==> r == 0
  {
    a % n
  }

  /** `" " * n` (empty for n <= 0). */
  function Spaces(n: int): (r: Str)
    ensures |r| == if n > 0 then n else 0
    ensures forall i :: 0 <= i < |r| ==> r[i] == ' ' as int
  {
    if n <= 0 then [] else [' ' as int] + Spaces(n - 1)
  }

  /** `s.ljust(w)`: pad with spaces on the right up to width `w`; never cuts. */
  function LJust(s: Str, w: int): (r: Str)
    ensures |r| == if |s| >= w then |s| else w
    ensures r[..|s|] == s
    ensures forall i :: |s| <= i < |r| ==> r[i] == ' ' as int
  {
    if |s| >= w then s else s + Spaces(w - |s|)
  }

  /** Padding to a wider column is padding to the narrower one followed by
      that many more spaces. */
  lemma LJustWiden(s: Str, w: int, k: nat)
    requires |s| <= w
    ensures LJust(s, w + k) == LJust(s, w) + Spaces(k)
  {
    assert forall i :: 0 <= i < w + k ==> LJust(s, w + k)[i] == (LJust(s, w) + Spaces(k))[i];
  }

  /** `s[:n]`: a non-negative `n` keeps the first `n` code points,
      a negative `n` drops the last `-n`. */
  function PyTake(s: Str, n: int): (r: Str)
    ensures IsPrefix(r, s)
    ensures n >= 0 ==> |r| == (if n <= |s| then n else |s|)
    ensures n < 0 ==> |r| == (if |s| + n >= 0 then |s| + n else 0)
  {
    if n >= 0 then (if n <= |s| then s[..n] else s)
    else (if |s| + n >= 0 then s[..|s| + n] else [])
  }

  /** `s[:-1]`: drop the last code point; the empty string stays empty. */
  function DropLast(s: Str): (r: Str)
    ensures s == [] ==> r == []
    ensures s != [] ==> r + [s[|s| - 1]] == s
  {
    PyTake(s, -1)
  }

  /** `sep.join(parts)`. */
  function Join(sep: Str, parts: seq<Str>): Str {
    if |parts| == 0 then []
    else if |parts| == 1 then parts[0]
    else parts[0] + sep + Join(sep, parts[1..])
  }
}
