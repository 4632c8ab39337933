/**
 * The JavaScript built-ins the components lean on, stated once:
 * `String.prototype.trim`, `String.prototype.split` with a one-character
 * separator, the matching `join`, and `Array.prototype.filter`.
 */
module Builtins {

  /** ECMAScript WhiteSpace and LineTerminator code points: what `trim` strips. */
  predicate IsWhitespace(c: char) {
    || c == '\t' || c == '\n' || c == '\U{000B}' || c == '\U{000C}' || c == '\r' || c == ' '
    || c == '\U{00A0}' || c == '\U{1680}' || ('\U{2000}' <= c <= '\U{200A}')
    || c == '\U{2028}' || c == '\U{2029}' || c == '\U{202F}' || c == '\U{205F}'
    || c == '\U{3000}' || c == '\U{FEFF}'
  }

  /** Neither end of `s` is whitespace. */
  predicate IsTrimmed(s: string) {
    s == [] || (!IsWhitespace(s[0]) && !IsWhitespace(s[|s| - 1]))
  }

  /** `t` is `s` without its leading whitespace. */
  ghost predicate LeadingWhitespaceRemoved(s: string, t: string) {
    && |t| <= |s| && t == s[|s| - |t|..]
    && (t == [] || !IsWhitespace(t[0]))
    && (forall k :: 0 <= k < |s| - |t| ==> IsWhitespace(s[k]))
  }

  /** `t` is `s` without its trailing whitespace. */
  ghost predicate TrailingWhitespaceRemoved(s: string, t: string) {
    && |t| <= |s| && t == s[..|t|]
    && (t == [] || !IsWhitespace(t[|t| - 1]))
    && (forall k :: |t| <= k < |s| ==> IsWhitespace(s[k]))
  }

  /** `s` with its leading whitespace removed. */
  function TrimStart(s: string): (r: string)
    ensures LeadingWhitespaceRemoved(s, r)
  {
    if s != [] && IsWhitespace(s[0]) then TrimStart(s[1..]) else s
  }

  /** `s` with its trailing whitespace removed. */
  function TrimEnd(s: string): (r: string)
    ensures TrailingWhitespaceRemoved(s, r)
  {
    if s != [] && IsWhitespace(s[|s| - 1]) then TrimEnd(s[..|s| - 1]) else s
  }

  /** `r` is the slice of `s` at offset `i`, and everything of `s` around it is whitespace. */
  ghost predicate SliceAmidWhitespace(s: string, r: string, i: int) {
    && 0 <= i <= |s| - |r|
    && r == s[i..i + |r|]
    && (forall k :: 0 <= k < i ==> IsWhitespace(s[k]))
    && (forall k :: i + |r| <= k < |s| ==> IsWhitespace(s[k]))
  }

  /**
   * `s.trim()`: the slice of `s` left after removing whitespace at both ends,
   * and only whitespace. It is empty exactly when `s` is all whitespace.
   */
  function Trim(s: string): (r: string)
    ensures IsTrimmed(r)
    ensures exists i :: SliceAmidWhitespace(s, r, i)
    ensures r == [] <==> forall k :: 0 <= k < |s| ==> IsWhitespace(s[k])
    ensures forall c :: c in r ==> c in s
    ensures IsTrimmed(s) ==> r == s
  {
    var t := TrimStart(s);
    var r := TrimEnd(t);
    TrimFacts(s, t, r);
    r
  }

  lemma TrimFacts(s: string, t: string, r: string)
    requires LeadingWhitespaceRemoved(s, t) && TrailingWhitespaceRemoved(t, r)
    ensures SliceAmidWhitespace(s, r, |s| - |t|)
    ensures IsTrimmed(r)
    ensures r == [] <==> forall k :: 0 <= k < |s| ==> IsWhitespace(s[k])
    ensures IsTrimmed(s) ==> r == s
  {
    var i := |s| - |t|;
    assert s[i..][..|r|] == s[i..i + |r|];
    forall k | i + |r| <= k < |s| ensures IsWhitespace(s[k]) {
      assert s[k] == t[k - i];
    }
    if r != [] {
      assert r[0] == s[i] && !IsWhitespace(s[i]);
    }
    if IsTrimmed(s) && s != [] {
      assert |t| == |s|;
      assert |r| == |t|;
    }
  }

  /** The fields of `xs` glued together with `sep` between neighbours. */
  function Join(xs: seq<string>, sep: char): string
  {
    if |xs| == 0 then "" else if |xs| == 1 then xs[0] else xs[0] + [sep] + Join(xs[1..], sep)
  }

  /**
   * `s.split(sep)`: the maximal separator-free pieces of `s`, in order.
   * There is always at least one piece, and gluing them back with `sep`
   * gives `s` again.
   */
  function Split(s: string, sep: char): (r: seq<string>)
    ensures |r| >= 1
    ensures forall k :: 0 <= k < |r| ==> sep !in r[k]
    ensures Join(r, sep) == s
  {
    if s == [] then [""]
    else
      var rest := Split(s[1..], sep);
      if s[0] == sep then
        assert ([""] + rest)[1..] == rest;
        [""] + rest
      else
        var r := [[s[0]] + rest[0]] + rest[1..];
        assert r[1..] == rest[1..];
        assert |rest| > 1 ==> Join(rest, sep) == rest[0] + [sep] + Join(rest[1..], sep);
        assert s == [s[0]] + s[1..];
        r
  }

  lemma {:induction false} SplitPrefix(a: string, t: string, sep: char)
    requires sep !in a
    ensures Split(a + t, sep) == [a + Split(t, sep)[0]] + Split(t, sep)[1..]
  {
    if a == [] {
      assert a + t == t;
      var st := Split(t, sep);
      assert a + st[0] == st[0];
      assert [st[0]] + st[1..] == st;
    } else {
      var a' := a[1..];
      assert a + t == [a[0]] + (a' + t);
      assert (a + t)[1..] == a' + t;
      SplitPrefix(a', t, sep);
      var st, rest := Split(t, sep), Split(a' + t, sep);
      assert Split(a + t, sep) == [[a[0]] + rest[0]] + rest[1..];
      assert rest[0] == a' + st[0] && rest[1..] == st[1..];
      assert [a[0]] + (a' + st[0]) == a + st[0];
    }
  }

  /** Splitting a join of separator-free fields gives the fields back. */
  lemma {:induction false} SplitOfJoin(xs: seq<string>, sep: char)
    requires |xs| >= 1
    requires forall k :: 0 <= k < |xs| ==> sep !in xs[k]
    ensures Split(Join(xs, sep), sep) == xs
  {
    if |xs| == 1 {
      SplitPrefix(xs[0], "", sep);
      assert xs[0] + "" == xs[0];
      assert xs == [xs[0]];
    } else {
      var j := Join(xs[1..], sep);
      SplitOfJoin(xs[1..], sep);
      SplitAfterSeparator(j, sep);
      SplitPrefix(xs[0], [sep] + j, sep);
      JoinCons(xs, sep);
      assert xs[0] + "" == xs[0];
      assert xs == [xs[0]] + xs[1..];
    }
  }

  /** Splitting at one separator splits each side on its own: the fields of `a`, then those of `b`. */
  lemma {:induction false} SplitAtSeparator(a: string, b: string, sep: char)
    ensures Split(a + [sep] + b, sep) == Split(a, sep) + Split(b, sep)
  {
    if a == [] {
      assert a + [sep] + b == [sep] + b;
      SplitAfterSeparator(b, sep);
    } else {
      var c, a' := a[0], a[1..];
      var x := a' + [sep] + b;
      assert a + [sep] + b == [c] + x;
      assert a == [c] + a';
      SplitAtSeparator(a', b, sep);
      SplitCons(c, x, sep);
      SplitCons(c, a', sep);
      ConsOfFields(c, Split(a', sep), Split(b, sep), c == sep);
    }
  }

  /** The field bookkeeping of one step of `SplitAtSeparator`. */
  lemma ConsOfFields(c: char, sa: seq<string>, sb: seq<string>, isSep: bool)
    requires |sa| >= 1
    ensures isSep ==> [""] + (sa + sb) == ([""] + sa) + sb
    ensures !isSep ==> [[c] + (sa + sb)[0]] + (sa + sb)[1..] == ([[c] + sa[0]] + sa[1..]) + sb
  {
    assert (sa + sb)[0] == sa[0];
    assert (sa + sb)[1..] == sa[1..] + sb;
  }

  /** Splitting a text that starts with `c`: a separator opens an empty field, anything else joins the first field. */
  lemma SplitCons(c: char, t: string, sep: char)
    ensures Split([c] + t, sep) == if c == sep then [""] + Split(t, sep) else [[c] + Split(t, sep)[0]] + Split(t, sep)[1..]
  {
    assert ([c] + t)[1..] == t;
  }

  /** A leading separator splits off one empty field. */
  lemma SplitAfterSeparator(t: string, sep: char)
    ensures Split([sep] + t, sep) == [""] + Split(t, sep)
  {
    assert ([sep] + t)[1..] == t;
  }

  lemma JoinCons(xs: seq<string>, sep: char)
    requires |xs| >= 2
    ensures Join(xs, sep) == xs[0] + ([sep] + Join(xs[1..], sep))
  {
  }

  /**
   * `xs.filter(keep)`: the elements that pass `keep`, in their original
   * order, each as often as in `xs`.
   */
  function Filter<T(==, !new)>(xs: seq<T>, keep: T -> bool): (r: seq<T>)
    ensures |r| <= |xs|
    ensures forall k :: 0 <= k < |r| ==> keep(r[k])
    ensures forall x :: x in r ==> x in xs
    ensures (forall k :: 0 <= k < |xs| ==> keep(xs[k])) ==> r == xs
  {
    if xs == [] then []
    else
      var rest := Filter(xs[1..], keep);
      if keep(xs[0]) then [xs[0]] + rest else rest
  }

  /** Every element that passes `keep` occurs in the result as often as in `xs`. */
  lemma {:induction false} FilterCount<T(!new)>(xs: seq<T>, keep: T -> bool, x: T)
    requires keep(x)
    ensures multiset(Filter(xs, keep))[x] == multiset(xs)[x]
  {
    if xs != [] {
      FilterCount(xs[1..], keep, x);
      assert xs == [xs[0]] + xs[1..];
    }
  }

  /** Filtering commutes with concatenation, so relative order is kept. */
  lemma {:induction false} FilterAppend<T(!new)>(a: seq<T>, b: seq<T>, keep: T -> bool)
    ensures Filter(a + b, keep) == Filter(a, keep) + Filter(b, keep)
  {
    if a != [] {
      assert (a + b)[1..] == a[1..] + b;
      assert (a + b)[0] == a[0];
      FilterAppend(a[1..], b, keep);
    } else {
      assert a + b == b;
    }
  }
}
