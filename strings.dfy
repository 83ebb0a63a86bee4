/** The two Python text operations the generator is built from: `sep.join(items)`
    and the list or generator expression `[f(x) for x in xs]` that produces the
    items.  `Offset` and `At` describe where `Join` puts each item, so that
    "one fragment per input, in input order, separated by `sep`" can be stated
    as a fact about positions in the output. */
module Strings {

  /** Python's `sep.join(xs)`. */
  function Join(sep: string, xs: seq<string>): string
  {
    if |xs| == 0 then ""
    else if |xs| == 1 then xs[0]
    else xs[0] + sep + Join(sep, xs[1..])
  }

  /** Python's `[f(x) for x in xs]`: one result per input, in input order. */
  function Map<A, B>(f: A -> B, xs: seq<A>): (r: seq<B>)
    ensures |r| == |xs|
    ensures forall i :: 0 <= i < |xs| ==> r[i] == f(xs[i])
  {
    if |xs| == 0 then [] else [f(xs[0])] + Map(f, xs[1..])
  }

  /** The position of `xs[i]` in `Join(sep, xs)`: every earlier item followed by one `sep`. */
  function Offset(sep: string, xs: seq<string>, i: nat): nat
    requires i <= |xs|
  {
    if i == 0 then 0 else Offset(sep, xs, i - 1) + |xs[i - 1]| + |sep|
  }

  /** Where the `sep` after `xs[i]` starts in `Join(sep, xs)`. */
  function SepAfter(sep: string, xs: seq<string>, i: nat): nat
    requires i < |xs|
  {
    Offset(sep, xs, i) + |xs[i]|
  }

  /** The summed lengths of `xs`. */
  function TotalLength(xs: seq<string>): nat
  {
    if |xs| == 0 then 0 else TotalLength(xs[..|xs| - 1]) + |xs[|xs| - 1]|
  }

  /** `t` occurs in `s` starting at index `k`. */
  predicate At(s: string, t: string, k: nat)
  {
    k + |t| <= |s| && s[k..k + |t|] == t
  }

  /** `s` ends with `t`. */
  predicate EndsWith(s: string, t: string)
  {
    |t| <= |s| && s[|s| - |t|..] == t
  }

  /** An occurrence in `b` is one in `b + c`, at the same place. */
  lemma AtLeft(b: string, c: string, t: string, j: nat)
    requires At(b, t, j)
    ensures At(b + c, t, j)
  {
    assert (b + c)[j..j + |t|] == b[j..j + |t|];
  }

  /** An occurrence in `b` is one in `a + b`, shifted by `|a|`. */
  lemma AtRight(a: string, b: string, t: string, j: nat)
    requires At(b, t, j)
    ensures At(a + b, t, |a| + j)
  {
    assert (a + b)[|a| + j..|a| + j + |t|] == b[j..j + |t|];
  }

  lemma {:induction false} OffsetShift(sep: string, xs: seq<string>, i: nat)
    requires 1 <= i <= |xs|
    ensures Offset(sep, xs, i) == |xs[0]| + |sep| + Offset(sep, xs[1..], i - 1)
  {
    if i > 1 {
      OffsetShift(sep, xs, i - 1);
    }
  }

  /** `Join` puts exactly one `sep` between consecutive items and nothing after
      the last one: its length is the sum of the item lengths plus `|xs| - 1`
      separators. */
  lemma {:induction false} JoinLength(sep: string, xs: seq<string>)
    requires |xs| > 0
    ensures |Join(sep, xs)| + |sep| == Offset(sep, xs, |xs|)
  {
    if |xs| > 1 {
      JoinLength(sep, xs[1..]);
      OffsetShift(sep, xs, |xs|);
    }
  }

  /** Item `i` of `xs` sits at `Offset(sep, xs, i)` in `Join(sep, xs)`, and a
      `sep` follows it unless it is the last item. */
  lemma {:induction false} JoinItemAt(sep: string, xs: seq<string>, i: nat)
    requires i < |xs|
    ensures At(Join(sep, xs), xs[i], Offset(sep, xs, i))
    ensures i + 1 < |xs| ==> At(Join(sep, xs), sep, SepAfter(sep, xs, i))
  {
    if |xs| == 1 {
      assert Join(sep, xs) == xs[0];
    } else if i == 0 {
      JoinFirstAt(sep, xs);
    } else {
      var rest := Join(sep, xs[1..]);
      assert Join(sep, xs) == (xs[0] + sep) + rest;
      JoinItemAt(sep, xs[1..], i - 1);
      OffsetShift(sep, xs, i);
      AtRight(xs[0] + sep, rest, xs[i], Offset(sep, xs[1..], i - 1));
      if i + 1 < |xs| {
        AtRight(xs[0] + sep, rest, sep, SepAfter(sep, xs[1..], i - 1));
      }
    }
  }

  /** With more than one item, `Join` starts with the first item and a `sep`. */
  lemma JoinFirstAt(sep: string, xs: seq<string>)
    requires |xs| > 1
    ensures At(Join(sep, xs), xs[0], 0)
    ensures At(Join(sep, xs), sep, SepAfter(sep, xs, 0))
  {
    var rest := Join(sep, xs[1..]);
    assert Join(sep, xs) == (xs[0] + sep) + rest;
    AtLeft(xs[0], sep, xs[0], 0);
    AtLeft(xs[0] + sep, rest, xs[0], 0);
    AtRight(xs[0], sep, sep, 0);
    AtLeft(xs[0] + sep, rest, sep, |xs[0]|);
  }

  /** Consecutive items are placed left to right: `Join` keeps the input order. */
  lemma {:induction false} OffsetIncreasing(sep: string, xs: seq<string>, i: nat, j: nat)
    requires i < j <= |xs|
    ensures Offset(sep, xs, i) + |xs[i]| + |sep| <= Offset(sep, xs, j)
  {
    if j > i + 1 {
      OffsetIncreasing(sep, xs, i, j - 1);
    }
  }

  /** An occurrence in the middle piece of `a + b + c` is one in the whole. */
  lemma AtMiddle(a: string, b: string, c: string, t: string, q: nat)
    requires At(b, t, q)
    ensures At(a + b + c, t, |a| + q)
  {
    AtRight(a, b, t, q);
    AtLeft(a + b, c, t, |a| + q);
  }

  /** An occurrence in the last piece of `a + b + c` is one in the whole. */
  lemma AtLast(a: string, b: string, c: string, t: string, q: nat)
    requires At(c, t, q)
    ensures At(a + b + c, t, |a| + |b| + q)
  {
    AtRight(a + b, c, t, q);
  }

  /** `b + c` ends `a + b + c`. */
  lemma EndsWithLastTwo(a: string, b: string, c: string)
    ensures EndsWith(a + b + c, b + c)
  {
    assert (a + b + c)[|a|..] == b + c;
  }

  /** An occurrence in `a` stays put when three more pieces are appended, each
      as its own left-grouped `+`. */
  lemma AtExtend3(a: string, b: string, c: string, d: string, t: string, k: nat)
    requires At(a, t, k)
    ensures At(a + b + c + d, t, k)
  {
    AtLeft(a, b, t, k);
    AtLeft(a + b, c, t, k);
    AtLeft(a + b + c, d, t, k);
  }

  /** Every string occurs in itself at 0. */
  lemma AtSelf(s: string)
    ensures At(s, s, 0)
  {
    assert s[0..|s|] == s;
  }

  /** Appending the same text to both sides keeps a suffix a suffix. */
  lemma EndsWithAppend(a: string, x: string, b: string)
    requires EndsWith(a, x)
    ensures EndsWith(a + b, x + b)
  {
    assert (a + b)[|a + b| - |x + b|..] == a[|a| - |x|..] + b;
  }

  /** A suffix of a suffix is a suffix. */
  lemma EndsWithTrans(a: string, b: string, c: string)
    requires EndsWith(a, b) && EndsWith(b, c)
    ensures EndsWith(a, c)
  {
    assert a[|a| - |c|..] == b[|b| - |c|..];
  }

  /** `b` ends `a + b`. */
  lemma EndsWithLast(a: string, b: string)
    ensures EndsWith(a + b, b)
  {
    assert (a + b)[|a + b| - |b|..] == b;
  }

  /** Three strings appear in their concatenation one after the other. */
  lemma PartsInOrder(a: string, b: string, c: string)
    ensures At(a + b + c, a, 0)
    ensures At(a + b + c, b, |a|)
    ensures At(a + b + c, c, |a| + |b|)
    ensures EndsWith(a + b + c, c)
  {
    assert (a + b + c)[..|a|] == a;
    AtSelf(b);
    AtMiddle(a, b, c, b, 0);
    EndsWithLast(a + b, c);
    assert (a + b + c)[|a| + |b|..|a| + |b| + |c|] == c;
  }

  /** The three parts of `a + (b + c)`, grouped as a head followed by a body of
      two parts, lie one after the other and fill it. */
  lemma HeadThenTwoParts(a: string, b: string, c: string)
    ensures At(a + (b + c), a, 0)
    ensures At(a + (b + c), b, |a|)
    ensures At(a + (b + c), c, |a| + |b|)
    ensures |a + (b + c)| == |a| + |b| + |c|
  {
    assert a + (b + c) == a + b + c;
    PartsInOrder(a, b, c);
  }

  /** A suffix of `b + c` is a suffix of `a + b + c`. */
  lemma EndsWithOfLastTwo(a: string, b: string, c: string, x: string)
    requires EndsWith(b + c, x)
    ensures EndsWith(a + b + c, x)
  {
    EndsWithLastTwo(a, b, c);
    EndsWithTrans(a + b + c, b + c, x);
  }

  /** `b + c`, and so any suffix `x` of `b` followed by `c`, ends `a + b + "" + c`. */
  lemma EndsWithThroughEmpty(a: string, b: string, c: string, x: string)
    requires EndsWith(b, x)
    ensures EndsWith(a + b + "" + c, b + c)
    ensures EndsWith(a + b + "" + c, x + c)
  {
    assert a + b + "" == a + b;
    EndsWithLastTwo(a, b, c);
    EndsWithAppend(b, x, c);
    EndsWithOfLastTwo(a, b, c, x + c);
  }

  // A join embedded in surrounding text: its items and separators keep their
  // place in the join, shifted by the text before it.  Each lemma below takes
  // the surrounding pieces in the same left-to-right grouping as the template
  // that uses it, so that its conclusion applies to that template as written.

  /** Item `i` of a join placed between `a` and `c`. */
  lemma JoinItemBetween(a: string, sep: string, xs: seq<string>, c: string, i: nat)
    requires i < |xs|
    ensures At(a + Join(sep, xs) + c, xs[i], |a| + Offset(sep, xs, i))
  {
    JoinItemAt(sep, xs, i);
    AtMiddle(a, Join(sep, xs), c, xs[i], Offset(sep, xs, i));
  }

  /** The separator after item `i` of a join placed between `a` and `c`. */
  lemma JoinSepBetween(a: string, sep: string, xs: seq<string>, c: string, i: nat)
    requires i + 1 < |xs|
    ensures At(a + Join(sep, xs) + c, sep, |a| + SepAfter(sep, xs, i))
  {
    JoinItemAt(sep, xs, i);
    AtMiddle(a, Join(sep, xs), c, sep, SepAfter(sep, xs, i));
  }

  /** Item `i` of a join that is the second of four pieces (the `WHEN` guard
      inside the update trigger). */
  lemma JoinItemBetween4(a: string, sep: string, xs: seq<string>, c: string, d: string, i: nat)
    requires i < |xs|
    ensures At(a + Join(sep, xs) + c + d, xs[i], |a| + Offset(sep, xs, i))
  {
    JoinItemBetween(a, sep, xs, c, i);
    AtLeft(a + Join(sep, xs) + c, d, xs[i], |a| + Offset(sep, xs, i));
  }

  /** The separator after item `i` of a join that is the second of four pieces. */
  lemma JoinSepBetween4(a: string, sep: string, xs: seq<string>, c: string, d: string, i: nat)
    requires i + 1 < |xs|
    ensures At(a + Join(sep, xs) + c + d, sep, |a| + SepAfter(sep, xs, i))
  {
    JoinSepBetween(a, sep, xs, c, i);
    AtLeft(a + Join(sep, xs) + c, d, sep, |a| + SepAfter(sep, xs, i));
  }

  /** Item `i` of a join that is the second of six pieces (the column block of
      the history table's DDL). */
  lemma JoinItemSecondOfSix(a: string, sep: string, xs: seq<string>, c: string, d: string, e: string, f: string, i: nat)
    requires i < |xs|
    ensures At(a + Join(sep, xs) + c + d + e + f, xs[i], |a| + Offset(sep, xs, i))
  {
    JoinItemBetween(a, sep, xs, c, i);
    AtExtend3(a + Join(sep, xs) + c, d, e, f, xs[i], |a| + Offset(sep, xs, i));
  }

  /** The separator after item `i` of a join that is the second of six pieces. */
  lemma JoinSepSecondOfSix(a: string, sep: string, xs: seq<string>, c: string, d: string, e: string, f: string, i: nat)
    requires i + 1 < |xs|
    ensures At(a + Join(sep, xs) + c + d + e + f, sep, |a| + SepAfter(sep, xs, i))
  {
    JoinSepBetween(a, sep, xs, c, i);
    AtExtend3(a + Join(sep, xs) + c, d, e, f, sep, |a| + SepAfter(sep, xs, i));
  }

  /** Item `i` of a join that is the fifth of six pieces (the key list of the
      history table's index). */
  lemma JoinItemFifthOfSix(a: string, b: string, c: string, d: string, sep: string, xs: seq<string>, f: string, i: nat)
    requires i < |xs|
    ensures At(a + b + c + d + Join(sep, xs) + f, xs[i], |a| + |b| + |c| + |d| + Offset(sep, xs, i))
  {
    JoinItemBetween(a + b + c + d, sep, xs, f, i);
  }

  /** The separator after item `i` of a join that is the fifth of six pieces. */
  lemma JoinSepFifthOfSix(a: string, b: string, c: string, d: string, sep: string, xs: seq<string>, f: string, i: nat)
    requires i + 1 < |xs|
    ensures At(a + b + c + d + Join(sep, xs) + f, sep, |a| + |b| + |c| + |d| + SepAfter(sep, xs, i))
  {
    JoinSepBetween(a + b + c + d, sep, xs, f, i);
  }

  /** Item `i` of a join nested as the second of four pieces inside the middle
      of three (a guard test inside the update trigger inside the whole output). */
  lemma JoinItemNestedInMiddle(p: string, a: string, sep: string, xs: seq<string>, c: string, d: string, r: string,
                               i: nat)
    requires i < |xs|
    ensures At(p + (a + Join(sep, xs) + c + d) + r, xs[i], |p| + (|a| + Offset(sep, xs, i)))
  {
    JoinItemBetween4(a, sep, xs, c, d, i);
    AtMiddle(p, a + Join(sep, xs) + c + d, r, xs[i], |a| + Offset(sep, xs, i));
  }

  /** Item `i` of a join nested one level deeper in the middle of three pieces
      (a key match inside the update trigger's close statement inside the whole
      output). */
  lemma JoinItemNestedInMiddle2(p: string, h: string, a: string, sep: string, xs: seq<string>, c: string, d: string,
                                r: string, i: nat)
    requires i < |xs|
    ensures At(p + (h + (a + Join(sep, xs) + c + d)) + r, xs[i], |p| + (|h| + (|a| + Offset(sep, xs, i))))
  {
    JoinItemAfterHead(h, a, sep, xs, c, d, i);
    AtMiddle(p, h + (a + Join(sep, xs) + c + d), r, xs[i], |h| + (|a| + Offset(sep, xs, i)));
  }

  /** Item `i` of a join that is the second of four pieces, all after a head `h`. */
  lemma JoinItemAfterHead(h: string, a: string, sep: string, xs: seq<string>, c: string, d: string, i: nat)
    requires i < |xs|
    ensures At(h + (a + Join(sep, xs) + c + d), xs[i], |h| + (|a| + Offset(sep, xs, i)))
  {
    JoinItemBetween4(a, sep, xs, c, d, i);
    AtRight(h, a + Join(sep, xs) + c + d, xs[i], |a| + Offset(sep, xs, i));
  }

  /** Item `i` of a join nested in the last of three pieces (a key match inside
      the delete trigger's close statement inside the whole output). */
  lemma JoinItemNestedInLast(p: string, q: string, h: string, a: string, sep: string, xs: seq<string>, c: string,
                             e: string, i: nat)
    requires i < |xs|
    ensures At(p + q + (h + (a + Join(sep, xs) + c) + e), xs[i], |p| + |q| + (|h| + (|a| + Offset(sep, xs, i))))
  {
    JoinItemInMiddleOfThree(h, a, sep, xs, c, e, i);
    AtLast(p, q, h + (a + Join(sep, xs) + c) + e, xs[i], |h| + (|a| + Offset(sep, xs, i)));
  }

  /** Item `i` of a join placed between `a` and `c`, that text being the middle of three pieces. */
  lemma JoinItemInMiddleOfThree(h: string, a: string, sep: string, xs: seq<string>, c: string, e: string, i: nat)
    requires i < |xs|
    ensures At(h + (a + Join(sep, xs) + c) + e, xs[i], |h| + (|a| + Offset(sep, xs, i)))
  {
    JoinItemBetween(a, sep, xs, c, i);
    AtMiddle(h, a + Join(sep, xs) + c, e, xs[i], |a| + Offset(sep, xs, i));
  }

  /** Six strings appear in their concatenation one after the other (the six
      pieces of the history table's DDL). */
  lemma SixPartsInOrder(a: string, b: string, c: string, d: string, e: string, f: string)
    ensures At(a + b + c + d + e + f, a, 0)
    ensures At(a + b + c + d + e + f, b, |a|)
    ensures At(a + b + c + d + e + f, c, |a| + |b|)
    ensures At(a + b + c + d + e + f, d, |a| + |b| + |c|)
    ensures At(a + b + c + d + e + f, e, |a| + |b| + |c| + |d|)
    ensures |a + b + c + d + e + f| == |a| + |b| + |c| + |d| + |e| + |f|
    ensures EndsWith(a + b + c + d + e + f, f)
  {
    var s := a + b + c + d + e + f;
    assert s[..|a|] == a;
    assert s[|a|..|a| + |b|] == b;
    assert s[|a| + |b|..|a| + |b| + |c|] == c;
    assert s[|a| + |b| + |c|..|a| + |b| + |c| + |d|] == d;
    assert s[|a| + |b| + |c| + |d|..|a| + |b| + |c| + |d| + |e|] == e;
    EndsWithLast(a + b + c + d + e, f);
  }

  /** Before item `i` of a join come the first `i` items and `i` separators. */
  lemma {:induction false} OffsetCounts(sep: string, xs: seq<string>, i: nat)
    requires i <= |xs|
    ensures Offset(sep, xs, i) == TotalLength(xs[..i]) + i * |sep|
  {
    if i > 0 {
      OffsetCounts(sep, xs, i - 1);
      assert xs[..i][..i - 1] == xs[..i - 1];
      assert (i - 1) * |sep| + |sep| == i * |sep|;
    }
  }

  /** A join of `n > 0` items is as long as the items plus `n - 1` separators. */
  lemma JoinCountsSeparators(sep: string, xs: seq<string>)
    requires |xs| > 0
    ensures |Join(sep, xs)| == TotalLength(xs) + (|xs| - 1) * |sep|
  {
    JoinLength(sep, xs);
    OffsetCounts(sep, xs, |xs|);
    assert xs[..|xs|] == xs;
    assert (|xs| - 1) * |sep| + |sep| == |xs| * |sep|;
  }
}
