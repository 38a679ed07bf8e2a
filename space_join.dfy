/**
 The text operation at the heart of the echo handler: Python's
 `' '.join(texts)`, which puts one space between consecutive strings and
 none at either end. `Join` is the definition the rest of the model uses;
 `JoinLeft` (a fold from the other end) and `SplitOnSpace` (Python's
 `str.split(' ')`) are independent definitions that pin down what it means.
 */
module SpaceJoin {

  /** Total number of characters in `xs`. */
  function SumLengths(xs: seq<string>): nat
  {
    if |xs| == 0 then 0 else |xs[0]| + SumLengths(xs[1..])
  }

  /** `' '.join(xs)`: the strings of `xs` in order, separated by single spaces. */
  function Join(xs: seq<string>): (r: string)
    ensures |xs| == 0 ==> |r| == 0
    ensures |xs| > 0 ==> |r| == SumLengths(xs) + |xs| - 1
  {
    if |xs| == 0 then ""
    else if |xs| == 1 then xs[0]
    else xs[0] + " " + Join(xs[1..])
  }

  /** The same join, built by appending each string to the join of those before it. */
  function JoinLeft(xs: seq<string>): string
  {
    if |xs| == 0 then ""
    else if |xs| == 1 then xs[0]
    else JoinLeft(xs[..|xs| - 1]) + " " + xs[|xs| - 1]
  }

  /** Python's `s.split(' ')`: the maximal space-free pieces of `s`, in order.
      There is always at least one piece, and `""` splits into `[""]`. */
  function SplitOnSpace(s: string): (pieces: seq<string>)
    ensures |pieces| >= 1
    ensures forall i :: 0 <= i < |pieces| ==> ' ' !in pieces[i]
  {
    if |s| == 0 then [""]
    else
      var rest := SplitOnSpace(s[1..]);
      if s[0] == ' ' then [""] + rest
      else [[s[0]] + rest[0]] + rest[1..]
  }

  /** No string of `xs` contains a space. */
  predicate SpaceFree(xs: seq<string>)
  {
    forall i :: 0 <= i < |xs| ==> ' ' !in xs[i]
  }

  /** Joining nothing gives the empty string, and joining one string gives it back. */
  lemma JoinShortLists(x: string)
    ensures Join([]) == ""
    ensures Join([x]) == x
  {
  }

  /** Joining a concatenation puts exactly one space where the two halves meet. */
  lemma {:induction false} JoinAppend(xs: seq<string>, ys: seq<string>)
    requires |xs| > 0 && |ys| > 0
    ensures Join(xs + ys) == Join(xs) + " " + Join(ys)
  {
    if |xs| == 1 {
      assert (xs + ys)[1..] == ys;
    } else {
      assert (xs + ys)[1..] == xs[1..] + ys;
      JoinAppend(xs[1..], ys);
    }
  }

  /** `Join` and the left fold agree on every list: the join keeps input order. */
  lemma {:induction false} JoinAgreesWithLeftFold(xs: seq<string>)
    ensures Join(xs) == JoinLeft(xs)
    decreases |xs|
  {
    if |xs| >= 2 {
      var init, last := xs[..|xs| - 1], xs[|xs| - 1];
      assert xs == init + [last];
      JoinAppend(init, [last]);
      JoinAgreesWithLeftFold(init);
    }
  }

  /** A space-free word followed by a space splits off as the first piece. */
  lemma {:induction false} SplitAfterWord(a: string, b: string)
    requires ' ' !in a
    ensures SplitOnSpace(a + " " + b) == [a] + SplitOnSpace(b)
  {
    if |a| == 0 {
      assert (a + " " + b)[1..] == b;
    } else {
      assert (a + " " + b)[1..] == a[1..] + " " + b;
      SplitAfterWord(a[1..], b);
      assert [a[0]] + a[1..] == a;
    }
  }

  /** A space-free string is a single piece. */
  lemma {:induction false} SplitWord(a: string)
    requires ' ' !in a
    ensures SplitOnSpace(a) == [a]
  {
    if |a| > 0 {
      SplitWord(a[1..]);
      assert [a[0]] + a[1..] == a;
    }
  }

  /** Splitting a join of space-free strings gives the strings back. */
  lemma {:induction false} SplitOfJoin(xs: seq<string>)
    requires |xs| > 0 && SpaceFree(xs)
    ensures SplitOnSpace(Join(xs)) == xs
  {
    if |xs| == 1 {
      SplitWord(xs[0]);
    } else {
      SplitAfterWord(xs[0], Join(xs[1..]));
      SplitOfJoin(xs[1..]);
    }
  }

  /** Joining the pieces of any string gives that string back. */
  lemma {:induction false} JoinOfSplit(s: string)
    ensures Join(SplitOnSpace(s)) == s
  {
    if |s| > 0 {
      var rest := SplitOnSpace(s[1..]);
      JoinOfSplit(s[1..]);
      if s[0] == ' ' {
        assert ([""] + rest)[1..] == rest;
      } else if |rest| >= 2 {
        assert Join(rest) == rest[0] + " " + Join(rest[1..]);
        assert ([[s[0]] + rest[0]] + rest[1..])[1..] == rest[1..];
      }
    }
  }
}
