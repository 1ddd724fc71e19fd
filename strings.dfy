/**
 * Joining strings with a one-character separator, as Python's `sep.join(xs)`
 * does, and splitting them again. `Split` is an independent inverse used to
 * state that a join keeps every piece, in order.
 */
module Strings {

  /** Sum of the lengths of the pieces. */
  function TotalLength(xs: seq<string>): (n: nat)
  {
    if xs == [] then 0 else |xs[0]| + TotalLength(xs[1..])
  }

  /** `[sep].join(xs)`: the pieces in order with one separator between neighbours. */
  function Join(xs: seq<string>, sep: char): (r: string)
    ensures xs == [] ==> r == ""
    ensures xs != [] ==> |r| == TotalLength(xs) + |xs| - 1
    ensures |xs| == 1 ==> r == xs[0]
  {
    if xs == [] then ""
    else if |xs| == 1 then xs[0]
    else xs[0] + [sep] + Join(xs[1..], sep)
  }

  /** Joining two non-empty lists puts exactly one separator between the two
      joins; with `Join([x]) == x` this fixes the contents of every join. */
  lemma {:induction false} JoinAppend(a: seq<string>, b: seq<string>, sep: char)
    requires a != [] && b != []
    ensures Join(a + b, sep) == Join(a, sep) + [sep] + Join(b, sep)
  {
    if |a| == 1 {
      assert a + b == [a[0]] + b;
      assert (a + b)[1..] == b;
    } else {
      assert (a + b)[0] == a[0];
      assert (a + b)[1..] == a[1..] + b;
      JoinAppend(a[1..], b, sep);
    }
  }

  /** Cuts `s` at every occurrence of `sep`; there is always at least one piece. */
  function Split(s: string, sep: char): (r: seq<string>)
    ensures |r| >= 1
  {
    if s == [] then [""]
    else
      var rest := Split(s[1..], sep);
      if s[0] == sep then [""] + rest
      else [[s[0]] + rest[0]] + rest[1..]
  }

  /** A separator-free prefix is glued onto the first piece of what follows it. */
  lemma {:induction false} SplitSeparatorFree(a: string, rest: string, sep: char)
    requires sep !in a
    ensures Split(a + rest, sep) == [a + Split(rest, sep)[0]] + Split(rest, sep)[1..]
  {
    if a != [] {
      assert (a + rest)[1..] == a[1..] + rest;
      assert (a + rest)[0] == a[0];
      SplitSeparatorFree(a[1..], rest, sep);
      assert [a[0]] + (a[1..] + Split(rest, sep)[0]) == a + Split(rest, sep)[0];
    } else {
      assert a + rest == rest;
      assert a + Split(rest, sep)[0] == Split(rest, sep)[0];
      assert Split(rest, sep) == [Split(rest, sep)[0]] + Split(rest, sep)[1..];
    }
  }

  /** Splitting a join at the same separator gives the pieces back, in order,
      when no piece contains the separator. */
  lemma {:induction false} SplitJoin(xs: seq<string>, sep: char)
    requires |xs| >= 1
    requires forall i :: 0 <= i < |xs| ==> sep !in xs[i]
    ensures Split(Join(xs, sep), sep) == xs
  {
    if |xs| == 1 {
      SplitSeparatorFree(xs[0], "", sep);
      assert xs[0] + "" == xs[0];
    } else {
      var tail := Join(xs[1..], sep);
      SplitJoin(xs[1..], sep);
      var s := [sep] + tail;
      assert s[0] == sep && s[1..] == tail;
      assert Split(s, sep) == [""] + xs[1..];
      SplitSeparatorFree(xs[0], s, sep);
      assert Join(xs, sep) == xs[0] + s;
      assert xs[0] + "" == xs[0];
      assert xs == [xs[0]] + xs[1..];
    }
  }

  /** Where the pieces of a four-part concatenation sit. */
  lemma FourPieces(a: string, b: string, c: string, d: string)
    ensures a + b + c <= a + b + c + d
    ensures (a + b + c + d)[|a|..|a| + |b|] == b
    ensures (a + b + c + d)[|a + b + c|..] == d
  {
    var s := a + b + c + d;
    assert s == a + (b + (c + d));
    assert s[|a|..] == b + (c + d);
    assert (b + (c + d))[..|b|] == b;
  }

  /** A join is empty exactly when there is no piece, or one empty piece. */
  lemma JoinEmpty(xs: seq<string>, sep: char)
    ensures Join(xs, sep) == "" <==> xs == [] || xs == [""]
  {
    if |xs| == 1 && Join(xs, sep) == "" {
      assert xs == [xs[0]];
    }
  }
}
