/**
 * The text of a multi-valued submission: the submitted elements joined with a
 * comma and nothing else (no quoting, no escaping), and, as its partner, a
 * reference splitter that cuts a text at every comma.
 */
module CommaText {

  /** The separator the parameter passes to the JSON array's `join`. */
  const Separator: char := ','

  /** No element of `xs` contains the separator. */
  predicate NoSeparator(xs: seq<string>)
  {
    forall i :: 0 <= i < |xs| ==> Separator !in xs[i]
  }

  /** The elements in their submitted order, with one separator between neighbours. */
  function Join(xs: seq<string>): (r: string)
    ensures |xs| == 0 ==> r == ""
    ensures |xs| == 1 ==> r == xs[0]
    ensures |xs| > 0 ==> |xs[0]| <= |r| && r[..|xs[0]|] == xs[0]
  {
    if |xs| == 0 then ""
    else if |xs| == 1 then xs[0]
    else xs[0] + [Separator] + Join(xs[1..])
  }

  /** The pieces of `s` between consecutive separators; always at least one piece. */
  function Split(s: string): (r: seq<string>)
    ensures |r| >= 1
    ensures NoSeparator(r)
  {
    if |s| == 0 then [""]
    else if s[0] == Separator then [""] + Split(s[1..])
    else
      var rest := Split(s[1..]);
      [[s[0]] + rest[0]] + rest[1..]
  }

  /** A piece with no separator is split off whole, ahead of what follows its separator. */
  lemma {:induction false} SplitAfterPiece(a: string, s: string)
    requires Separator !in a
    ensures Split(a + [Separator] + s) == [a] + Split(s)
  {
    if |a| == 0 {
      assert a + [Separator] + s == [Separator] + s;
      assert ([Separator] + s)[1..] == s;
    } else {
      assert (a + [Separator] + s)[1..] == a[1..] + [Separator] + s;
      SplitAfterPiece(a[1..], s);
      assert [a[0]] + a[1..] == a;
    }
  }

  /** A text with no separator is a single piece. */
  lemma {:induction false} SplitSinglePiece(a: string)
    requires Separator !in a
    ensures Split(a) == [a]
  {
    if |a| > 0 {
      SplitSinglePiece(a[1..]);
      assert [a[0]] + a[1..] == a;
    }
  }

  /**
   * Splitting the joined text gives back the submitted elements, in order,
   * provided there is at least one and none contains the separator.
   */
  lemma {:induction false} SplitJoin(xs: seq<string>)
    requires |xs| > 0 && NoSeparator(xs)
    ensures Split(Join(xs)) == xs
  {
    assert Separator !in xs[0];
    if |xs| == 1 {
      SplitSinglePiece(xs[0]);
    } else {
      assert NoSeparator(xs[1..]) by {
        forall i | 0 <= i < |xs[1..]| ensures Separator !in xs[1..][i] {
          assert xs[1..][i] == xs[i + 1];
        }
      }
      SplitJoin(xs[1..]);
      SplitAfterPiece(xs[0], Join(xs[1..]));
      assert [xs[0]] + xs[1..] == xs;
    }
  }

  /** The other direction: joining the pieces of any text rebuilds the text. */
  lemma {:induction false} JoinSplit(s: string)
    ensures Join(Split(s)) == s
  {
    if |s| > 0 {
      JoinSplit(s[1..]);
      var rest := Split(s[1..]);
      if s[0] == Separator {
        assert ([""] + rest)[1..] == rest;
        assert [s[0]] + s[1..] == s;
      } else {
        var r := [[s[0]] + rest[0]] + rest[1..];
        assert r[1..] == rest[1..];
        if |rest| == 1 {
          assert [s[0]] + rest[0] == s;
        } else {
          assert Join(rest) == rest[0] + [Separator] + Join(rest[1..]);
          assert Join(r) == [s[0]] + rest[0] + [Separator] + Join(rest[1..]);
          assert [s[0]] + s[1..] == s;
        }
      }
    }
  }

  /** Joining preserves order: the join of a concatenation is the joins of its halves, comma-separated. */
  lemma {:induction false} JoinAppend(xs: seq<string>, ys: seq<string>)
    requires |xs| > 0 && |ys| > 0
    ensures Join(xs + ys) == Join(xs) + [Separator] + Join(ys)
  {
    if |xs| == 1 {
      assert (xs + ys)[1..] == ys;
    } else {
      assert (xs + ys)[1..] == xs[1..] + ys;
      JoinAppend(xs[1..], ys);
    }
  }

  /**
   * There is no escaping: an element holding a comma joins to the same text as
   * the two elements on either side of that comma.
   */
  lemma {:induction false} JoinDoesNotEscape(xs: seq<string>, a: string, b: string, ys: seq<string>)
    ensures Join(xs + [a + [Separator] + b] + ys) == Join(xs + [a, b] + ys)
  {
    if |xs| == 0 {
      assert xs + [a + [Separator] + b] + ys == [a + [Separator] + b] + ys;
      assert xs + [a, b] + ys == [a] + ([b] + ys);
      if |ys| > 0 {
        JoinAppend([a + [Separator] + b], ys);
        JoinAppend([a], [b] + ys);
        JoinAppend([b], ys);
      }
    } else {
      assert (xs + [a + [Separator] + b] + ys)[1..] == xs[1..] + [a + [Separator] + b] + ys;
      assert (xs + [a, b] + ys)[1..] == xs[1..] + [a, b] + ys;
      JoinDoesNotEscape(xs[1..], a, b, ys);
      JoinAppend([xs[0]], xs[1..] + [a + [Separator] + b] + ys);
      JoinAppend([xs[0]], xs[1..] + [a, b] + ys);
      assert [xs[0]] + (xs[1..] + [a + [Separator] + b] + ys) == xs + [a + [Separator] + b] + ys;
      assert [xs[0]] + (xs[1..] + [a, b] + ys) == xs + [a, b] + ys;
    }
  }

  /** Hence distinct submissions can join to the same text: the join is not injective. */
  lemma JoinNotInjective()
    ensures Join(["a,b"]) == Join(["a", "b"]) && ["a,b"] != ["a", "b"]
    ensures Join([]) == Join([""])
  {
  }
}
