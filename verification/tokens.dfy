/** The query string the responder searches: the preprocessed tokens joined
    with single spaces, Python's `" ".join(tokens)`. */
module Tokens {
  import opened Substring

  const Separator: char := ' '

  /** Number of characters in all the tokens together. */
  function TotalLength(tokens: seq<string>): nat
  {
    if |tokens| == 0 then 0 else |tokens[0]| + TotalLength(tokens[1..])
  }

  /** Python's `" ".join(tokens)`: the tokens in order, one space between
      neighbours, none before the first or after the last. */
  function Join(tokens: seq<string>): (r: string)
    ensures |tokens| == 0 ==> r == ""
    ensures |tokens| > 0 ==> |r| == TotalLength(tokens) + |tokens| - 1
    ensures |tokens| > 0 ==> tokens[0] <= r
    decreases |tokens|
  {
    if |tokens| == 0 then ""
    else if |tokens| == 1 then tokens[0]
    else tokens[0] + [Separator] + Join(tokens[1..])
  }

  /** Python's `s.split(" ")`: the pieces between single spaces. There is
      always at least one piece, and no piece holds a space. */
  function Split(s: string): (r: seq<string>)
    ensures |r| >= 1
    ensures forall i :: 0 <= i < |r| ==> Separator !in r[i]
    decreases |s|
  {
    if |s| == 0 then [""]
    else
      var rest := Split(s[1..]);
      if s[0] == Separator then [""] + rest
      else [[s[0]] + rest[0]] + rest[1..]
  }

  /** No token holds the separator. */
  predicate SpaceFree(tokens: seq<string>)
  {
    forall i :: 0 <= i < |tokens| ==> Separator !in tokens[i]
  }

  /** Joining two non-empty runs of tokens puts exactly one space between them. */
  lemma {:induction false} JoinAppend(a: seq<string>, b: seq<string>)
    requires |a| > 0 && |b| > 0
    ensures Join(a + b) == Join(a) + [Separator] + Join(b)
    decreases |a|
  {
    if |a| == 1 {
      assert (a + b)[1..] == b;
    } else {
      assert (a + b)[1..] == a[1..] + b;
      JoinAppend(a[1..], b);
    }
  }

  /** Joining the pieces of a split gives the original string back. */
  lemma {:induction false} JoinSplit(s: string)
    ensures Join(Split(s)) == s
    decreases |s|
  {
    if |s| > 0 {
      var rest := Split(s[1..]);
      JoinSplit(s[1..]);
      if s[0] == Separator {
        assert ([""] + rest)[1..] == rest;
      } else if |rest| > 1 {
        var r := [[s[0]] + rest[0]] + rest[1..];
        assert r[1..] == rest[1..];
        assert Join(rest) == rest[0] + [Separator] + Join(rest[1..]);
      }
    }
  }

  /** Splitting text that starts with a space-free word keeps that word at
      the front of the first piece. */
  lemma {:induction false} SplitWord(w: string, s: string)
    requires Separator !in w
    ensures Split(w + s) == [w + Split(s)[0]] + Split(s)[1..]
    decreases |w|
  {
    if |w| > 0 {
      assert (w + s)[1..] == w[1..] + s;
      SplitWord(w[1..], s);
      assert [w[0]] + (w[1..] + Split(s)[0]) == w + Split(s)[0];
    } else {
      assert w + s == s;
      assert w + Split(s)[0] == Split(s)[0];
      assert Split(s) == [Split(s)[0]] + Split(s)[1..];
    }
  }

  /** Splitting the join of space-free tokens gives the tokens back. The
      empty sequence is excluded: it joins to "", which splits to [""]. */
  lemma {:induction false} SplitJoin(tokens: seq<string>)
    requires |tokens| > 0 && SpaceFree(tokens)
    ensures Split(Join(tokens)) == tokens
    decreases |tokens|
  {
    var t := tokens[0];
    assert Separator !in t;
    if |tokens| == 1 {
      SplitWord(t, "");
      assert t + "" == t;
    } else {
      var j := Join(tokens[1..]);
      SplitJoin(tokens[1..]);
      assert Join(tokens) == t + ([Separator] + j);
      SplitWord(t, [Separator] + j);
      assert ([Separator] + j)[1..] == j;
      assert Split([Separator] + j) == [""] + tokens[1..];
      assert t + "" == t;
    }
  }

  /** Tokens appended after a run keep the run's joined string at the front. */
  lemma {:induction false} JoinContainsFront(m: seq<string>, b: seq<string>)
    ensures Contains(Join(m + b), Join(m))
  {
    if |m| == 0 {
      assert Join(m) == "";
      ContainsAt(Join(m + b), "", 0);
    } else if |b| == 0 {
      assert m + b == m;
      ContainsAt(Join(m), Join(m), 0);
    } else {
      JoinAppend(m, b);
      ContainsAt(Join(m), Join(m), 0);
      ContainsInContext("", Join(m), [Separator] + Join(b), Join(m));
      assert "" + Join(m) + ([Separator] + Join(b)) == Join(m + b);
    }
  }

  /** Tokens prepended before a run keep the run's joined string at the back. */
  lemma {:induction false} JoinContainsBack(a: seq<string>, m: seq<string>)
    ensures Contains(Join(a + m), Join(m))
  {
    if |m| == 0 {
      ContainsAt(Join(a + m), Join(m), 0);
    } else if |a| == 0 {
      assert a + m == m;
      ContainsAt(Join(m), Join(m), 0);
    } else {
      JoinAppend(a, m);
      ContainsAt(Join(m), Join(m), 0);
      ContainsInContext(Join(a) + [Separator], Join(m), "", Join(m));
      assert Join(a) + [Separator] + Join(m) + "" == Join(a + m);
    }
  }

  /** The joined string of a run of tokens occurs in the joined string of any
      token sequence that contains that run. */
  lemma {:induction false} JoinContainsRun(a: seq<string>, m: seq<string>, b: seq<string>)
    ensures Contains(Join(a + m + b), Join(m))
  {
    assert a + m + b == a + (m + b);
    JoinContainsBack(a, m + b);
    JoinContainsFront(m, b);
    ContainsTransitive(Join(a + m + b), Join(m + b), Join(m));
  }
}
