/** Texts cut into lines, and the lines that say something. */
module Lines {
  import opened Utf8

  const NL: Scalar := 0x0A

  /** What `split("\n")` makes of a text: one part more than it has newlines. */
  function Split(t: Text): (parts: seq<Text>)
    ensures |parts| >= 1
  {
    if t == [] then [[]]
    else
      var rest := Split(t[1..]);
      if t[0] == NL then [[]] + rest else [[t[0]] + rest[0]] + rest[1..]
  }

  function Joined(parts: seq<Text>): Text
    requires parts != []
  {
    if |parts| == 1 then parts[0] else parts[0] + [NL] + Joined(parts[1..])
  }

  function Last(parts: seq<Text>): Text
    requires parts != []
  {
    parts[|parts| - 1]
  }

  function Init(parts: seq<Text>): seq<Text>
    requires parts != []
  {
    parts[..|parts| - 1]
  }

  predicate NoNewline(t: Text) { NL !in t }

  /** What a text is split into, one character further to the left. */
  function Grow(c: Scalar, parts: seq<Text>): (r: seq<Text>)
    requires parts != []
    ensures r != []
  {
    if c == NL then [[]] + parts else [[c] + parts[0]] + parts[1..]
  }

  lemma SplitStep(t: Text)
    requires t != []
    ensures Split(t) == Grow(t[0], Split(t[1..]))
  {
  }

  /** Splitting is exact: the parts hold no newline, and joined they are the text again. */
  lemma {:induction false} SplitIsExact(t: Text)
    ensures Joined(Split(t)) == t
    ensures forall p :: p in Split(t) ==> NoNewline(p)
  {
    if t != [] {
      SplitIsExact(t[1..]);
      var rest := Split(t[1..]);
      assert t == [t[0]] + t[1..];
      if t[0] == NL {
        assert ([[]] + rest)[1..] == rest;
      } else {
        assert ([[t[0]] + rest[0]] + rest[1..])[1..] == rest[1..];
        assert rest[0] in rest;
        assert forall p :: p in rest[1..] ==> p in rest;
      }
    }
  }

  lemma {:induction false} SplitOfLine(t: Text)
    requires NoNewline(t)
    ensures Split(t) == [t]
  {
    if t != [] {
      SplitOfLine(t[1..]);
      assert t == [t[0]] + t[1..];
    }
  }

  /** Two lists of parts put together share the part where they meet. */
  function Meet(x: seq<Text>, y: seq<Text>): (r: seq<Text>)
    requires x != [] && y != []
    ensures |r| == |x| + |y| - 1
  {
    Init(x) + [Last(x) + y[0]] + y[1..]
  }

  lemma MeetNothing(y: seq<Text>)
    requires y != []
    ensures Meet([[]], y) == y
  {
    assert [] + y[0] == y[0];
  }

  lemma MeetGrowsAlone(c: Scalar, part: Text, y: seq<Text>)
    requires y != [] && c != NL
    ensures Meet(Grow(c, [part]), y) == Grow(c, Meet([part], y))
  {
    assert Grow(c, [part]) == [[c] + part];
    assert [c] + part + y[0] == [c] + (part + y[0]);
  }

  lemma MeetPrefix(part: Text, rest: seq<Text>, y: seq<Text>)
    requires rest != [] && y != []
    ensures Meet([part] + rest, y) == [part] + Meet(rest, y)
  {
  }

  lemma MeetGrows(c: Scalar, x: seq<Text>, y: seq<Text>)
    requires x != [] && y != []
    ensures Meet(Grow(c, x), y) == Grow(c, Meet(x, y))
  {
    if c == NL {
      MeetPrefix([], x, y);
    } else if |x| == 1 {
      assert x == [x[0]];
      MeetGrowsAlone(c, x[0], y);
    } else {
      MeetPrefix([c] + x[0], x[1..], y);
      MeetPrefix(x[0], x[1..], y);
      assert x == [x[0]] + x[1..];
      hide Meet;
    }
  }

  lemma {:induction false} SplitJoin(a: Text, b: Text)
    ensures Split(a + b) == Meet(Split(a), Split(b))
    decreases |a|
  {
    if a == [] {
      assert a + b == b;
      MeetNothing(Split(b));
    } else {
      SplitStep(a);
      SplitStep(a + b);
      assert (a + b)[1..] == a[1..] + b;
      hide *;
      SplitJoin(a[1..], b);
      MeetGrows(a[0], Split(a[1..]), Split(b));
    }
  }

  /** The lines a reader shows: the parts that are not empty. */
  function NonEmpty(parts: seq<Text>): (lines: seq<Text>)
    ensures |lines| <= |parts|
  {
    if parts == [] then []
    else (if parts[0] != [] then [parts[0]] else []) + NonEmpty(parts[1..])
  }

  lemma NonEmptyStep(part: Text, rest: seq<Text>)
    ensures NonEmpty([part] + rest) == if part != [] then [part] + NonEmpty(rest) else NonEmpty(rest)
  {
    assert ([part] + rest)[1..] == rest;
  }

  lemma {:induction false} NonEmptyJoin(a: seq<Text>, b: seq<Text>)
    ensures NonEmpty(a + b) == NonEmpty(a) + NonEmpty(b)
    decreases |a|
  {
    if a == [] {
      assert a + b == b;
    } else {
      var rest := a[1..];
      hide *;
      assert a == [a[0]] + rest && a + b == [a[0]] + (rest + b);
      NonEmptyStep(a[0], rest);
      NonEmptyStep(a[0], rest + b);
      NonEmptyJoin(rest, b);
    }
  }

  /** The lines of a whole text. */
  function LinesOf(t: Text): seq<Text> { NonEmpty(Split(t)) }

  /** The last `n` of them. */
  function LastN<T>(s: seq<T>, n: int): (r: seq<T>)
    ensures |r| == if n <= 0 then 0 else if n < |s| then n else |s|
  {
    if n <= 0 then [] else if n >= |s| then s else s[|s| - n..]
  }

  predicate EndsLine(t: Text) { t == [] || t[|t| - 1] == NL }

  lemma LastPartOfWhole(t: Text)
    requires EndsLine(t)
    ensures Last(Split(t)) == []
  {
    if t != [] {
      var init := t[..|t| - 1];
      assert t == init + [NL];
      SplitJoin(init, [NL]);
      assert Split([NL]) == [[], []];
    }
  }

  lemma NonEmptyInit(parts: seq<Text>)
    requires parts != [] && Last(parts) == []
    ensures NonEmpty(parts) == NonEmpty(Init(parts))
  {
    assert parts == Init(parts) + [[]];
    NonEmptyJoin(Init(parts), [[]]);
    assert NonEmpty([[]]) == [];
  }

  /** After a newline the lines of what follows are just added. */
  lemma LinesJoin(a: Text, b: Text)
    requires EndsLine(a)
    ensures LinesOf(a + b) == LinesOf(a) + LinesOf(b)
  {
    hide Split, NonEmpty;
    LastPartOfWhole(a);
    SplitJoin(a, b);
    NonEmptyInit(Split(a));
    var x, y := Split(a), Split(b);
    assert Meet(x, y) == Init(x) + y by { assert [] + y[0] == y[0]; }
    NonEmptyJoin(Init(x), y);
  }
}
