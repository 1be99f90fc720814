/** Splitting a message into words the way `str.split()` with no argument
    does, and joining messages with single spaces as `' '.join` does. */
module Words {
  import opened Pattern

  /** The end of the run of non-space characters starting at `i`. */
  function TokenEnd(cc: CharClasses, s: string, i: nat): (k: nat)
    requires i <= |s|
    ensures i <= k <= |s|
    ensures forall j :: i <= j < k ==> !cc.isSpace(s[j])
    ensures k < |s| ==> cc.isSpace(s[k])
    decreases |s| - i
  {
    if i == |s| || cc.isSpace(s[i]) then i else TokenEnd(cc, s, i + 1)
  }

  /** A word: a non-empty string without whitespace. */
  predicate IsWord(cc: CharClasses, w: string) {
    |w| > 0 && forall j :: 0 <= j < |w| ==> !cc.isSpace(w[j])
  }

  /** `s.split()`: the maximal runs of non-whitespace characters, in order;
      leading, trailing and repeated whitespace yields no empty words. */
  function Split(cc: CharClasses, s: string): (ws: seq<string>)
    ensures forall w :: w in ws ==> IsWord(cc, w)
    decreases |s|
  {
    if s == [] then []
    else if cc.isSpace(s[0]) then Split(cc, s[1..])
    else
      var k := TokenEnd(cc, s, 0);
      [s[..k]] + Split(cc, s[k..])
  }

  /** A run of non-space characters ends only at the end of a word. */
  lemma {:induction false} TokenEndOfWord(cc: CharClasses, w: string, i: nat)
    requires i <= |w| && forall j :: 0 <= j < |w| ==> !cc.isSpace(w[j])
    ensures TokenEnd(cc, w, i) == |w|
    decreases |w| - i
  {
    if i < |w| {
      TokenEndOfWord(cc, w, i + 1);
    }
  }

  /** A single word splits into itself. */
  lemma SplitWord(cc: CharClasses, w: string)
    requires IsWord(cc, w)
    ensures Split(cc, w) == [w]
  {
    TokenEndOfWord(cc, w, 0);
    assert w[..|w|] == w;
    assert w[|w|..] == [];
  }

  /** A text made only of whitespace has no words. */
  lemma {:induction false} SplitBlank(cc: CharClasses, s: string)
    requires forall j :: 0 <= j < |s| ==> cc.isSpace(s[j])
    ensures Split(cc, s) == []
    decreases |s|
  {
    if s != [] {
      SplitBlank(cc, s[1..]);
    }
  }

  /** `' '.join(ms)`. */
  function JoinSpace(ms: seq<string>): string {
    if ms == [] then ""
    else if |ms| == 1 then ms[0]
    else JoinSpace(ms[..|ms| - 1]) + " " + ms[|ms| - 1]
  }

  /** All the words of the messages, message by message. */
  function SplitEach(cc: CharClasses, ms: seq<string>): seq<string> {
    if ms == [] then [] else SplitEach(cc, ms[..|ms| - 1]) + Split(cc, ms[|ms| - 1])
  }

  /** A character after the end of a run does not move the run's end. */
  lemma {:induction false} TokenEndAppend(cc: CharClasses, a: string, c: char, b: string, i: nat)
    requires i <= |a| && cc.isSpace(c)
    ensures TokenEnd(cc, a + [c] + b, i) == TokenEnd(cc, a, i)
    decreases |a| - i
  {
    var s := a + [c] + b;
    if i < |a| && !cc.isSpace(a[i]) {
      assert s[i] == a[i];
      TokenEndAppend(cc, a, c, b, i + 1);
    } else if i == |a| {
      assert s[i] == c;
    }
  }

  /** Whitespace between two texts separates their words: the words of the
      whole are the words of the first text followed by those of the second. */
  lemma {:induction false} SplitAtSpace(cc: CharClasses, a: string, c: char, b: string)
    requires cc.isSpace(c)
    ensures Split(cc, a + [c] + b) == Split(cc, a) + Split(cc, b)
    decreases |a|
  {
    var s := a + [c] + b;
    if a == [] {
      assert s[1..] == b;
    } else if cc.isSpace(a[0]) {
      assert s[0] == a[0];
      assert s[1..] == a[1..] + [c] + b;
      SplitAtSpace(cc, a[1..], c, b);
    } else {
      assert s[0] == a[0];
      var k := TokenEnd(cc, a, 0);
      TokenEndAppend(cc, a, c, b, 0);
      assert s[..k] == a[..k];
      assert s[k..] == a[k..] + [c] + b;
      SplitAtSpace(cc, a[k..], c, b);
    }
  }

  /** Splitting the space-joined messages gives every message's words in
      order, so a word count over the joined text equals the sum of the
      per-message word counts. */
  lemma {:induction false} SplitJoined(cc: CharClasses, ms: seq<string>)
    ensures Split(cc, JoinSpace(ms)) == SplitEach(cc, ms)
  {
    if |ms| == 1 {
      assert SplitEach(cc, ms) == SplitEach(cc, []) + Split(cc, ms[0]);
    } else if |ms| > 1 {
      var init := ms[..|ms| - 1];
      SplitJoined(cc, init);
      SplitAtSpace(cc, JoinSpace(init), ' ', ms[|ms| - 1]);
    }
  }

  /** The words of a text are made of exactly its non-space characters. */
  function NonSpace(cc: CharClasses, s: string): string {
    if s == [] then []
    else (if cc.isSpace(s[0]) then [] else [s[0]]) + NonSpace(cc, s[1..])
  }

  function Concat(ws: seq<string>): string {
    if ws == [] then [] else ws[0] + Concat(ws[1..])
  }

  lemma {:induction false} NonSpaceAppend(cc: CharClasses, a: string, b: string)
    ensures NonSpace(cc, a + b) == NonSpace(cc, a) + NonSpace(cc, b)
  {
    if a == [] {
      assert a + b == b;
    } else {
      assert (a + b)[0] == a[0] && (a + b)[1..] == a[1..] + b;
      NonSpaceAppend(cc, a[1..], b);
    }
  }

  lemma {:induction false} NonSpaceOfWord(cc: CharClasses, w: string)
    requires forall j :: 0 <= j < |w| ==> !cc.isSpace(w[j])
    ensures NonSpace(cc, w) == w
  {
    if w != [] {
      NonSpaceOfWord(cc, w[1..]);
    }
  }

  /** Splitting loses only whitespace: the words put back together are the
      text with its whitespace removed. */
  lemma {:induction false} SplitKeepsNonSpace(cc: CharClasses, s: string)
    ensures Concat(Split(cc, s)) == NonSpace(cc, s)
    decreases |s|
  {
    if s != [] {
      if cc.isSpace(s[0]) {
        SplitKeepsNonSpace(cc, s[1..]);
      } else {
        var k := TokenEnd(cc, s, 0);
        SplitKeepsNonSpace(cc, s[k..]);
        assert s == s[..k] + s[k..];
        NonSpaceAppend(cc, s[..k], s[k..]);
        NonSpaceOfWord(cc, s[..k]);
        assert ([s[..k]] + Split(cc, s[k..]))[1..] == Split(cc, s[k..]);
      }
    }
  }
}
