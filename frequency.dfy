/** Lines 185-191: each sender's most used words. Their messages are
    lowercased and joined with spaces, the words are counted with a
    `Counter`, its 250 most common words are kept, and the common words
    of the language are dropped from those. */
module Frequency {
  import opened Pattern
  import opened Tokenizer
  import opened Appearance
  import opened Senders
  import opened Words

  /** `str.lower()`, one character at a time. */
  function Lower(cc: CharClasses, m: string): (r: string)
    ensures |r| == |m|
    ensures forall j :: 0 <= j < |m| ==> r[j] == cc.lower(m[j])
  {
    seq(|m|, j requires 0 <= j < |m| => cc.lower(m[j]))
  }

  /** `Series.str.lower()`: every message lowercased. */
  function LowerEach(cc: CharClasses, ms: seq<string>): (r: seq<string>)
    ensures |r| == |ms|
    ensures forall k :: 0 <= k < |ms| ==> r[k] == Lower(cc, ms[k])
  {
    seq(|ms|, k requires 0 <= k < |ms| => Lower(cc, ms[k]))
  }

  /** Lines 188-189: `' '.join(...).split()` over the lowercased messages. */
  function TextWords(cc: CharClasses, ms: seq<string>): seq<string> {
    Split(cc, JoinSpace(LowerEach(cc, ms)))
  }

  /** The words of the joined text are the lowercased messages' words,
      message after message. */
  lemma TextWordsEach(cc: CharClasses, ms: seq<string>)
    ensures TextWords(cc, ms) == SplitEach(cc, LowerEach(cc, ms))
  {
    SplitJoined(cc, LowerEach(cc, ms));
  }

  /** The order of `most_common`: a higher count first, and between equal
      counts the word that occurred first in the text. */
  predicate Precedes(words: seq<string>, a: (string, nat), b: (string, nat))
    requires a.0 in words && b.0 in words
  {
    a.1 > b.1 || (a.1 == b.1 && FirstIndex(words, a.0) < FirstIndex(words, b.0))
  }

  /** Every entry is a word of the text and precedes every later entry. */
  predicate Ranked(words: seq<string>, r: seq<(string, nat)>) {
    r == [] ||
      (&& r[0].0 in words
       && (forall y :: y in r[1..] ==> y.0 in words && Precedes(words, r[0], y))
       && Ranked(words, r[1..]))
  }

  /** Places `x` before the first entry whose count is not greater. */
  function Insert(x: (string, nat), s: seq<(string, nat)>): (r: seq<(string, nat)>)
    ensures multiset(r) == multiset{x} + multiset(s)
  {
    if s == [] || s[0].1 <= x.1 then [x] + s
    else
      assert s == [s[0]] + s[1..];
      [s[0]] + Insert(x, s[1..])
  }

  /** A stable sort by count, highest first: `sorted(items, key=count,
      reverse=True)`, which is what `heapq.nlargest` inside
      `Counter.most_common(n)` is documented to equal. */
  function Rank(t: seq<(string, nat)>): seq<(string, nat)> {
    if t == [] then [] else Insert(t[0], Rank(t[1..]))
  }

  /** Ranking only reorders: the ranked list holds the same entries, each
      as often. */
  lemma {:induction false} RankPermutes(t: seq<(string, nat)>)
    ensures multiset(Rank(t)) == multiset(t)
  {
    if t != [] {
      assert t == [t[0]] + t[1..];
      RankPermutes(t[1..]);
    }
  }

  /** `Counter.most_common(n)`: the first `n` entries of the ranking. */
  function MostCommon(t: seq<(string, nat)>, n: nat): seq<(string, nat)> {
    Take(Rank(t), n)
  }

  /** The first `n` entries, or all of them when there are fewer. */
  function Take(r: seq<(string, nat)>, n: nat): seq<(string, nat)> {
    if |r| <= n then r else r[..n]
  }

  /** Line 190: drops the entries whose word is one of `general`. */
  function DropGeneral(r: seq<(string, nat)>, general: set<string>): (out: seq<(string, nat)>)
    ensures |out| <= |r|
    ensures forall x :: x in out <==> x in r && x.0 !in general
  {
    if r == [] then []
    else
      assert r == [r[0]] + r[1..];
      (if r[0].0 in general then [] else [r[0]]) + DropGeneral(r[1..], general)
  }

  /** Inserting an entry whose word occurred before all the others keeps
      the ranking ranked. */
  lemma {:induction false} InsertRanked(words: seq<string>, x: (string, nat), s: seq<(string, nat)>)
    requires Ranked(words, s) && x.0 in words
    requires forall y :: y in s ==> y.0 in words && FirstIndex(words, x.0) < FirstIndex(words, y.0)
    ensures Ranked(words, Insert(x, s))
  {
    if s == [] || s[0].1 <= x.1 {
      var r := [x] + s;
      assert r[1..] == s;
      forall y | y in s
        ensures Precedes(words, x, y)
      {
        if y != s[0] {
          assert y in s[1..];
        }
      }
    } else {
      assert s == [s[0]] + s[1..];
      InsertRanked(words, x, s[1..]);
      var r := [s[0]] + Insert(x, s[1..]);
      assert r[1..] == Insert(x, s[1..]);
      forall y | y in r[1..]
        ensures y.0 in words && Precedes(words, s[0], y)
      {
        assert y in multiset(r[1..]);
      }
    }
  }

  /** Ranking entries listed in order of first occurrence sorts them by
      count, ties in order of first occurrence. */
  lemma {:induction false} RankRanked(words: seq<string>, t: seq<(string, nat)>)
    requires forall i :: 0 <= i < |t| ==> t[i].0 in words
    requires forall i, j :: 0 <= i < j < |t| ==> FirstIndex(words, t[i].0) < FirstIndex(words, t[j].0)
    ensures Ranked(words, Rank(t))
  {
    if t != [] {
      var rest := t[1..];
      RankRanked(words, rest);
      RankPermutes(rest);
      forall y | y in Rank(rest)
        ensures y.0 in words && FirstIndex(words, t[0].0) < FirstIndex(words, y.0)
      {
        assert y in multiset(Rank(rest));
        var k :| 0 <= k < |rest| && rest[k] == y;
        assert t[k + 1] == y;
      }
      InsertRanked(words, t[0], Rank(rest));
    }
  }

  /** In a ranked list every entry precedes every later one. */
  lemma {:induction false} RankedAt(words: seq<string>, r: seq<(string, nat)>, i: nat, j: nat)
    requires Ranked(words, r) && i < j < |r|
    ensures r[i].0 in words && r[j].0 in words && Precedes(words, r[i], r[j])
  {
    if i == 0 {
      assert r[j] in r[1..];
    } else {
      assert r[1..][i - 1] == r[i] && r[1..][j - 1] == r[j];
      RankedAt(words, r[1..], i - 1, j - 1);
    }
  }

  /** Dropping entries keeps a ranked list ranked. */
  lemma {:induction false} DropRanked(words: seq<string>, r: seq<(string, nat)>, general: set<string>)
    requires Ranked(words, r)
    ensures Ranked(words, DropGeneral(r, general))
  {
    if r != [] {
      DropRanked(words, r[1..], general);
      var out := DropGeneral(r, general);
      if r[0].0 !in general {
        assert out[1..] == DropGeneral(r[1..], general);
      } else {
        assert out == DropGeneral(r[1..], general);
      }
    }
  }

  /** A prefix of a ranked list is ranked. */
  lemma {:induction false} PrefixRanked(words: seq<string>, r: seq<(string, nat)>, n: nat)
    requires Ranked(words, r) && n <= |r|
    ensures Ranked(words, r[..n])
  {
    if n > 0 {
      PrefixRanked(words, r[1..], n - 1);
      assert r[..n][1..] == r[1..][..n - 1];
    }
  }

  /** The most common `n` entries of the word tally of the text. */
  function TopWords(words: seq<string>, n: nat): seq<(string, nat)> {
    MostCommon(Tally(words), n)
  }

  /** How many words `most_common` is asked for at line 189. */
  const TOP: nat := 250

  /** Lines 188-190 for one sender's messages. */
  function MostUsedWords(cc: CharClasses, general: set<string>, ms: seq<string>): seq<(string, nat)> {
    DropGeneral(TopWords(TextWords(cc, ms), TOP), general)
  }

  /** The ranking entries are exactly the tally entries: each word of the
      text with its number of occurrences. */
  lemma TallyEntry(words: seq<string>, x: (string, nat))
    ensures x in Tally(words) <==> x.0 in words && x.1 == Count(words, x.0)
  {
    TallyAt(words);
    var u := Unique(words);
    if x.0 in words {
      var k :| 0 <= k < |words| && words[k] == x.0;
      var i :| 0 <= i < |u| && u[i] == words[k];
      if x.1 == Count(words, x.0) {
        assert Tally(words)[i] == x;
      }
    }
  }

  /** The tally of a text, ranked, is ranked in the order of `most_common`
      and holds the same entries. */
  lemma RankedTally(words: seq<string>)
    ensures Ranked(words, Rank(Tally(words)))
    ensures |Rank(Tally(words))| == |Unique(words)|
  {
    var t := Tally(words);
    TallyAt(words);
    UniqueInOrder(words);
    RankRanked(words, t);
    RankPermutes(t);
    assert |multiset(Rank(t))| == |multiset(t)|;
  }

  /** Exactly `n` entries, or one per distinct word when there are fewer,
      ranked. */
  lemma TopWordsRanked(words: seq<string>, n: nat)
    ensures |TopWords(words, n)| == if |Unique(words)| <= n then |Unique(words)| else n
    ensures Ranked(words, TopWords(words, n))
  {
    var r := Rank(Tally(words));
    RankedTally(words);
    if |r| > n {
      PrefixRanked(words, r, n);
    }
  }

  /** Each entry is a word of the text with its number of occurrences. */
  lemma TopWordsCounts(words: seq<string>, n: nat)
    ensures forall x :: x in TopWords(words, n) ==> x.0 in words && x.1 == Count(words, x.0)
  {
    var r := Rank(Tally(words));
    RankPermutes(Tally(words));
    forall x | x in TopWords(words, n)
      ensures x.0 in words && x.1 == Count(words, x.0)
    {
      assert x in r;
      assert x in multiset(r);
      TallyEntry(words, x);
    }
  }

  /** A word of the text missing from the top `n` ranks no higher than
      every word kept, and is missing only when the text has more than `n`
      distinct words. */
  lemma LeftOutRanksLower(words: seq<string>, n: nat, w: string)
    requires w in words
    ensures (w, Count(words, w)) !in TopWords(words, n) ==>
      && |Unique(words)| > n
      && |TopWords(words, n)| == n
      && forall x :: x in TopWords(words, n) ==> x.0 in words && Precedes(words, x, (w, Count(words, w)))
  {
    var e := (w, Count(words, w));
    if e !in TopWords(words, n) {
      var r := Rank(Tally(words));
      RankedTally(words);
      RankPermutes(Tally(words));
      TallyEntry(words, e);
      assert e in multiset(r);
      TakeBound(words, r, n, e);
    }
  }

  /** In a ranked list, each of the first `n` entries precedes any entry
      beyond them. */
  lemma TakeBound(words: seq<string>, r: seq<(string, nat)>, n: nat, e: (string, nat))
    requires Ranked(words, r) && e in r && e !in Take(r, n)
    ensures |r| > n
    ensures forall x :: x in Take(r, n) ==> x.0 in words && e.0 in words && Precedes(words, x, e)
  {
    var k :| 0 <= k < |r| && r[k] == e;
    assert forall i :: 0 <= i < n && i < |r| ==> r[i] in Take(r, n) by {
      if |r| > n {
        assert forall i :: 0 <= i < n ==> r[..n][i] == r[i];
      }
    }
    forall x | x in Take(r, n)
      ensures x.0 in words && e.0 in words && Precedes(words, x, e)
    {
      var i :| 0 <= i < n && r[i] == x;
      RankedAt(words, r, i, k);
    }
  }

  /** Lines 188-190: `most_common(250)` keeps 250 entries, or one per
      distinct word when there are fewer, and the list keeps exactly its
      entries that are not common words. That list is ranked by count with
      ties in order of first occurrence, every count is the number of
      occurrences of its word in the lowercased, space-joined messages,
      and every other word that is not a common word comes after all the
      words kept. */
  lemma MostUsedWordsCorrect(cc: CharClasses, general: set<string>, ms: seq<string>)
    ensures var words := TextWords(cc, ms);
      var r := MostUsedWords(cc, general, ms);
      && |TopWords(words, TOP)| == (if |Unique(words)| <= TOP then |Unique(words)| else TOP)
      && (forall x :: x in r <==> x in TopWords(words, TOP) && x.0 !in general)
      && |r| <= TOP
      && Ranked(words, r)
      && (forall x :: x in r ==> x.0 !in general && x.0 in words && x.1 == Count(words, x.0))
      && (forall w :: w in words && w !in general && (w, Count(words, w)) !in r ==>
            && |Unique(words)| > TOP
            && |TopWords(words, TOP)| == TOP
            && forall x :: x in r ==> x.0 in words && Precedes(words, x, (w, Count(words, w))))
  {
    var words := TextWords(cc, ms);
    TopWordsRanked(words, TOP);
    TopWordsCounts(words, TOP);
    forall w | w in words && w !in general && (w, Count(words, w)) !in MostUsedWords(cc, general, ms)
      ensures |Unique(words)| > TOP
      ensures |TopWords(words, TOP)| == TOP
      ensures forall x :: x in MostUsedWords(cc, general, ms) ==>
        x.0 in words && Precedes(words, x, (w, Count(words, w)))
    {
      LeftOutRanksLower(words, TOP, w);
    }
    DropRanked(words, TopWords(words, TOP), general);
  }

  /** Line 188 as written, for one sender. When the sender occurs in
      exactly one row, `df_freq.loc[person, 'message']` is that row's
      message string rather than a column of messages, and the `.str`
      accessor fails on it; otherwise the sender's list is computed. */
  function MostUsedWordsAsWritten(cc: CharClasses, general: set<string>, records: seq<Entry>, person: string)
    : (r: Option<seq<(string, nat)>>)
    ensures r.None? <==> |RecordsOf(records, person)| == 1
    ensures r.Some? ==> r.value == MostUsedWords(cc, general, MessagesOf(records, person))
  {
    if |RecordsOf(records, person)| == 1 then None
    else Some(MostUsedWords(cc, general, MessagesOf(records, person)))
  }

  /** A chat whose only record is one message: line 188 fails for its
      sender, while the corrected table holds a word list for them. */
  lemma SingleMessageHasNoWordList(cc: CharClasses, general: set<string>)
    ensures var records := [Entry("01.02.2020 10:00", "Ayse", "merhaba")];
      && MostUsedWordsAsWritten(cc, general, records, "Ayse").None?
      && "Ayse" in MostUsedTable(cc, general, records, People(records))
  {
    var records := [Entry("01.02.2020 10:00", "Ayse", "merhaba")];
    MostUsedTableAt(cc, general, records, People(records));
    PeopleInOrder(records);
    assert records[0].sender == "Ayse";
  }

  /** The most used words of each of `people`, keyed by person. */
  function MostUsedTable(cc: CharClasses, general: set<string>, records: seq<Entry>, people: seq<string>)
    : map<string, seq<(string, nat)>>
  {
    if people == [] then map[]
    else
      var last := people[|people| - 1];
      MostUsedTable(cc, general, records, people[..|people| - 1])[last := MostUsedWords(cc, general, MessagesOf(records, last))]
  }

  /** The table has an entry for exactly the given people, and each entry
      is that person's most used words. */
  lemma {:induction false} MostUsedTableAt(cc: CharClasses, general: set<string>, records: seq<Entry>, people: seq<string>)
    ensures forall p :: p in MostUsedTable(cc, general, records, people) <==> p in people
    ensures forall p :: p in MostUsedTable(cc, general, records, people) ==>
      MostUsedTable(cc, general, records, people)[p] == MostUsedWords(cc, general, MessagesOf(records, p))
  {
    if people != [] {
      var init := people[..|people| - 1];
      MostUsedTableAt(cc, general, records, init);
      assert people == init + [people[|people| - 1]];
    }
  }

  /** Lines 186-191: `most_used`, filled one sender at a time. */
  method MostUsed(cc: CharClasses, general: set<string>, records: seq<Entry>)
    returns (mostUsed: map<string, seq<(string, nat)>>)
    ensures mostUsed == MostUsedTable(cc, general, records, People(records))
  {
    var people := People(records);
    mostUsed := map[];
    var i := 0;
    while i < |people|
      invariant 0 <= i <= |people|
      invariant mostUsed == MostUsedTable(cc, general, records, people[..i])
    {
      var counter := MostUsedWords(cc, general, MessagesOf(records, people[i]));
      assert people[..i + 1][..i] == people[..i];
      mostUsed := mostUsed[people[i] := counter];
      i := i + 1;
    }
    assert people[..i] == people;
  }
}
