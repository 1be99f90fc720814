/** The chat-log tokenizer of chat_eda.py: `re.findall` with the iPhone
    export pattern and, only when that finds nothing, with the Android export
    pattern (flags DOTALL, IGNORECASE and MULTILINE).

    iPhone:  `.?\[(STAMP:S)\]\s([\w\s]+):\s(.+?)(?=.?.?\[STAMP:S\])$`
    Android: `(STAMP)\s-\s([\w\s]+):\s(.+?)(?=.?.?STAMP)$`

    The regular expressions are modelled as an explicit scanner. Where the
    engine backtracks, the alternatives are tried in the engine's order. */
module Tokenizer {
  import opened Pattern

  datatype Option<T> = None | Some(value: T)

  /** The two export layouts. */
  datatype Dialect = IPhone | Android

  /** One `(timestamp, sender, body)` triple as `re.findall` returns it. */
  datatype Entry = Entry(timestamp: string, sender: string, message: string)

  /** Where the groups of one match lie in the text: the timestamp is
      `s[stampLo..stampHi]`, the sender `s[senderLo..senderHi]` and the body
      `s[bodyLo..bodyHi]`; the match itself begins at `start`. */
  datatype Hit = Hit(start: nat, stampLo: nat, stampHi: nat, senderLo: nat,
                     senderHi: nat, bodyLo: nat, bodyHi: nat)

  /** The beginning of a match, up to where the sender group starts. */
  datatype Header = Header(start: nat, stampLo: nat, stampHi: nat, senderLo: nat)

  function Stamp(d: Dialect): seq<Atom> {
    if d == IPhone then STAMP_WITH_SECONDS else STAMP_WITHOUT_SECONDS
  }

  /** What the lookahead requires after its `.?.?`: a bracketed timestamp
      with seconds (iPhone) or a bare timestamp without them (Android). */
  predicate StampAt(cc: CharClasses, d: Dialect, s: string, q: nat) {
    && q <= |s|
    && match d
       case IPhone =>
         && q < |s| && s[q] == '['
         && exists t :: t in Ends(cc, STAMP_WITH_SECONDS, s, q + 1) && t < |s| && s[t] == ']'
       case Android =>
         Ends(cc, STAMP_WITHOUT_SECONDS, s, q) != []
  }

  /** A body may end at `p`: `$` holds there (a line end, as the lookahead
      needs more text) and a timestamp begins within the next two characters.
      Nothing is required of what follows the timestamp. */
  predicate CutAt(cc: CharClasses, d: Dialect, s: string, p: nat) {
    && p < |s| && s[p] == '\n'
    && (StampAt(cc, d, s, p) || StampAt(cc, d, s, p + 1) || StampAt(cc, d, s, p + 2))
  }

  /** `\[STAMP\]\s` (iPhone, after the optional leading character) or
      `STAMP\s-\s` (Android), ending where the sender group begins. */
  predicate HeaderShape(cc: CharClasses, d: Dialect, s: string, h: Header) {
    && h.start <= h.stampLo <= h.stampHi < h.senderLo <= |s|
    && h.stampHi in Ends(cc, Stamp(d), s, h.stampLo)
    && match d
       case IPhone =>
         && (h.stampLo == h.start + 1 || h.stampLo == h.start + 2)
         && s[h.stampLo - 1] == '['
         && h.stampHi + 1 < |s| && s[h.stampHi] == ']' && cc.isSpace(s[h.stampHi + 1])
         && h.senderLo == h.stampHi + 2
       case Android =>
         && h.stampLo == h.start
         && h.stampHi + 2 < |s| && cc.isSpace(s[h.stampHi]) && s[h.stampHi + 1] == '-'
         && cc.isSpace(s[h.stampHi + 2])
         && h.senderLo == h.stampHi + 3
  }

  function HeaderOf(x: Hit): Header {
    Header(x.start, x.stampLo, x.stampHi, x.senderLo)
  }

  /** The groups of a match follow one another inside the text. */
  predicate Spans(s: string, x: Hit) {
    x.start <= x.stampLo <= x.stampHi < x.senderLo < x.senderHi < x.bodyLo < x.bodyHi < |s|
  }

  /** Everything the pattern demands of one match. */
  predicate Located(cc: CharClasses, d: Dialect, s: string, x: Hit) {
    && Spans(s, x)
    && HeaderShape(cc, d, s, HeaderOf(x))
    && x.senderLo < x.senderHi && x.senderHi + 1 < |s|
    && (forall j :: x.senderLo <= j < x.senderHi ==> cc.isWord(s[j]) || cc.isSpace(s[j]))
    && s[x.senderHi] == ':' && cc.isSpace(s[x.senderHi + 1])
    && x.bodyLo == x.senderHi + 2 && x.bodyLo < x.bodyHi
    && CutAt(cc, d, s, x.bodyHi)
    && (forall q :: x.bodyLo < q < x.bodyHi ==> !CutAt(cc, d, s, q))
  }

  /** `iPhone`: the headers in the engine's order, for a given `[` at `lo - 1`
      and the ways `ends` the timestamp can stop. */
  function Closed(cc: CharClasses, s: string, pos: nat, lo: nat, ends: seq<nat>): (hs: seq<Header>)
    requires (lo == pos + 1 || lo == pos + 2) && lo <= |s| && s[lo - 1] == '['
    requires forall k :: 0 <= k < |ends| ==> ends[k] in Ends(cc, STAMP_WITH_SECONDS, s, lo)
    ensures forall k :: 0 <= k < |hs| ==> hs[k].start == pos && HeaderShape(cc, IPhone, s, hs[k])
  {
    if ends == [] then []
    else
      var t, rest := ends[0], Closed(cc, s, pos, lo, ends[1..]);
      if t + 1 < |s| && s[t] == ']' && cc.isSpace(s[t + 1]) then
        assert t in Ends(cc, STAMP_WITH_SECONDS, s, lo);
        assert HeaderShape(cc, IPhone, s, Header(pos, lo, t, t + 2));
        [Header(pos, lo, t, t + 2)] + rest
      else rest
  }

  /** `Android`: the headers in the engine's order, for the ways `ends` the
      timestamp begun at `pos` can stop. */
  function Dashed(cc: CharClasses, s: string, pos: nat, ends: seq<nat>): (hs: seq<Header>)
    requires pos <= |s|
    requires forall k :: 0 <= k < |ends| ==> ends[k] in Ends(cc, STAMP_WITHOUT_SECONDS, s, pos)
    ensures forall k :: 0 <= k < |hs| ==> hs[k].start == pos && HeaderShape(cc, Android, s, hs[k])
  {
    if ends == [] then []
    else
      var t, rest := ends[0], Dashed(cc, s, pos, ends[1..]);
      if t + 2 < |s| && cc.isSpace(s[t]) && s[t + 1] == '-' && cc.isSpace(s[t + 2]) then
        assert t in Ends(cc, STAMP_WITHOUT_SECONDS, s, pos);
        assert HeaderShape(cc, Android, s, Header(pos, pos, t, t + 3));
        [Header(pos, pos, t, t + 3)] + rest
      else rest
  }

  /** All headers of a match attempt at `pos`, in the engine's order. For
      iPhone the leading `.?` first consumes one character, so a `[` at
      `pos + 1` is tried before a `[` at `pos`. */
  function Headers(cc: CharClasses, d: Dialect, s: string, pos: nat): (hs: seq<Header>)
    requires pos <= |s|
    ensures forall k :: 0 <= k < |hs| ==> hs[k].start == pos && HeaderShape(cc, d, s, hs[k])
  {
    match d
    case IPhone =>
      (if pos + 1 < |s| && s[pos + 1] == '['
       then Closed(cc, s, pos, pos + 2, Ends(cc, STAMP_WITH_SECONDS, s, pos + 2)) else [])
      + (if pos < |s| && s[pos] == '['
         then Closed(cc, s, pos, pos + 1, Ends(cc, STAMP_WITH_SECONDS, s, pos + 1)) else [])
    case Android =>
      Dashed(cc, s, pos, Ends(cc, STAMP_WITHOUT_SECONDS, s, pos))
  }

  /** End of the longest run of `[\w\s]` characters from `i`. */
  function RunEnd(cc: CharClasses, s: string, i: nat): (k: nat)
    requires i <= |s|
    ensures i <= k <= |s|
    ensures forall j :: i <= j < k ==> cc.isWord(s[j]) || cc.isSpace(s[j])
    ensures k == |s| || !(cc.isWord(s[k]) || cc.isSpace(s[k]))
    decreases |s| - i
  {
    if i < |s| && (cc.isWord(s[i]) || cc.isSpace(s[i])) then RunEnd(cc, s, i + 1) else i
  }

  /** The lazy `(.+?)`: the first position from `p` on where the body may end. */
  function FirstCut(cc: CharClasses, d: Dialect, s: string, p: nat): (r: Option<nat>)
    ensures r.Some? ==> p <= r.value && CutAt(cc, d, s, r.value)
    ensures r.Some? ==> forall q :: p <= q < r.value ==> !CutAt(cc, d, s, q)
    ensures r.None? ==> forall q :: p <= q ==> !CutAt(cc, d, s, q)
    decreases |s| - p
  {
    if p >= |s| then None
    else if CutAt(cc, d, s, p) then Some(p)
    else FirstCut(cc, d, s, p + 1)
  }

  /** Completes a header with `([\w\s]+):\s(.+?)` and the lookahead. Since
      `:` is neither a word nor a space character, the greedy sender group
      can only end at the end of its longest run. */
  function Complete(cc: CharClasses, d: Dialect, s: string, h: Header): (r: Option<Hit>)
    requires HeaderShape(cc, d, s, h)
    ensures r.Some? ==> Located(cc, d, s, r.value) && HeaderOf(r.value) == h
  {
    var k := RunEnd(cc, s, h.senderLo);
    if h.senderLo < k && k + 1 < |s| && s[k] == ':' && cc.isSpace(s[k + 1]) then
      match FirstCut(cc, d, s, k + 3)
      case Some(p) => Some(Hit(h.start, h.stampLo, h.stampHi, h.senderLo, k, k + 2, p))
      case None => None
    else None
  }

  /** The first header that can be completed, backtracking over the rest. */
  function FirstHit(cc: CharClasses, d: Dialect, s: string, pos: nat, hs: seq<Header>): (r: Option<Hit>)
    requires forall k :: 0 <= k < |hs| ==> hs[k].start == pos && HeaderShape(cc, d, s, hs[k])
    ensures r.Some? ==> Located(cc, d, s, r.value) && r.value.start == pos
  {
    if hs == [] then None
    else
      match Complete(cc, d, s, hs[0])
      case Some(x) => Some(x)
      case None => FirstHit(cc, d, s, pos, hs[1..])
  }

  /** One match attempt of the pattern at `pos`. */
  function MatchAt(cc: CharClasses, d: Dialect, s: string, pos: nat): (r: Option<Hit>)
    requires pos <= |s|
    ensures r.Some? ==> Located(cc, d, s, r.value) && r.value.start == pos
  {
    FirstHit(cc, d, s, pos, Headers(cc, d, s, pos))
  }

  /** Each match ends before any later one begins. */
  predicate Sequential(r: seq<Hit>) {
    r == [] || ((forall y :: y in r[1..] ==> r[0].bodyHi <= y.start) && Sequential(r[1..]))
  }

  /** `re.findall` from `pos`: the matches found scanning left to right, the
      scan resuming where each match ended. */
  function FindAll(cc: CharClasses, d: Dialect, s: string, pos: nat): (r: seq<Hit>)
    requires pos <= |s|
    ensures forall x :: x in r ==> Located(cc, d, s, x) && pos <= x.start
    ensures Sequential(r)
    decreases |s| - pos
  {
    var m := MatchAt(cc, d, s, pos);
    if m.Some? then
      var rest := FindAll(cc, d, s, m.value.bodyHi);
      assert ([m.value] + rest)[1..] == rest;
      [m.value] + rest
    else if pos < |s| then FindAll(cc, d, s, pos + 1)
    else []
  }

  /** The matches are disjoint and in source order. */
  lemma {:induction false} InSourceOrder(r: seq<Hit>)
    requires Sequential(r)
    ensures forall i, j :: 0 <= i < j < |r| ==> r[i].bodyHi <= r[j].start
  {
    if r != [] {
      InSourceOrder(r[1..]);
      forall i, j | 0 <= i < j < |r|
        ensures r[i].bodyHi <= r[j].start
      {
        if i > 0 {
          assert r[i] == r[1..][i - 1] && r[j] == r[1..][j - 1];
        } else {
          assert r[j] in r[1..];
        }
      }
    }
  }

  /** An iPhone header of the right shape whose timestamp ends at one of
      `ends` is among the candidates `Closed` lists. */
  lemma {:induction false} ClosedHas(cc: CharClasses, s: string, pos: nat, lo: nat, ends: seq<nat>, h: Header)
    requires (lo == pos + 1 || lo == pos + 2) && lo <= |s| && s[lo - 1] == '['
    requires forall k :: 0 <= k < |ends| ==> ends[k] in Ends(cc, STAMP_WITH_SECONDS, s, lo)
    requires h.start == pos && h.stampLo == lo && h.stampHi in ends && h.senderLo == h.stampHi + 2
    requires h.stampHi + 1 < |s| && s[h.stampHi] == ']' && cc.isSpace(s[h.stampHi + 1])
    ensures h in Closed(cc, s, pos, lo, ends)
  {
    if ends[0] != h.stampHi {
      assert h.stampHi in ends[1..];
      ClosedHas(cc, s, pos, lo, ends[1..], h);
    }
  }

  /** An Android header of the right shape whose timestamp ends at one of
      `ends` is among the candidates `Dashed` lists. */
  lemma {:induction false} DashedHas(cc: CharClasses, s: string, pos: nat, ends: seq<nat>, h: Header)
    requires pos <= |s|
    requires forall k :: 0 <= k < |ends| ==> ends[k] in Ends(cc, STAMP_WITHOUT_SECONDS, s, pos)
    requires h.start == pos && h.stampLo == pos && h.stampHi in ends && h.senderLo == h.stampHi + 3
    requires h.stampHi + 2 < |s| && cc.isSpace(s[h.stampHi]) && s[h.stampHi + 1] == '-' && cc.isSpace(s[h.stampHi + 2])
    ensures h in Dashed(cc, s, pos, ends)
  {
    if ends[0] != h.stampHi {
      assert h.stampHi in ends[1..];
      DashedHas(cc, s, pos, ends[1..], h);
    }
  }

  /** Every header of the dialect's shape is a candidate at its position:
      the engine misses none. */
  lemma {:induction false} HeadersComplete(cc: CharClasses, d: Dialect, s: string, h: Header)
    requires HeaderShape(cc, d, s, h)
    ensures h in Headers(cc, d, s, h.start)
  {
    match d
    case IPhone =>
      ClosedHas(cc, s, h.start, h.stampLo, Ends(cc, STAMP_WITH_SECONDS, s, h.stampLo), h);
      if h.stampLo == h.start + 2 {
        LaterBracketHeaders(cc, s, h.start, h.stampLo, h);
      } else {
        BracketHereHeaders(cc, s, h.start, h.stampLo, h);
      }
    case Android =>
      DashedHas(cc, s, h.start, Ends(cc, STAMP_WITHOUT_SECONDS, s, h.start), h);
  }

  /** The iPhone candidates at `pos`: those for a `[` at `near`, the
      position after `pos`, followed by those for a `[` at `pos`. */
  lemma {:induction false} IPhoneHeadersSplit(cc: CharClasses, s: string, pos: nat, near: nat, far: nat)
    requires pos <= |s| && near == pos + 1 && far == pos + 2
    ensures Headers(cc, IPhone, s, pos) ==
      (if near < |s| && s[near] == '[' then Closed(cc, s, pos, far, Ends(cc, STAMP_WITH_SECONDS, s, far)) else [])
      + (if pos < |s| && s[pos] == '[' then Closed(cc, s, pos, near, Ends(cc, STAMP_WITH_SECONDS, s, near)) else [])
  {
  }

  /** The iPhone candidates at `pos` include those for a `[` right after
      `pos`, where the leading `.?` consumes one character. */
  lemma {:induction false} LaterBracketHeaders(cc: CharClasses, s: string, pos: nat, lo: nat, h: Header)
    requires lo == pos + 2 && lo <= |s| && s[lo - 1] == '['
    requires h in Closed(cc, s, pos, lo, Ends(cc, STAMP_WITH_SECONDS, s, lo))
    ensures h in Headers(cc, IPhone, s, pos)
  {
    IPhoneHeadersSplit(cc, s, pos, lo - 1, lo);
  }

  /** The iPhone candidates at `pos` include those for a `[` at `pos`, where
      the leading `.?` consumes nothing. */
  lemma {:induction false} BracketHereHeaders(cc: CharClasses, s: string, pos: nat, lo: nat, h: Header)
    requires lo == pos + 1 && lo <= |s| && s[lo - 1] == '['
    requires h in Closed(cc, s, pos, lo, Ends(cc, STAMP_WITH_SECONDS, s, lo))
    ensures h in Headers(cc, IPhone, s, pos)
  {
    IPhoneHeadersSplit(cc, s, pos, lo, lo + 1);
  }

  /** The lazy body stops at `q` when `q` is a cut and nothing before it is. */
  lemma {:induction false} FirstCutFrom(cc: CharClasses, d: Dialect, s: string, p: nat, q: nat)
    requires p <= q && CutAt(cc, d, s, q)
    requires forall r :: p <= r < q ==> !CutAt(cc, d, s, r)
    ensures FirstCut(cc, d, s, p) == Some(q)
    decreases q - p
  {
    if p < q {
      FirstCutFrom(cc, d, s, p + 1, q);
    }
  }

  /** The header of a match completes to exactly that match: the sender
      group and the body admit no other way to match. */
  lemma {:induction false} CompleteOf(cc: CharClasses, d: Dialect, s: string, x: Hit)
    requires Located(cc, d, s, x)
    ensures Complete(cc, d, s, HeaderOf(x)) == Some(x)
  {
    SenderIsWholeRun(cc, d, s, x);
    BodyEndsAtFirstCut(cc, d, s, x);
    CompleteWith(cc, d, s, x);
  }

  /** The body of a match ends where the lazy body would first stop. */
  lemma {:induction false} BodyEndsAtFirstCut(cc: CharClasses, d: Dialect, s: string, x: Hit)
    requires Located(cc, d, s, x)
    ensures FirstCut(cc, d, s, x.senderHi + 3) == Some(x.bodyHi)
  {
    FirstCutFrom(cc, d, s, x.senderHi + 3, x.bodyHi);
  }

  /** A header whose sender run is closed by `: ` and whose body first
      cuts at the end of the match completes to exactly that match. */
  lemma {:induction false} CompleteWith(cc: CharClasses, d: Dialect, s: string, x: Hit)
    requires HeaderShape(cc, d, s, HeaderOf(x))
    requires RunEnd(cc, s, x.senderLo) == x.senderHi && x.senderLo < x.senderHi && x.senderHi + 1 < |s|
    requires s[x.senderHi] == ':' && cc.isSpace(s[x.senderHi + 1]) && x.bodyLo == x.senderHi + 2
    requires FirstCut(cc, d, s, x.senderHi + 3) == Some(x.bodyHi)
    ensures Complete(cc, d, s, HeaderOf(x)) == Some(x)
  {
  }

  /** Backtracking over the candidates finds a match whenever one of them
      completes. */
  lemma {:induction false} FirstHitSome(cc: CharClasses, d: Dialect, s: string, pos: nat, hs: seq<Header>, i: nat)
    requires forall k :: 0 <= k < |hs| ==> hs[k].start == pos && HeaderShape(cc, d, s, hs[k])
    requires i < |hs| && Complete(cc, d, s, hs[i]).Some?
    ensures FirstHit(cc, d, s, pos, hs).Some?
  {
    if forall j :: 0 <= j < i ==> Complete(cc, d, s, hs[j]).None? {
      FirstHitPicksFirst(cc, d, s, pos, hs, i);
    } else {
      var j :| 0 <= j < i && Complete(cc, d, s, hs[j]).Some?;
      FirstHitSome(cc, d, s, pos, hs, j);
    }
  }

  /** The match found is the completion of the first candidate, in the
      engine's order, that completes at all. */
  lemma {:induction false} FirstHitPicksFirst(cc: CharClasses, d: Dialect, s: string, pos: nat, hs: seq<Header>, i: nat)
    requires forall k :: 0 <= k < |hs| ==> hs[k].start == pos && HeaderShape(cc, d, s, hs[k])
    requires i < |hs| && Complete(cc, d, s, hs[i]).Some?
    requires forall j :: 0 <= j < i ==> Complete(cc, d, s, hs[j]).None?
    ensures FirstHit(cc, d, s, pos, hs) == Complete(cc, d, s, hs[i])
  {
    if i > 0 {
      var tail := hs[1..];
      TailShaped(cc, d, s, pos, hs, tail);
      TailFails(cc, d, s, pos, hs, tail, i);
      FirstHitPicksFirst(cc, d, s, pos, tail, i - 1);
      FirstHitSkips(cc, d, s, pos, hs);
    }
  }

  /** The candidates after the first keep their shape. */
  lemma {:induction false} TailShaped(cc: CharClasses, d: Dialect, s: string, pos: nat, hs: seq<Header>, tail: seq<Header>)
    requires forall k :: 0 <= k < |hs| ==> hs[k].start == pos && HeaderShape(cc, d, s, hs[k])
    requires hs != [] && tail == hs[1..]
    ensures forall k :: 0 <= k < |tail| ==> tail[k].start == pos && HeaderShape(cc, d, s, tail[k])
  {
    forall k | 0 <= k < |tail|
      ensures tail[k].start == pos && HeaderShape(cc, d, s, tail[k])
    {
      assert tail[k] == hs[k + 1];
    }
  }

  /** Shifting past the first candidate shifts the first completing one. */
  lemma {:induction false} TailFails(cc: CharClasses, d: Dialect, s: string, pos: nat, hs: seq<Header>, tail: seq<Header>, i: nat)
    requires forall k :: 0 <= k < |hs| ==> hs[k].start == pos && HeaderShape(cc, d, s, hs[k])
    requires 0 < i < |hs| && tail == hs[1..] && Complete(cc, d, s, hs[i]).Some?
    requires forall j :: 0 <= j < i ==> Complete(cc, d, s, hs[j]).None?
    ensures tail[i - 1] == hs[i]
    ensures forall j :: 0 <= j < i - 1 ==> tail[j].start == pos && HeaderShape(cc, d, s, tail[j]) && Complete(cc, d, s, tail[j]).None?
  {
    forall j | 0 <= j < i - 1
      ensures tail[j].start == pos && HeaderShape(cc, d, s, tail[j]) && Complete(cc, d, s, tail[j]).None?
    {
      assert tail[j] == hs[j + 1];
    }
  }

  /** A first candidate that cannot be completed is backtracked over. */
  lemma {:induction false} FirstHitSkips(cc: CharClasses, d: Dialect, s: string, pos: nat, hs: seq<Header>)
    requires forall k :: 0 <= k < |hs| ==> hs[k].start == pos && HeaderShape(cc, d, s, hs[k])
    requires hs != [] && Complete(cc, d, s, hs[0]).None?
    ensures FirstHit(cc, d, s, pos, hs) == FirstHit(cc, d, s, pos, hs[1..])
  {
  }

  /** A match attempt succeeds wherever a match of the pattern starts. */
  lemma {:induction false} MatchAtFinds(cc: CharClasses, d: Dialect, s: string, x: Hit)
    requires Located(cc, d, s, x)
    ensures MatchAt(cc, d, s, x.start).Some?
  {
    var h := HeaderOf(x);
    var hs := Headers(cc, d, s, x.start);
    HeadersComplete(cc, d, s, h);
    CompleteOf(cc, d, s, x);
    var i :| 0 <= i < |hs| && hs[i] == h;
    FirstHitSome(cc, d, s, x.start, hs, i);
  }

  /** One step of the scan: a match found at `pos` is followed by the
      matches from its end; otherwise the scan moves one character on. */
  lemma {:induction false} FindAllStep(cc: CharClasses, d: Dialect, s: string, pos: nat)
    requires pos <= |s|
    ensures MatchAt(cc, d, s, pos).Some? ==>
      FindAll(cc, d, s, pos) == [MatchAt(cc, d, s, pos).value] + FindAll(cc, d, s, MatchAt(cc, d, s, pos).value.bodyHi)
    ensures MatchAt(cc, d, s, pos).None? && pos < |s| ==> FindAll(cc, d, s, pos) == FindAll(cc, d, s, pos + 1)
  {
  }

  /** Some match of `hits` spans position `q`. */
  predicate Covers(hits: seq<Hit>, q: nat) {
    exists k :: 0 <= k < |hits| && hits[k].start <= q < hits[k].bodyHi
  }

  /** A match put in front of `rest` spans `q` if it does so itself or
      some match of `rest` does. */
  lemma {:induction false} CoversCons(x: Hit, rest: seq<Hit>, q: nat)
    requires (x.start <= q < x.bodyHi) || Covers(rest, q)
    ensures Covers([x] + rest, q)
  {
    var hits := [x] + rest;
    if !(x.start <= q < x.bodyHi) {
      var k :| 0 <= k < |rest| && rest[k].start <= q < rest[k].bodyHi;
      assert hits[k + 1] == rest[k];
    } else {
      assert hits[0] == x;
    }
  }

  /** When the attempt at `pos` succeeds, the scan covers `q` if that
      match spans it or the scan from the match's end covers it. */
  lemma {:induction false} CoversAfterMatch(cc: CharClasses, d: Dialect, s: string, pos: nat, q: nat)
    requires pos <= |s| && MatchAt(cc, d, s, pos).Some?
    requires var x := MatchAt(cc, d, s, pos).value;
      (x.start <= q < x.bodyHi) || Covers(FindAll(cc, d, s, x.bodyHi), q)
    ensures Covers(FindAll(cc, d, s, pos), q)
  {
    FindAllStep(cc, d, s, pos);
    var x := MatchAt(cc, d, s, pos).value;
    CoversCons(x, FindAll(cc, d, s, x.bodyHi), q);
  }

  /** When the attempt at `pos` fails, the scan from `pos` covers what the
      scan from the next position covers. The next position is a parameter
      so that the caller's proof never unfolds the scan at `pos + 1` itself,
      which keeps the solver's work small. */
  lemma {:induction false} CoversAfterSkip(cc: CharClasses, d: Dialect, s: string, pos: nat, next: nat, q: nat)
    requires pos < |s| && next == pos + 1 && MatchAt(cc, d, s, pos).None?
    requires Covers(FindAll(cc, d, s, next), q)
    ensures Covers(FindAll(cc, d, s, pos), q)
  {
    FindAllStep(cc, d, s, pos);
  }

  /** A position where the pattern fails is not one where it matches. Kept
      as a lemma of its own so that `FindAllCovers` sees only this fact and
      not the two match attempts behind it, which keeps the solver's work
      small. */
  lemma {:induction false} NoMatchIsElsewhere(cc: CharClasses, d: Dialect, s: string, p: nat, q: nat)
    requires p <= |s| && q <= |s|
    requires MatchAt(cc, d, s, p).None? && MatchAt(cc, d, s, q).Some?
    ensures p != q
  {
  }

  /** The scan misses no match: every position from `pos` on at which a
      match attempt succeeds lies inside a match `re.findall` returns. */
  lemma {:induction false} FindAllCovers(cc: CharClasses, d: Dialect, s: string, pos: nat, q: nat)
    requires pos <= q <= |s| && MatchAt(cc, d, s, q).Some?
    ensures Covers(FindAll(cc, d, s, pos), q)
    decreases |s| - pos
  {
    if MatchAt(cc, d, s, pos).Some? {
      var x := MatchAt(cc, d, s, pos).value;
      if x.bodyHi <= q {
        FindAllCovers(cc, d, s, x.bodyHi, q);
      }
      CoversAfterMatch(cc, d, s, pos, q);
    } else {
      NoMatchIsElsewhere(cc, d, s, pos, q);
      var next := pos + 1;
      FindAllCovers(cc, d, s, next, q);
      CoversAfterSkip(cc, d, s, pos, next, q);
    }
  }

  /** `re.findall` finds something exactly when the pattern matches
      somewhere in the text. */
  lemma {:induction false} FoundIffSomeMatch(cc: CharClasses, d: Dialect, s: string)
    ensures FindAll(cc, d, s, 0) != [] <==> exists x :: Located(cc, d, s, x)
  {
    var hits := FindAll(cc, d, s, 0);
    if hits != [] {
      assert hits[0] in hits;
    }
    if x :| Located(cc, d, s, x) {
      MatchIsFound(cc, d, s, x);
    }
  }

  /** A text in which the pattern matches somewhere yields some match. */
  lemma {:induction false} MatchIsFound(cc: CharClasses, d: Dialect, s: string, x: Hit)
    requires Located(cc, d, s, x)
    ensures FindAll(cc, d, s, 0) != []
  {
    MatchAtFinds(cc, d, s, x);
    FindAllCovers(cc, d, s, 0, x.start);
    var hits := FindAll(cc, d, s, 0);
    var k :| 0 <= k < |hits| && hits[k].start <= x.start < hits[k].bodyHi;
  }

  /** The three captured groups of a match. */
  function EntryOf(s: string, x: Hit): Entry
    requires Spans(s, x)
  {
    Entry(s[x.stampLo..x.stampHi], s[x.senderLo..x.senderHi], s[x.bodyLo..x.bodyHi])
  }

  function Entries(s: string, hits: seq<Hit>): (es: seq<Entry>)
    requires forall x :: x in hits ==> Spans(s, x)
    ensures |es| == |hits|
    ensures forall k :: 0 <= k < |es| ==> es[k] == EntryOf(s, hits[k])
  {
    if hits == [] then [] else [EntryOf(s, hits[0])] + Entries(s, hits[1..])
  }

  /** Lines 31-37: the iPhone pattern first; the Android pattern only when
      the iPhone pattern finds nothing. */
  function Tokenize(cc: CharClasses, s: string): (r: (Dialect, seq<Entry>))
    ensures r.0 == IPhone <==> FindAll(cc, IPhone, s, 0) != []
    ensures r.1 == Entries(s, FindAll(cc, r.0, s, 0))
  {
    var hits := FindAll(cc, IPhone, s, 0);
    if hits != [] then (IPhone, Entries(s, hits))
    else (Android, Entries(s, FindAll(cc, Android, s, 0)))
  }

  /** The iPhone pattern is chosen exactly when it matches somewhere in
      the export; otherwise the Android pattern is used. */
  lemma {:induction false} DialectChoice(cc: CharClasses, s: string)
    ensures Tokenize(cc, s).0 == IPhone <==> exists x :: Located(cc, IPhone, s, x)
  {
    FoundIffSomeMatch(cc, IPhone, s);
  }

  /** The shape every captured triple has. */
  predicate WellFormed(cc: CharClasses, d: Dialect, e: Entry) {
    && Matches(cc, Stamp(d), e.timestamp)
    && |e.sender| > 0
    && (forall c :: c in e.sender ==> cc.isWord(c) || cc.isSpace(c))
    && |e.message| > 0
  }

  /** Every triple has a timestamp of its dialect's shape, a non-empty
      sender of word and space characters only, and a non-empty body. */
  lemma TokenizedWellFormed(cc: CharClasses, s: string)
    ensures forall e :: e in Tokenize(cc, s).1 ==> WellFormed(cc, Tokenize(cc, s).0, e)
  {
    var (d, es) := Tokenize(cc, s);
    var hits := FindAll(cc, d, s, 0);
    forall k | 0 <= k < |es|
      ensures WellFormed(cc, d, es[k])
    {
      var x := hits[k];
      assert x in hits;
      EntryWellFormed(cc, d, s, x);
    }
  }

  lemma EntryWellFormed(cc: CharClasses, d: Dialect, s: string, x: Hit)
    requires Located(cc, d, s, x)
    ensures WellFormed(cc, d, EntryOf(s, x))
  {
    var e := EntryOf(s, x);
    EndsMatch(cc, Stamp(d), s, x.stampLo, x.stampHi);
    forall c | c in e.sender
      ensures cc.isWord(c) || cc.isSpace(c)
    {
      var j :| 0 <= j < |e.sender| && e.sender[j] == c;
      assert c == s[x.senderLo + j];
    }
  }

  /** A body runs verbatim from after `sender: ` to the first line end after
      its first character that a timestamp follows: the line ends inside it
      are kept. */
  lemma BodyIsVerbatim(cc: CharClasses, d: Dialect, s: string, x: Hit)
    requires Located(cc, d, s, x)
    ensures EntryOf(s, x).message == s[x.senderHi + 2..x.bodyHi]
    ensures x.bodyHi < |s| && s[x.bodyHi] == '\n'
    ensures forall q :: x.bodyLo < q < x.bodyHi && s[q] == '\n' ==>
      !(StampAt(cc, d, s, q) || StampAt(cc, d, s, q + 1) || StampAt(cc, d, s, q + 2))
  {
    forall q | x.bodyLo < q < x.bodyHi && s[q] == '\n'
      ensures !(StampAt(cc, d, s, q) || StampAt(cc, d, s, q + 1) || StampAt(cc, d, s, q + 2))
    {
      assert !CutAt(cc, d, s, q);
    }
  }

  /** A line end after a body's first character and followed by a timestamp
      cuts that body, whatever follows the timestamp (even no `sender:` at
      all). */
  lemma BodyStopsAtStampLine(cc: CharClasses, d: Dialect, s: string, p: nat)
    requires p < |s| && s[p] == '\n'
    requires StampAt(cc, d, s, p + 1) || StampAt(cc, d, s, p + 2)
    ensures forall x :: x in FindAll(cc, d, s, 0) ==> !(x.bodyLo < p < x.bodyHi)
  {
    forall x | x in FindAll(cc, d, s, 0)
      ensures !(x.bodyLo < p < x.bodyHi)
    {
      assert CutAt(cc, d, s, p);
    }
  }

  /** The lazy body takes one character before the lookahead is first
      tried, so a line end that is the body's first character never cuts it
      (although it is a cut, see `LeadingCut`): a message that begins with a
      line break and then a timestamp runs on past that timestamp's first
      character and swallows the entry it begins. */
  lemma {:induction false} LeadingStampLineKept(cc: CharClasses, d: Dialect, s: string, x: Hit)
    requires Located(cc, d, s, x)
    requires s[x.bodyLo] == '\n' && StampAt(cc, d, s, x.bodyLo + 1)
    ensures x.bodyLo + 1 < x.bodyHi
  {
    StampIsNoLineEnd(cc, d, s, x.bodyLo + 1);
    BodyEndsAtLineEnd(cc, d, s, x);
    NotAtLead(s, x.bodyLo, x.bodyHi);
  }

  /** A line end at `hi` after `lo` is not at `lo + 1` when that character
      is no line end. */
  lemma {:induction false} NotAtLead(s: string, lo: nat, hi: nat)
    requires lo < hi < |s| && s[hi] == '\n' && lo + 1 < |s| && s[lo + 1] != '\n'
    ensures lo + 1 < hi
  {
  }

  /** Every body is non-empty and followed by a line end. */
  lemma {:induction false} BodyEndsAtLineEnd(cc: CharClasses, d: Dialect, s: string, x: Hit)
    requires Located(cc, d, s, x)
    ensures x.bodyLo < x.bodyHi < |s| && s[x.bodyHi] == '\n'
  {
  }

  /** A line end followed at once by a timestamp is a cut, and the timestamp
      does not begin with another line end. */
  lemma {:induction false} LeadingCut(cc: CharClasses, d: Dialect, s: string, p: nat)
    requires p + 1 < |s| && s[p] == '\n' && StampAt(cc, d, s, p + 1)
    ensures CutAt(cc, d, s, p) && s[p + 1] != '\n'
  {
    StampIsNoLineEnd(cc, d, s, p + 1);
  }

  /** A timestamp the lookahead accepts begins with `[` or a digit, never
      with a line end. */
  lemma {:induction false} StampIsNoLineEnd(cc: CharClasses, d: Dialect, s: string, q: nat)
    requires q < |s| && StampAt(cc, d, s, q)
    ensures s[q] != '\n'
  {
    if d == Android {
      var r := Ends(cc, STAMP_WITHOUT_SECONDS, s, q);
      assert STAMP_WITHOUT_SECONDS[0] == Digits12;
      assert cc.isDigit(s[q]);
    }
  }

  /** A header whose sender run is not closed by `: ` (the name holds a
      character that is neither a word nor a space character) starts no
      match: that entry is skipped. */
  lemma {:induction false} BadSenderSkipped(cc: CharClasses, d: Dialect, s: string, lo: nat)
    requires lo <= |s|
    requires var k := RunEnd(cc, s, lo);
      !(lo < k && k + 1 < |s| && s[k] == ':' && cc.isSpace(s[k + 1]))
    ensures forall x :: Located(cc, d, s, x) ==> x.senderLo != lo
  {
    forall x | Located(cc, d, s, x)
      ensures x.senderLo != lo
    {
      SenderIsWholeRun(cc, d, s, x);
    }
  }

  /** The sender group of a match is the whole run of word and space
      characters after the header: the greedy group cannot stop earlier,
      since `:` is neither. */
  lemma SenderIsWholeRun(cc: CharClasses, d: Dialect, s: string, x: Hit)
    requires Located(cc, d, s, x)
    ensures x.senderHi == RunEnd(cc, s, x.senderLo)
  {
  }

  /** A body cut is always followed by a timestamp, one or two characters on. */
  lemma CutIsFollowedByStamp(cc: CharClasses, d: Dialect, s: string, p: nat)
    requires CutAt(cc, d, s, p)
    ensures StampAt(cc, d, s, p + 1) || StampAt(cc, d, s, p + 2)
  {
    if d == Android {
      assert !cc.isDigit(s[p]);
      assert Ends(cc, STAMP_WITHOUT_SECONDS, s, p) == [];
    }
  }

  /** The header of a match holds a timestamp the lookahead would accept. */
  lemma HeaderIsStamp(cc: CharClasses, d: Dialect, s: string, x: Hit)
    requires Located(cc, d, s, x)
    ensures d == IPhone ==> StampAt(cc, d, s, x.stampLo - 1)
    ensures d == Android ==> StampAt(cc, d, s, x.stampLo)
  {
  }

  /** Without an end-of-input alternative in the lookahead, no captured text
      reaches the text's last timestamp: the last entry is never captured. */
  lemma LastEntryNeverCaptured(cc: CharClasses, d: Dialect, s: string, last: nat)
    requires forall q :: last < q ==> !StampAt(cc, d, s, q)
    ensures forall x :: x in FindAll(cc, d, s, 0) ==> x.bodyHi < last
  {
    forall x | x in FindAll(cc, d, s, 0)
      ensures x.bodyHi < last
    {
      CutIsFollowedByStamp(cc, d, s, x.bodyHi);
    }
  }

  /** A text holding at most one timestamp (a chat of one message) yields no
      triple at all. */
  lemma OneStampNoEntries(cc: CharClasses, d: Dialect, s: string)
    requires forall q, q' :: StampAt(cc, d, s, q) && StampAt(cc, d, s, q') ==> q == q'
    ensures FindAll(cc, d, s, 0) == []
  {
    var hits := FindAll(cc, d, s, 0);
    if hits != [] {
      var x := hits[0];
      HeaderIsStamp(cc, d, s, x);
      CutIsFollowedByStamp(cc, d, s, x.bodyHi);
      assert false;
    }
  }
}
