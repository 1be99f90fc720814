/** The timestamp part of the two chat-export regular expressions, matched
    the way Python's backtracking engine does it: every way a pattern can
    match from a position, listed in the order the engine tries them. */
module Pattern {

  /** The Unicode character classes behind `\d`, `\s` and `\w`, and the
      per-character `str.lower`, kept abstract. */
  datatype Classes = Classes(
    isDigit: char -> bool,
    isSpace: char -> bool,
    isWord: char -> bool,
    lower: char -> char)

  /** The only facts about Unicode the model relies on. */
  predicate Sound(c: Classes) {
    && !c.isWord(':') && !c.isSpace(':')
    && c.isSpace(' ') && c.isSpace('\n')
    && !c.isDigit('\n')
  }

  type CharClasses = c: Classes | Sound(c)
    witness Classes(ch => '0' <= ch <= '9', ch => ch == ' ' || ch == '\n',
                    ch => 'a' <= ch <= 'z', ch => ch)

  /** One element of a timestamp pattern. */
  datatype Atom =
    | Digits12      // `\d{1,2}`, greedy: two digits are tried before one
    | Digits4       // `\d{4}`
    | AnyChar       // `.` (unescaped, with DOTALL: any character at all)
    | Space         // `\s`
    | Lit(c: char)  // a literal character

  /** `\d{1,2}.\d{1,2}.\d{4}\s\d{1,2}:\d{1,2}:\d{1,2}`, the iPhone export. */
  const STAMP_WITH_SECONDS: seq<Atom> :=
    [Digits12, AnyChar, Digits12, AnyChar, Digits4, Space,
     Digits12, Lit(':'), Digits12, Lit(':'), Digits12]

  /** `\d{1,2}.\d{1,2}.\d{4}\s\d{1,2}:\d{1,2}`, the Android export. */
  const STAMP_WITHOUT_SECONDS: seq<Atom> :=
    [Digits12, AnyChar, Digits12, AnyChar, Digits4, Space,
     Digits12, Lit(':'), Digits12]

  /** The positions at which `pat`, started at `i`, can stop, in the order
      the backtracking engine tries them. */
  function Ends(cc: CharClasses, pat: seq<Atom>, s: string, i: nat): (r: seq<nat>)
    requires i <= |s|
    ensures forall e :: e in r ==> i <= e <= |s|
    decreases |s| - i
  {
    if pat == [] then [i]
    else
      var rest := pat[1..];
      match pat[0]
      case Digits12 =>
        (if i + 2 <= |s| && cc.isDigit(s[i]) && cc.isDigit(s[i + 1])
         then Ends(cc, rest, s, i + 2) else [])
        + (if i < |s| && cc.isDigit(s[i]) then Ends(cc, rest, s, i + 1) else [])
      case Digits4 =>
        if i + 4 <= |s| && cc.isDigit(s[i]) && cc.isDigit(s[i + 1])
           && cc.isDigit(s[i + 2]) && cc.isDigit(s[i + 3])
        then Ends(cc, rest, s, i + 4) else []
      case AnyChar =>
        if i < |s| then Ends(cc, rest, s, i + 1) else []
      case Space =>
        if i < |s| && cc.isSpace(s[i]) then Ends(cc, rest, s, i + 1) else []
      case Lit(c) =>
        if i < |s| && s[i] == c then Ends(cc, rest, s, i + 1) else []
  }

  /** Declarative reading of a pattern: the whole of `w` has the shape `pat`. */
  predicate Matches(cc: CharClasses, pat: seq<Atom>, w: string)
    decreases |w|
  {
    if pat == [] then w == []
    else
      var rest := pat[1..];
      match pat[0]
      case Digits12 =>
        || (|w| >= 2 && cc.isDigit(w[0]) && cc.isDigit(w[1]) && Matches(cc, rest, w[2..]))
        || (|w| >= 1 && cc.isDigit(w[0]) && Matches(cc, rest, w[1..]))
      case Digits4 =>
        |w| >= 4 && cc.isDigit(w[0]) && cc.isDigit(w[1]) && cc.isDigit(w[2])
        && cc.isDigit(w[3]) && Matches(cc, rest, w[4..])
      case AnyChar => |w| >= 1 && Matches(cc, rest, w[1..])
      case Space => |w| >= 1 && cc.isSpace(w[0]) && Matches(cc, rest, w[1..])
      case Lit(c) => |w| >= 1 && w[0] == c && Matches(cc, rest, w[1..])
  }

  /** The engine's candidate end positions are exactly the ends of the
      substrings that have the pattern's shape. */
  lemma {:induction false} EndsMatch(cc: CharClasses, pat: seq<Atom>, s: string, i: nat, e: nat)
    requires i <= |s|
    ensures e in Ends(cc, pat, s, i) <==> i <= e <= |s| && Matches(cc, pat, s[i..e])
    decreases |pat|
  {
    if pat != [] {
      var rest := pat[1..];
      if i <= e <= |s| {
        var w := s[i..e];
        if |w| >= 1 { assert w[1..] == s[i + 1..e]; }
        if |w| >= 2 { assert w[2..] == s[i + 2..e]; }
        if |w| >= 4 { assert w[4..] == s[i + 4..e]; }
      }
      match pat[0]
      case Digits12 =>
        if i + 2 <= |s| { EndsMatch(cc, rest, s, i + 2, e); }
        if i + 1 <= |s| { EndsMatch(cc, rest, s, i + 1, e); }
      case Digits4 =>
        if i + 4 <= |s| { EndsMatch(cc, rest, s, i + 4, e); }
      case AnyChar =>
        if i + 1 <= |s| { EndsMatch(cc, rest, s, i + 1, e); }
      case Space =>
        if i + 1 <= |s| { EndsMatch(cc, rest, s, i + 1, e); }
      case Lit(c) =>
        if i + 1 <= |s| { EndsMatch(cc, rest, s, i + 1, e); }
    }
  }
}
