/** The media-placeholder filter: an export made without media leaves a
    fixed placeholder text where each picture, sticker, voice note, GIF,
    video or document was, plus one line announcing end-to-end encryption.
    Records whose message contains any of them are dropped. */
module Placeholders {
  import opened Pattern
  import opened Tokenizer

  /** The eight placeholder texts of a Turkish-language export; four of
      them begin with U+200E LEFT-TO-RIGHT MARK. */
  const PLACEHOLDERS: seq<string> := [
    "görüntü dahil edilmedi",
    "Çıkartma dahil edilmedi",
    "ses dahil edilmedi",
    "\U{200E}GIF dahil edilmedi",
    "\U{200E}video dahil edilmedi",
    "\U{200E}belge dahil edilmedi",
    "<Medya dahil edilmedi>",
    "\U{200E}Mesajlar ve aramalar uçtan uca şifrelidir"]

  /** `needle` occurs in `hay` starting at position `i`. */
  predicate OccursAt(needle: string, hay: string, i: nat) {
    i + |needle| <= |hay| && hay[i..i + |needle|] == needle
  }

  /** `needle` is a substring of `hay`. */
  ghost predicate Contains(hay: string, needle: string) {
    exists i: nat :: OccursAt(needle, hay, i)
  }

  /** `re.search` with the alternation `alts[0]|alts[1]|...` (none of the
      placeholders holds a regular-expression metacharacter, so each
      alternative matches itself literally): at each start position from `i`
      on the alternatives are tried in order, from the `k`-th at `i` itself,
      and the first position where one matches is returned. */
  function Search(alts: seq<string>, hay: string, i: nat, k: nat): Option<nat>
    requires i <= |hay| && k <= |alts|
    decreases |hay| - i, |alts| - k
  {
    if k < |alts| && OccursAt(alts[k], hay, i) then Some(i)
    else if k < |alts| then Search(alts, hay, i, k + 1)
    else if i < |hay| then Search(alts, hay, i + 1, 0)
    else None
  }

  /** The search reports the leftmost position at which some alternative
      occurs, and reports nothing only when no alternative occurs anywhere
      it looked. */
  lemma {:induction false} SearchFinds(alts: seq<string>, hay: string, i: nat, k: nat)
    requires i <= |hay| && k <= |alts|
    ensures Search(alts, hay, i, k).Some? ==>
      var p := Search(alts, hay, i, k).value;
      && i <= p <= |hay|
      && (exists j :: 0 <= j < |alts| && OccursAt(alts[j], hay, p))
      && forall q, j :: i <= q < p && (q == i ==> k <= j) && 0 <= j < |alts| ==> !OccursAt(alts[j], hay, q)
    ensures Search(alts, hay, i, k).None? ==>
      forall q, j :: i <= q && (q == i ==> k <= j) && 0 <= j < |alts| ==> !OccursAt(alts[j], hay, q)
    decreases |hay| - i, |alts| - k
  {
    if k < |alts| && OccursAt(alts[k], hay, i) {
    } else if k < |alts| {
      SearchFinds(alts, hay, i, k + 1);
    } else if i < |hay| {
      SearchFinds(alts, hay, i + 1, 0);
    }
  }

  /** Line 58's mask `str.contains('|'.join(placeholders))` for one message. */
  predicate HasPlaceholder(m: string) {
    Search(PLACEHOLDERS, m, 0, 0).Some?
  }

  /** The regular-expression search finds a match exactly when one of the
      placeholders is a substring of the message. */
  lemma HasPlaceholderIffSubstring(m: string)
    ensures HasPlaceholder(m) <==> exists k :: 0 <= k < |PLACEHOLDERS| && Contains(m, PLACEHOLDERS[k])
  {
    SearchFinds(PLACEHOLDERS, m, 0, 0);
    if !HasPlaceholder(m) {
      forall k | 0 <= k < |PLACEHOLDERS|
        ensures !Contains(m, PLACEHOLDERS[k])
      {
        forall i: nat ensures !OccursAt(PLACEHOLDERS[k], m, i) {
          if i > |m| {
            assert i + |PLACEHOLDERS[k]| > |m|;
          }
        }
      }
    }
  }

  /** Line 58's mask: for every record, whether its message holds a
      placeholder. */
  function Mask(records: seq<Entry>): (mask: seq<bool>)
    ensures |mask| == |records|
    ensures forall k :: 0 <= k < |records| ==> mask[k] == HasPlaceholder(records[k].message)
  {
    seq(|records|, k requires 0 <= k < |records| => HasPlaceholder(records[k].message))
  }

  /** `df[mask == False]`: the records whose mask entry is false, in order. */
  function Unmasked(records: seq<Entry>, mask: seq<bool>): (r: seq<Entry>)
    requires |mask| == |records|
    ensures forall k :: 0 <= k < |records| && !mask[k] ==> records[k] in r
    ensures forall e :: e in r ==> exists k :: 0 <= k < |records| && records[k] == e && !mask[k]
  {
    if records == [] then []
    else
      var tail := Unmasked(records[1..], mask[1..]);
      assert forall k :: 1 <= k < |records| ==> records[1..][k - 1] == records[k] && mask[1..][k - 1] == mask[k];
      (if mask[0] then [] else [records[0]]) + tail
  }

  /** Selecting from a concatenation concatenates the selections: the
      records keep their relative order. */
  lemma {:induction false} UnmaskedAppend(a: seq<Entry>, ma: seq<bool>, b: seq<Entry>, mb: seq<bool>)
    requires |ma| == |a| && |mb| == |b|
    ensures Unmasked(a + b, ma + mb) == Unmasked(a, ma) + Unmasked(b, mb)
  {
    if a == [] {
      assert a + b == b && ma + mb == mb;
    } else {
      var ab, mab := a + b, ma + mb;
      assert ab[0] == a[0] && ab[1..] == a[1..] + b;
      assert mab[0] == ma[0] && mab[1..] == ma[1..] + mb;
      UnmaskedAppend(a[1..], ma[1..], b, mb);
      var head := if ma[0] then [] else [a[0]];
      calc {
        Unmasked(ab, mab);
        head + Unmasked(a[1..] + b, ma[1..] + mb);
        head + (Unmasked(a[1..], ma[1..]) + Unmasked(b, mb));
        (head + Unmasked(a[1..], ma[1..])) + Unmasked(b, mb);
      }
    }
  }

  /** Line 58: the records whose message holds no placeholder. */
  function KeepContent(records: seq<Entry>): (r: seq<Entry>)
    ensures forall e :: e in r ==> e in records && !HasPlaceholder(e.message)
    ensures forall e :: e in records && !HasPlaceholder(e.message) ==> e in r
  {
    Unmasked(records, Mask(records))
  }

  /** A record that holds no placeholder is kept as many times as it
      occurs; one that holds a placeholder is dropped every time. */
  lemma {:induction false} KeepContentCount(records: seq<Entry>, e: Entry)
    ensures multiset(KeepContent(records))[e] == if HasPlaceholder(e.message) then 0 else multiset(records)[e]
  {
    if records != [] {
      assert records == [records[0]] + records[1..];
      assert Mask(records)[1..] == Mask(records[1..]);
      KeepContentCount(records[1..], e);
    }
  }

  /** The filter keeps the relative order of the records: filtering a
      concatenation concatenates the filtered parts. */
  lemma KeepContentAppend(a: seq<Entry>, b: seq<Entry>)
    ensures KeepContent(a + b) == KeepContent(a) + KeepContent(b)
  {
    assert Mask(a + b) == Mask(a) + Mask(b);
    UnmaskedAppend(a, Mask(a), b, Mask(b));
  }

  /** The records the analyses run on: the export's triples with the
      placeholder messages dropped. */
  function Records(cc: CharClasses, s: string): seq<Entry> {
    KeepContent(Tokenize(cc, s).1)
  }

  /** Every record is a well-formed triple of the detected dialect and holds
      no placeholder. */
  lemma RecordsWellFormed(cc: CharClasses, s: string)
    ensures forall e :: e in Records(cc, s) ==>
      WellFormed(cc, Tokenize(cc, s).0, e) && !HasPlaceholder(e.message)
  {
    TokenizedWellFormed(cc, s);
  }
}
