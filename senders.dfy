/** Who took part in the chat and how many messages each of them sent. */
module Senders {
  import opened Tokenizer
  import opened Appearance

  /** The record table's index: the sender of every record, in order. */
  function SenderNames(records: seq<Entry>): (names: seq<string>)
    ensures |names| == |records|
    ensures forall k :: 0 <= k < |records| ==> names[k] == records[k].sender
  {
    if records == [] then []
    else SenderNames(records[..|records| - 1]) + [records[|records| - 1].sender]
  }

  /** Line 65, `df.index.unique()`: every sender once, in order of their
      first record. */
  function People(records: seq<Entry>): seq<string> {
    Unique(SenderNames(records))
  }

  /** Each sender is listed exactly once, nobody else is, and they are
      listed in the order of their first records. */
  lemma PeopleInOrder(records: seq<Entry>)
    ensures Distinct(People(records))
    ensures forall i :: 0 <= i < |People(records)| ==>
      exists k :: 0 <= k < |records| && records[k].sender == People(records)[i]
    ensures forall k :: 0 <= k < |records| ==> records[k].sender in People(records)
    ensures forall i, j :: 0 <= i < j < |People(records)| ==>
      FirstIndex(SenderNames(records), People(records)[i]) < FirstIndex(SenderNames(records), People(records)[j])
  {
    var names := SenderNames(records);
    var u := Unique(names);
    UniqueInOrder(names);
    assert forall i :: 0 <= i < |u| ==> names[FirstIndex(names, u[i])] == u[i];
  }

  /** `df.loc[person]`: the records of one sender, in their original order. */
  function RecordsOf(records: seq<Entry>, person: string): seq<Entry> {
    if records == [] then []
    else
      var init, last := records[..|records| - 1], records[|records| - 1];
      assert records == init + [last];
      RecordsOf(init, person) + (if last.sender == person then [last] else [])
  }

  /** A sender's records are exactly the records that sender sent. */
  lemma {:induction false} RecordsOfMembers(records: seq<Entry>, person: string)
    ensures forall e :: e in RecordsOf(records, person) <==> e in records && e.sender == person
  {
    if records != [] {
      var init, last := records[..|records| - 1], records[|records| - 1];
      assert records == init + [last];
      RecordsOfMembers(init, person);
    }
  }

  /** Selecting a sender's records from two tables one after the other gives
      the selection from the first followed by the selection from the second,
      so the records keep their order and their multiplicity. */
  lemma {:induction false} RecordsOfAppend(a: seq<Entry>, b: seq<Entry>, person: string)
    ensures RecordsOf(a + b, person) == RecordsOf(a, person) + RecordsOf(b, person)
    decreases |b|
  {
    if b == [] {
      assert a + b == a;
    } else {
      var init, last := b[..|b| - 1], b[|b| - 1];
      var ab := a + b;
      assert ab[..|ab| - 1] == a + init;
      assert ab[|ab| - 1] == last;
      RecordsOfAppend(a, init, person);
    }
  }

  /** `df.loc[person, 'message']`: the messages of one sender, in order. */
  function MessagesOf(records: seq<Entry>, person: string): (ms: seq<string>)
    ensures |ms| == |RecordsOf(records, person)|
    ensures forall k :: 0 <= k < |ms| ==> ms[k] == RecordsOf(records, person)[k].message
  {
    var mine := RecordsOf(records, person);
    seq(|mine|, k requires 0 <= k < |mine| => mine[k].message)
  }

  /** The number of records of a sender is the number of times the sender
      occurs in the index. */
  lemma {:induction false} RecordsOfCount(records: seq<Entry>, person: string)
    ensures |RecordsOf(records, person)| == Count(SenderNames(records), person)
  {
    if records != [] {
      var init := records[..|records| - 1];
      RecordsOfCount(init, person);
      assert SenderNames(records)[..|records| - 1] == SenderNames(init);
    }
  }

  /** What lines 66-67 are meant to report: every sender, in order of first
      appearance, with the number of records they sent. */
  function MessageCounts(records: seq<Entry>): seq<(string, nat)> {
    Tally(SenderNames(records))
  }

  /** Each sender appears once, in first-appearance order, with exactly the
      number of their records, and that number is positive. */
  lemma MessageCountsAt(records: seq<Entry>)
    ensures |MessageCounts(records)| == |People(records)|
    ensures forall i :: 0 <= i < |People(records)| ==>
      MessageCounts(records)[i] == (People(records)[i], |RecordsOf(records, People(records)[i])|)
      && |RecordsOf(records, People(records)[i])| > 0
  {
    TallyAt(SenderNames(records));
    forall i | 0 <= i < |People(records)| {
      RecordsOfCount(records, People(records)[i]);
    }
  }

  /** Lines 65-68: the per-sender counts add up to the total `len(df)`. */
  lemma CountsSumToTotal(records: seq<Entry>)
    ensures Total(MessageCounts(records)) == |records|
  {
    TallyTotal(SenderNames(records));
  }

  /** The record table has two columns, `date` and `message`, once the
      sender has become the index (line 44). */
  const COLUMN_COUNT: nat := 2

  /** Line 67 as written: `len(df.loc[person])`. When the sender occurs in
      exactly one row, `df.loc` returns that row rather than a one-row
      table, and its length is the number of columns. */
  function ReportedCount(records: seq<Entry>, person: string): (n: nat)
    ensures |RecordsOf(records, person)| != 1 ==> n == |RecordsOf(records, person)|
    ensures |RecordsOf(records, person)| == 1 ==> n == COLUMN_COUNT
  {
    var mine := RecordsOf(records, person);
    if |mine| == 1 then COLUMN_COUNT else |mine|
  }

  /** A chat whose only record is one message: line 67 reports two messages
      for its sender, while line 68 reports one in total. */
  lemma SingleMessageReportedTwice()
    ensures var records := [Entry("01.02.2020 10:00", "Ayse", "merhaba")];
      && ReportedCount(records, "Ayse") == 2
      && |RecordsOf(records, "Ayse")| == 1
      && |records| == 1
  {
    var records := [Entry("01.02.2020 10:00", "Ayse", "merhaba")];
    assert records[..0] == [];
  }
}
