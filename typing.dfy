/** Lines 134-140: how many words each sender wrote, and how many minutes
    that took at an assumed typing speed. */
module TypingTime {
  import opened Pattern
  import opened Tokenizer
  import opened Senders
  import opened Words

  /** Line 137, `str.split().str.len()`: the words of one message. */
  function WordCount(cc: CharClasses, m: string): nat {
    |Split(cc, m)|
  }

  /** Lines 136-138: a sender's messages' word counts, summed per day and
      then over the days, which is their plain sum. */
  function WordTotal(cc: CharClasses, ms: seq<string>): nat {
    if ms == [] then 0 else WordTotal(cc, ms[..|ms| - 1]) + WordCount(cc, ms[|ms| - 1])
  }

  /** The word total of a sender is the number of words in their messages
      joined by spaces. */
  lemma {:induction false} WordTotalJoined(cc: CharClasses, ms: seq<string>)
    ensures WordTotal(cc, ms) == |Split(cc, JoinSpace(ms))|
  {
    SplitJoined(cc, ms);
    WordTotalEach(cc, ms);
  }

  lemma {:induction false} WordTotalEach(cc: CharClasses, ms: seq<string>)
    ensures WordTotal(cc, ms) == |SplitEach(cc, ms)|
  {
    if ms != [] {
      WordTotalEach(cc, ms[..|ms| - 1]);
    }
  }

  /** Typing speed on a phone, in words per minute. */
  const TYPING_SPEED: nat := 38

  /** The whole minutes each of `people` needed to type their words at
      `TYPING_SPEED`, in the order given. */
  function MinutesOf(cc: CharClasses, records: seq<Entry>, people: seq<string>): seq<nat> {
    if people == [] then []
    else
      MinutesOf(cc, records, people[..|people| - 1])
      + [WordTotal(cc, MessagesOf(records, people[|people| - 1])) / TYPING_SPEED]
  }

  /** One entry per person: the largest number of whole minutes in which
      `TYPING_SPEED` words a minute do not exceed the person's word total. */
  lemma {:induction false} MinutesOfAt(cc: CharClasses, records: seq<Entry>, people: seq<string>)
    ensures |MinutesOf(cc, records, people)| == |people|
    ensures forall i :: 0 <= i < |people| ==>
      var total := WordTotal(cc, MessagesOf(records, people[i]));
      var m := MinutesOf(cc, records, people)[i];
      m * TYPING_SPEED <= total < (m + 1) * TYPING_SPEED
  {
    if people != [] {
      var init := people[..|people| - 1];
      MinutesOfAt(cc, records, init);
      var total := WordTotal(cc, MessagesOf(records, people[|people| - 1]));
      assert (total / TYPING_SPEED) * TYPING_SPEED <= total < (total / TYPING_SPEED + 1) * TYPING_SPEED;
      forall i | 0 <= i < |init|
        ensures people[i] == init[i]
      {
      }
    }
  }

  /** Lines 134-140: `wpm`, the minutes of every sender in order of first
      appearance. */
  method TypingMinutes(cc: CharClasses, records: seq<Entry>) returns (wpm: seq<nat>)
    ensures wpm == MinutesOf(cc, records, People(records))
  {
    var people := People(records);
    wpm := [];
    var i := 0;
    while i < |people|
      invariant 0 <= i <= |people|
      invariant wpm == MinutesOf(cc, records, people[..i])
    {
      var totalWords := WordTotal(cc, MessagesOf(records, people[i]));
      assert people[..i + 1][..i] == people[..i];
      wpm := wpm + [totalWords / TYPING_SPEED];
      i := i + 1;
    }
    assert people[..i] == people;
  }
}
