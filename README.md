# WhatsApp chat analysis: the text-processing core

`chat_eda.py` reads a WhatsApp chat export made without media and analyses it. This project models the steps that turn the export text into per-sender results, and proves properties about them:

1. **Tokenizer** (`tokenizer.dfy`, with the timestamp patterns in `pattern.dfy`). `re.findall` with the iPhone export pattern splits the text into `(timestamp, sender, body)` triples. If that finds nothing, the Android export pattern is used instead. The regular expressions are modelled as an explicit backtracking scanner that tries alternatives in the order Python's engine does: greedy `\d{1,2}`, the optional leading character, the greedy sender group, the lazy body and the lookahead.
2. **Placeholder filter** (`placeholders.dfy`). A record is dropped when its message contains one of the seven Turkish "… dahil edilmedi" placeholders or the encryption notice (eight texts in all). The mask is `re.search` over the alternation of the placeholders. It is proved equal to a plain substring test.
3. **Senders and message counts** (`senders.dfy`, `appearance.dfy`). The distinct senders in order of first appearance, each with the number of records they sent.
4. **Word totals and typing time** (`words.dfy`, `typing.dfy`). `str.split()` and `' '.join`. For each sender, the loop adds up the whitespace-separated words of their messages and appends `total // 38` minutes.
5. **Most-used words** (`frequency.dfy`). For each sender, the loop:
   - lowercases and joins their messages;
   - counts the words;
   - keeps `Counter.most_common(250)`, a stable sort by descending count in which ties keep first-occurrence order;
   - drops the general words;
   - stores the result under the sender's name.

Line 67 prints `len(df.loc[person])` per sender. The model states what the line is meant to print, and it also exhibits how that call miscounts for a sender with a single message. Line 188 fails outright for such a sender; the model computes the intended list and exhibits the failure separately (see Findings).

The Unicode classes behind `\d`, `\s` and `\w` and the per-character `str.lower` are abstract parameters (`Pattern.CharClasses`). The model relies on only a few facts about them:
- `:` is neither a word character nor whitespace;
- space and line feed are whitespace;
- a line feed is not a digit.

`str.split()` and the regular-expression `\s` test the same Unicode whitespace property, so both use `isSpace`. The general-word list comes from a module that is not part of this model, so it is a set parameter.

Where the code and its design intent differ, the model follows the code:
- The body lookahead has no end-of-input alternative, so the last entry of an export is never captured (`Tokenizer.LastEntryNeverCaptured`).
- The lookahead checks only for a timestamp, never for a following `sender:`, so a message line that starts with a date cuts the message there (`Tokenizer.BodyStopsAtStampLine`). This holds for every line end after the message's first character.
- The lazy body must take one character before the lookahead is tried. So a line end that is the message's first character never cuts it. A message that starts with a line break followed by a timestamp therefore swallows the entry that timestamp begins (`Tokenizer.LeadingStampLineKept`).
- No "unrecognised format" error is raised. A text that neither pattern matches gives an empty list of records.
- The `.` between the date fields is unescaped and, under `re.DOTALL`, accepts any character.
- `re.IGNORECASE` changes nothing, since the patterns hold no letters.

## Model

| member | source | states |
|---|---|---|
| Pattern.EndsMatch | chat_eda.py:17-20 | The end positions the backtracking engine tries for a timestamp pattern are exactly the ends of the substrings that have the timestamp's shape: 1-2 digits, any character, 1-2 digits, any character, 4 digits, whitespace, then `H:M:S` or `H:M`. |
| Tokenizer.Headers | chat_eda.py:17-20 | Every header candidate at a position has the dialect's shape: `[stamp]` plus whitespace after an optional leading character (iPhone), or `stamp - ` (Android). |
| Tokenizer.ClosedHas | chat_eda.py:17 | Every iPhone header with a closing `]` and whitespace after one of the timestamp's possible ends is among the candidates listed for that `[`. |
| Tokenizer.DashedHas | chat_eda.py:20 | Every Android header with ` - ` after one of the timestamp's possible ends is among the candidates listed. |
| Tokenizer.HeadersComplete | chat_eda.py:17-20 | Conversely, every header of the dialect's shape at a position is among the candidates the engine tries there. |
| Tokenizer.RunEnd | chat_eda.py:17-20 | The sender run consists only of word or whitespace characters and stops at the first character that is neither. |
| Tokenizer.FirstCut | chat_eda.py:17-20 | The lazy body ends at the first position that is a line end followed, within two characters, by a timestamp. No earlier position qualifies, and when nothing is found no position does. |
| Tokenizer.Complete | chat_eda.py:17-20 | A completed header is a full match: a non-empty sender of word/space characters, then `:` and whitespace, then a non-empty body that ends at its first cut after its first character. |
| Tokenizer.FirstCutFrom | chat_eda.py:17-20 | A cut with no cut before it, from a given position, is the one the lazy body stops at. |
| Tokenizer.CompleteOf | chat_eda.py:17-20 | Conversely, completing the header of any full match yields exactly that match. |
| Tokenizer.MatchAt | chat_eda.py:17-20 | A match attempt at a position succeeds only with a match that starts there and satisfies the whole pattern. |
| Tokenizer.FirstHitSome | chat_eda.py:17-20 | When some header candidate can be completed, the engine's attempt over the candidates succeeds. |
| Tokenizer.FirstHitPicksFirst | chat_eda.py:17-20 | The engine returns the completion of the first candidate, in its trial order, that can be completed. |
| Tokenizer.MatchAtFinds | chat_eda.py:17-20 | Conversely, a match attempt succeeds at every position where some full match starts. |
| Tokenizer.FindAll | chat_eda.py:31-37 | `re.findall` returns only full matches, each ending before the next begins. |
| Tokenizer.FindAllCovers | chat_eda.py:31-37 | Every position from the scan's start on where a match attempt would succeed lies inside one of the matches returned, so nothing matchable is passed over. |
| Tokenizer.MatchIsFound | chat_eda.py:31-37 | If the pattern matches anywhere in the text, `re.findall` returns at least one match. |
| Tokenizer.FoundIffSomeMatch | chat_eda.py:31-37 | `re.findall` returns something exactly when the pattern matches somewhere in the text. |
| Tokenizer.InSourceOrder | chat_eda.py:31-37 | The matches are pairwise disjoint and in left-to-right source order. |
| Tokenizer.Tokenize | chat_eda.py:31-37 | The iPhone dialect is chosen exactly when the iPhone pattern finds a match. Otherwise the Android pattern is used. The triples are the groups of the chosen pattern's matches, in order. |
| Tokenizer.DialectChoice | chat_eda.py:31-37 | The iPhone dialect is chosen exactly when some full iPhone match exists in the text. |
| Tokenizer.TokenizedWellFormed | chat_eda.py:17-37 | Every triple has a timestamp of its dialect's shape, a non-empty sender made only of word and whitespace characters, and a non-empty body. |
| Tokenizer.EntryWellFormed | chat_eda.py:17-20 | The groups of any single match form a well-formed triple. |
| Tokenizer.BodyIsVerbatim | chat_eda.py:17-20 | In any match, including each one `re.findall` returns, the body is the verbatim text from after `sender: ` up to a line end. Any line end inside it after its first character is not followed by a timestamp within two characters. |
| Tokenizer.BodyStopsAtStampLine | chat_eda.py:17-20 | A line end followed by a timestamp cuts every body that would run past it, whatever follows the timestamp, unless the line end is that body's first character. |
| Tokenizer.LeadingCut | chat_eda.py:17-20 | A line end followed at once by a timestamp is a position where the lookahead succeeds, and that timestamp does not start with a line end. |
| Tokenizer.LeadingStampLineKept | chat_eda.py:17-20 | When a body's first character is a line end that a timestamp follows, the body does not stop there (the lazy group takes one character first) and runs on past that timestamp's first character. |
| Tokenizer.BadSenderSkipped | chat_eda.py:17-20 | When the word/space run from a position is not closed by `: ` (the name holds some other character), no match has its sender start there, so that entry is skipped. |
| Tokenizer.SenderIsWholeRun | chat_eda.py:17-20 | The captured sender is the whole run of word/space characters after the header. |
| Tokenizer.CutIsFollowedByStamp | chat_eda.py:17-20 | At a body cut, the timestamp starts one or two characters after the line end, never on it. |
| Tokenizer.HeaderIsStamp | chat_eda.py:17-20 | The header of every match holds a timestamp that the lookahead would accept. |
| Tokenizer.LastEntryNeverCaptured | chat_eda.py:17-20 | Every body ends before the text's last timestamp, so the last entry is never captured. |
| Tokenizer.OneStampNoEntries | chat_eda.py:17-37 | A text that holds at most one timestamp yields no triple. |
| Placeholders.SearchFinds | chat_eda.py:58 | The alternation search returns the leftmost position at which some placeholder occurs, and returns nothing only when no placeholder occurs anywhere. |
| Placeholders.HasPlaceholderIffSubstring | chat_eda.py:48-58 | The mask holds for a message exactly when one of the eight placeholders is a case-sensitive substring of it. |
| Placeholders.Mask | chat_eda.py:58 | The mask has one entry per record, and each entry says whether that record's message holds a placeholder. |
| Placeholders.Unmasked | chat_eda.py:58 | `df[mask == False]` keeps every record whose mask entry is false and nothing else. |
| Placeholders.UnmaskedAppend | chat_eda.py:58 | Selecting from a concatenation concatenates the selections, so the relative order is kept. |
| Placeholders.KeepContent | chat_eda.py:58 | A record is kept if and only if its message holds no placeholder. |
| Placeholders.KeepContentCount | chat_eda.py:58 | A record without a placeholder is kept as many times as it occurs. A record with one is dropped every time. |
| Placeholders.KeepContentAppend | chat_eda.py:58 | Filtering commutes with concatenation, so the kept records stay in their original order. |
| Placeholders.RecordsWellFormed | chat_eda.py:31-58 | Every record that reaches the analyses is a well-formed triple of the detected dialect and holds no placeholder. |
| Appearance.Count | chat_eda.py:65-67 | An element's count is at most the length, and it is zero exactly when the element is absent. |
| Appearance.Unique | chat_eda.py:65 | `unique()` lists each element of the sequence exactly once and nothing else. |
| Appearance.UniqueInOrder | chat_eda.py:65 | `unique()` lists the elements in order of first appearance. |
| Appearance.TallyAt | chat_eda.py:189 | The counter has one entry per distinct element: its i-th entry is the i-th element of `unique()` (first-occurrence order) with that element's number of occurrences. |
| Appearance.TallyTotal | chat_eda.py:189 | The counts of a counter add up to the number of elements counted. |
| Senders.SenderNames | chat_eda.py:44 | The index holds every record's sender, in record order. |
| Senders.PeopleInOrder | chat_eda.py:65 | The senders list each sender once and nobody else, in order of their first record. |
| Senders.RecordsOfMembers | chat_eda.py:67 | `df.loc[person]` holds exactly the records sent by that person. |
| Senders.RecordsOfAppend | chat_eda.py:67 | Selecting a sender's records distributes over concatenation, so `df.loc[person]` keeps that sender's records in record order, each as often as it occurs. |
| Senders.RecordsOfCount | chat_eda.py:67 | A person's record count is the number of times the person occurs in the index. |
| Senders.MessagesOf | chat_eda.py:188 | `df.loc[person, 'message']` gives the messages of that person's records, one per record, in order. |
| Senders.MessageCountsAt | chat_eda.py:65-67 | The intended report lists every sender once, in first-appearance order, each with the positive number of records they sent. |
| Senders.CountsSumToTotal | chat_eda.py:65-68 | The per-sender counts add up to the total `len(df)`. |
| Senders.ReportedCount | chat_eda.py:67 | As written, `len(df.loc[person])` equals the number of that person's records, except for a single record, where it equals the number of columns (2). |
| Senders.SingleMessageReportedTwice | chat_eda.py:67-68 | For a chat of one record, line 67 reports 2 messages for its sender while line 68 reports 1 in total. |
| Words.TokenEnd | chat_eda.py:137 | A word runs up to the first whitespace character or the end of the text. |
| Words.Split | chat_eda.py:137 | `str.split()` yields only non-empty words without whitespace. |
| Words.TokenEndOfWord | chat_eda.py:137 | Inside a text without whitespace, a word runs to the end of the text. |
| Words.SplitWord | chat_eda.py:137 | A single word splits into exactly itself. |
| Words.SplitBlank | chat_eda.py:137 | A text made only of whitespace has no words. |
| Words.SplitAtSpace | chat_eda.py:188-189 | Whitespace between two texts separates their words: the words of the whole are those of the first text followed by those of the second. |
| Words.SplitJoined | chat_eda.py:188-189 | Splitting the space-joined messages gives each message's words in order. |
| Words.SplitKeepsNonSpace | chat_eda.py:137 | Splitting loses only whitespace: the words put back together are the text without its whitespace. |
| TypingTime.WordTotalEach | chat_eda.py:136-138 | A sender's word total is the number of words over all their messages. |
| TypingTime.WordTotalJoined | chat_eda.py:136-138 | Summing per-message word counts (per day, then over days) equals counting the words of all the messages joined. |
| TypingTime.MinutesOfAt | chat_eda.py:139 | Each sender's minute estimate `m` satisfies `38*m <= total < 38*(m+1)`, one entry per sender, in sender order. |
| TypingTime.TypingMinutes | chat_eda.py:134-140 | The loop's `wpm` holds, for every sender in order, their word total floor-divided by 38. |
| Frequency.Lower | chat_eda.py:188 | Lowercasing keeps the length and maps each character on its own. |
| Frequency.TextWordsEach | chat_eda.py:188-189 | The words counted for a sender are the words of their lowercased messages, message by message. |
| Frequency.Insert | chat_eda.py:189 | Inserting one counter entry into a ranking adds exactly that entry. |
| Frequency.RankPermutes | chat_eda.py:189 | Ranking the counter is a permutation of its entries. |
| Frequency.InsertRanked | chat_eda.py:189 | Inserting an entry into a ranked list keeps it ranked (counts non-increasing, ties in first-occurrence order) when the entry's word first occurs before every listed word, the order in which `Rank` inserts. |
| Frequency.RankRanked | chat_eda.py:189 | The ranking sorts by descending count and breaks ties by first occurrence, as `most_common` does. |
| Frequency.RankedAt | chat_eda.py:189 | In a ranked list, an earlier entry has a count at least as high as any later one. |
| Frequency.PrefixRanked | chat_eda.py:189 | The first `n` entries of a ranked list are ranked. |
| Frequency.DropGeneral | chat_eda.py:189-190 | The filter keeps exactly the entries whose word is not a general word. |
| Frequency.DropRanked | chat_eda.py:189-190 | Dropping general words keeps the ranking. |
| Frequency.TallyEntry | chat_eda.py:189 | An entry is in the counter exactly when its word occurs in the text and its count is the word's number of occurrences. |
| Frequency.RankedTally | chat_eda.py:189 | The ranked counter is ranked and has one entry per distinct word. |
| Frequency.TopWordsRanked | chat_eda.py:189 | `most_common(n)` has exactly `n` entries, or one per distinct word when there are fewer, and is ranked. |
| Frequency.TopWordsCounts | chat_eda.py:189 | Each entry of `most_common(n)` is a word of the text with its exact number of occurrences. |
| Frequency.LeftOutRanksLower | chat_eda.py:189 | A word of the text missing from `most_common(n)` is missing only when the text has more than `n` distinct words. In that case `n` entries were kept, and every kept word comes before it in `most_common` order: a higher count, or an equal count and an earlier first occurrence. |
| Frequency.TakeBound | chat_eda.py:189 | An entry of a ranked list missing from its first `n` entries means the list is longer than `n`, and each kept entry precedes it in ranking order. |
| Frequency.MostUsedWordsCorrect | chat_eda.py:188-190 | `most_common(250)` keeps 250 entries, or one per distinct word when there are fewer. A sender's list holds exactly those entries whose word is not a general word. The list is ranked, and each entry is a word of their lowercased text with its exact count. A non-general word is left out only when there are more than 250 distinct words; 250 entries were then kept, and every kept word precedes it in `most_common` order. |
| Frequency.MostUsedTableAt | chat_eda.py:186-191 | The dictionary's keys are exactly the senders, and each value is that sender's most-used-words list. |
| Frequency.MostUsed | chat_eda.py:186-191 | The loop builds exactly that dictionary, updating it once per sender. |
| Frequency.MostUsedWordsAsWritten | chat_eda.py:188 | As written, line 188 fails exactly for a sender with one record, and otherwise gives that sender's most-used-words list. |
| Frequency.SingleMessageHasNoWordList | chat_eda.py:186-191 | For a chat of one record, line 188 fails for its sender, while the corrected dictionary holds a list for them. |

## Left out

- Reading the export file (lines 27-28) and every `print`: the export text is a parameter, and the printed values are the functions' results.
- `pd.to_datetime` (line 45) and the unused format strings (lines 18 and 21): timestamps stay the captured strings.
- The calendar aggregations built on library dates: monthly resampling, hour and weekday grouping, the day total, the first and last dates, and the most active day. They rest on library date arithmetic.
- The `np.mean` averages (lines 162 and 174): floating point.
- All plotting: user interface.
- The `timedelta` formatting of the minutes (line 145): only the integer `// 38` is modelled.
- Line 59: an expression whose value is discarded.
- `set_index` (line 44): the table is a sequence of triples, and a sender's rows are selected by `RecordsOf`.
- `general_words`: it comes from a module that is not part of this model, so it is a set parameter.
- The Unicode meaning of `\d`, `\s`, `\w` and of `str.lower`: abstract parameters with the few facts listed above.
- Frequency.Lower: models `str.lower` as one character to one character. Python lowercases a few characters into two (U+0130, Turkish capital dotted I, becomes `i` plus U+0307), and the model does not capture that lengthening.
- TypingTime.TypingMinutes: models the per-day grouping of line 136 as a plain sum over the sender's messages, since the sum of the per-day sums is the same integer.
- TypingTime.TypingMinutes: for a sender with a single message, `df_count.loc[person]` is a row rather than a table, and the per-day grouping of line 136 then fails inside pandas. The model computes that sender's total the way it does for everyone else.
- Frequency.MostUsed: computes a list for a sender with a single message, where line 188 fails (see Findings).
- Frequency.MostUsed: the dictionary is a map, so the insertion order of its keys (the sender order) is not kept in the value itself. It is stated through `People`.

## Findings

| source | as written | input that shows it | evidently intended | confidence | as-written member | corrected member |
|---|---|---|---|---|---|---|
| chat_eda.py:67 | `len(df.loc[person])`: for a sender who appears in exactly one row, `df.loc` returns that row, and its length is the number of columns, 2 | the records `[("01.02.2020 10:00", "Ayse", "merhaba")]`: line 67 reports 2 messages for Ayse, line 68 reports 1 in total | the number of that sender's records | not executed | Senders.SingleMessageReportedTwice | Senders.MessageCountsAt |
| chat_eda.py:188 | `df_freq.loc[person, 'message'].str.lower()`: for a sender who appears in exactly one row, `.loc` returns that row's message as a plain string, which has no `.str` accessor, so the line fails | the records `[("01.02.2020 10:00", "Ayse", "merhaba")]` | that sender's most-used-words list, as for every other sender | not executed | Frequency.SingleMessageHasNoWordList | Frequency.MostUsedTableAt |
