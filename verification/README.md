# Verification of the core algorithms and protocols

This project models the parts of the repository that hold real algorithms and protocols, and
proves what they promise for every input, every run and every interleaving.

* **Number words** (`English`, `German`, `Ukrainian` and their companions). The evaluation rewrites
  spoken numbers in a token stream to digits. Each parser is written twice: as a recursive function
  that the proofs use, and as the loops of the source, proved equal to it. The spellers (`Speaks`,
  `Spell`, `Says`) are written independently of the parsers; the round-trip theorems say that
  parsing undoes them anywhere in a token stream. A token is *plain* when the parser never treats
  it as part of a number. `EnglishAnds`, `EnglishOrdinals`, `EnglishTails`, `UkrainianTails` and the
  last part of `GermanProofs` say exactly what happens where the surroundings are not plain;
  `GermanWords` says which tokens are read at all.
* **Edit distance and time spans** (`EditDistance`, `Spans`). Two-row dynamic programming against
  the least cost of an edit script; interval sweeps against the set of milliseconds covered.
* **Telemetry queue** (`TelemetryModel`, `TelemetryProofs`, `TelemetryBounds`, `TelemetrySteps`,
  `TelemetryReporter`). The client's event queue. `TelemetrySteps` says what each step does to it. Every stretch of an actor method between two awaits is one step, so a sequence of
  steps is an interleaving; the class has the actor's fields and each method is proved to be one step.
* **Tenant-KEK re-wrap** (`Rewrap`, `RewrapProofs`, `RewrapRun`). Any number of runs with stale
  snapshots, failing calls and crashes at any point, as a state machine; and one run as the loop it
  is, proved to take only steps of that machine.
* **Migration runner** (`Migrations`, `MigrationProofs`, `MigrationRuns`). `up` and `down` as a class over the recorded versions and the
  schema, and concurrent runs as a state machine.
* **Parakeet words and segments** (`Parakeet`, `ParakeetProofs`, `ParakeetWords`). Tokens to timed words, words to segments.
* **Offline note merge** (`NoteMerge`, `NoteMergeProofs`, `NoteMergeLines`). The merge by the keys of lines, and what a
  line's key is, told from its text.

`Decimal` (numerals) and `Subsequences` are shared.

## Where the code and its documentation part

The model follows the code. These are proved, each with its exact condition or a concrete input:

* German ordinals: the suffix pattern takes an "s" away with the ending, so *sechste* is cut to
  *sech* and not read; irregular stems are looked up only as the whole word, so *hunderterste* is
  not read either. `GermanProofs.OrdinalIsRead` says exactly which of the ordinals are read.
* English "and": after a number with a "hundred" or "thousand" the parser drops an "and" whenever a
  unit or tens word follows, whether or not that word can join the number. It cannot when it is
  "oh", which has no value, and when the number's last two digits leave no room for it: *one hundred
  and oh* becomes 100 and "oh", *one hundred five and six* becomes 105 and 6. `EnglishAnds.AndAfterNumber`
  says exactly when the "and" stays, joins or is lost.
* English halves: a number from 10 to 99 and a smaller one behind it that cannot join it are read as a
  year, so *fifteen five* is 1505 (`EnglishProofs.YearInHalves`).
* English ordinals: a final ordinal joins the number only as a unit after a ten, so *two hundred
  twenty first* is 221 and *two hundred first* is 200 and 1 (`EnglishOrdinals.OrdinalIsOneNumber`).
* Checksum drift: the header of the migration runner (`scripts/db/migrate.py:3-4`) says a changed
  applied file aborts before any change. `cmd_up` drops recorded versions before it looks at
  checksums, so drift is met only when another run records the version in between
  (`MigrationRuns.DriftNeedsARace`); alone, `up` applies later files regardless (`MigrationProofs.DriftGoesUnnoticed`). Even then it may have applied
  earlier files (`MigrationRuns.DriftBeforeAnyChange`, `DriftAfterAChange`).
* Telemetry: loading a stored queue schedules no flush; only `report` applies the cap of 500; the
  comment promises a back-off from 2 s, but it is doubled before it is used, so the first retry
  comes after 4 s, and no retry is scheduled by a failure when a flush is coming already.
  `TelemetryBounds` says exactly when the queue stays within 500 and how long a loaded queue sleeps.
* Re-wrap: a row that fails after it was counted is counted twice: moved, but its audit event not
  written, as migrated and as failed; skipped because another run has moved it, but its transaction or
  connection not ended, as skipped and as failed. `RewrapProofs.TotalsCountLateFailuresTwice` says that
  the printed totals exceed the rows by exactly these, and `RewrapRun.OneRowCountedTwice` and
  `RewrapRun.OneRowSkippedAndFailed` are runs that do it.
* Non-speech markers: the sum of overlaps is the covered time exactly when no two markers share a
  millisecond of the region; overlapping markers can mark a region they cover a quarter of.
* The summed lengths of `_rttm_speech`'s merged spans are the covered time exactly when every reversed
  input span is reached by one that sorts before it (`Spans.MergeSpeech`); a reversed span by itself
  counts with its negative length.

## Assumptions

* Lexicons are parameters of the English and Ukrainian parsers. What the proofs need of them is `Wf`
  (English: units below 20, tens from 20 to 90, no entry is a numeral; Ukrainian: no entry is or begins
  a numeral, values from 20 up are multiples of ten). The complete tables of both are `Wf`.
* Telemetry: new events have new ids, the events of a stored file have distinct ids, saving succeeds.
* Re-wrap: `vault.wrap` answers under the id `vault.master_key_id`; unwrapping is a function of the
  bytes; nothing is assumed of what `wrap` returns. Any call may fail, the lock and the end of a
  transaction included, and a commit may be carried out without the run learning of it.
* Migrations: versions are distinct and ordered as numbers; a file's effect on the schema is a function.
  In concurrent runs a transaction may be lost, or carried out without the run learning of it.
* Parakeet: times are real numbers; `round(x, 3)` is rounding to the nearest millisecond, ties to
  even; a token's `exp(logprob)` is given.
* Notes: white space is space, tab and newline, and lines are cut at the newline; letters are
  lower-cased in ASCII.

## Model

| member | source | states |
|---|---|---|
| EnglishParser.ParseEnglish | scripts/eval/asr_scoring.py:272-353 | the loops, self-call included, terminate on every token list and compute the function `EnNumbers` the theorems are about |
| EnglishParser.NextFrom | scripts/eval/asr_scoring.py:275-296 | one turn of the outer loop consumes at least one token and puts out the next token of the specification |
| EnglishParser.ReadNumber | scripts/eval/asr_scoring.py:297-352 | a number that starts here is read to its end, as a year when a second half follows |
| EnglishParser.ScanFrom | scripts/eval/asr_scoring.py:297-335 | the inner loop takes at least one token and stops where the specification's scan stops, with the same total |
| EnglishParser.SecondHalf | scripts/eval/asr_scoring.py:338-343 | the lookahead takes the longest run of at most two unit or tens words |
| EnglishParser.SelfCallAgrees | scripts/eval/asr_scoring.py:344-347 | the recursive call on a year's second half answers one numeral below 100 exactly when that half is one number, and then its value |
| EnglishProofs.RoundTrip | scripts/eval/asr_scoring.py:272-353 | every n below a million, with "and" at any allowed places, between plain tokens or at an end, becomes the one token str(n), and the surroundings parse as they would alone |
| EnglishProofs.ParseOfSpoken | scripts/eval/asr_scoring.py:297-351 | the words of n alone parse to the one token str(n) |
| EnglishProofs.ScanSkipsAnds | scripts/eval/asr_scoring.py:325-331 | properly placed "and"s do not change what a number adds up to or where it ends |
| EnglishAnds.AndIsTakenAlone | scripts/eval/asr_scoring.py:325-331 | at any point behind a "hundred" or "thousand": the scan takes an "and" before a unit or tens word, and nothing after it, exactly when that word cannot join |
| EnglishAnds.NextIfTaken | scripts/eval/asr_scoring.py:325-352 | what the parser puts out and leaves behind after a spoken number and an accepted "and"; nothing but the "and" is used up exactly when it is lost |
| EnglishAnds.AndAfterNumber | scripts/eval/asr_scoring.py:325-352 | the "and" after any spoken number stays in the output exactly when the lookahead refuses it, and is gone with both sides read as they would be alone exactly when the next word cannot join (a zero that joins is the one case the output cannot tell) |
| EnglishAnds.LostAnds | scripts/eval/asr_scoring.py:325-331 | "one hundred and oh" becomes 100 and "oh", "one hundred five and six" becomes 105 and 6 |
| EnglishAnds.ZeroIsLost | scripts/eval/asr_scoring.py:301-308 | "one hundred twenty and zero fifteen": the zero joins, and yet the output is that of 120 and of "zero fifteen" |
| EnglishOrdinals.OrdinalIsOneNumber | scripts/eval/asr_scoring.py:277-317 | which spoken ordinals below a million are one number, between plain tokens: those below a hundred and those that end in a unit after a ten, without "and" before it; any other gives the number before its last word and the last word by itself |
| EnglishOrdinals.OrdinalAfterNumber | scripts/eval/asr_scoring.py:313-317 | an ordinal word after any spoken number joins it exactly as a unit right after a ten |
| EnglishOrdinals.SpellingEndsIn | scripts/eval/asr_scoring.py:299-335 | the number before the last word, and what that word is worth, are those of the spelling |
| EnglishProofs.YearInHalves | scripts/eval/asr_scoring.py:337-350 | a number a from 10 to 99 and any b below 100 said in a row, between plain tokens, become one numeral: 100a+b exactly when the first word of b cannot join a, else a+b |
| EnglishProofs.FirstWordJoins | scripts/eval/asr_scoring.py:301-312 | it can exactly when b is a unit and a is a full ten from 20 up |
| EnglishProofs.HalvesDoNotMerge | scripts/eval/asr_scoring.py:301-312 | after a number from 10 to 99 no word from 10 up can join it |
| EnglishProofs.PlainCuts | scripts/eval/asr_scoring.py:272-353 | parse(x+[p]+y) = parse(x)+[p]+parse(y) for a plain token p, any x and y |
| EnglishProofs.SplitBeforePlain | scripts/eval/asr_scoring.py:272-353 | the stream parses in two parts at any cut before a plain token |
| EnglishProofs.SplitAfterPlain | scripts/eval/asr_scoring.py:272-353 | and at any cut after one |
| EnglishProofs.ScanStopsAtPlain | scripts/eval/asr_scoring.py:299-335 | a number's end is found without looking past a plain token |
| EnglishProofs.OutputIsInert | scripts/eval/asr_scoring.py:281-296 | every token put out neither starts a number nor is an ordinal |
| EnglishProofs.Idempotent | scripts/eval/asr_scoring.py:272-353 | parsing twice is parsing once, on every token list |
| EnglishTables.EnglishIsWf | scripts/eval/asr_scoring.py:89-107 | the English tables have what the theorems ask of a lexicon |
| EnglishTables.EveryNumberIsSpoken | scripts/eval/asr_scoring.py:89-107 | every n below a million has words in the tables, and they parse back to str(n) |
| EnglishTails.HundredsInTens | scripts/eval/asr_scoring.py:318-331 | "twelve hundred and five": for every h from 1 to 99 and t below 100, with "and" at any allowed place, between plain tokens or at an end, the words become the one token str(100h+t) |
| EnglishTails.Multiplied | scripts/eval/asr_scoring.py:318-324 | behind any spoken n a further "hundred" multiplies what it has below a thousand by a hundred, and a "thousand" that by a thousand, or counts one thousand when there is nothing |
| EnglishTails.NumberAndTail | scripts/eval/asr_scoring.py:299-352 | for any tail behind any spoken number: unless the first token follows the number, the output is the numeral, or that of a year's two halves, and then what the rest gives alone |
| EnglishTails.NextAfterNumber | scripts/eval/asr_scoring.py:299-352 | the number uses up some of the tail exactly when the first token follows it, or two halves make a year |
| EnglishTails.ZeroFirst | scripts/eval/asr_scoring.py:301-308 | a "zero" said before a number leaves the number's numeral alone |
| EnglishTails.InertFirst | scripts/eval/asr_scoring.py:281-296 | a token that starts no number and is no ordinal, "hundred" and "thousand" among them, is copied, and what follows is parsed as it would be alone |
| GermanParser.ParseGerman | scripts/eval/asr_scoring.py:250-266 | the German branch's loop computes `DeNumbers` |
| GermanParser.ParseToken | scripts/eval/asr_scoring.py:240-245 | articles and numerals are never number words; any other token is read as a compound |
| GermanParser.ParseCompound | scripts/eval/asr_scoring.py:177-237 | irregular ordinals, the ending and the matching loop together compute `Compound` |
| GermanParser.MatchWord | scripts/eval/asr_scoring.py:190-232 | the loop over a word terminates and computes `Scan` |
| GermanParser.MatchTurn | scripts/eval/asr_scoring.py:193-232 | one turn: tausend, hundert, und, then the morphemes; it always consumes something within the word |
| GermanParser.MatchMorph | scripts/eval/asr_scoring.py:205-230 | the first morpheme in table order, with the ten after "und" when one follows |
| GermanParser.FindMorph | scripts/eval/asr_scoring.py:205-219 | the search finds the first entry in table order that begins the rest |
| GermanMorphs.FirstByLetter | scripts/eval/asr_scoring.py:109-117 | only the entries with the word's first letter matter to the ordered search |
| GermanScan.ScanSpell | scripts/eval/asr_scoring.py:190-232 | the greedy matching loop reads the spelling of every n below a million back, whatever the choices zwo/zwei, -ss-/-ß-, und after hundert and tausend, ein before them |
| GermanScan.ScanPrefix | scripts/eval/asr_scoring.py:194-204 | thousands and hundreds leave exactly their value before the last two digits are read |
| GermanScan.ScanUnitTens | scripts/eval/asr_scoring.py:205-226 | a unit, "und" and a ten add up although "und" also stands alone |
| GermanProofs.CompoundOfSpell | scripts/eval/asr_scoring.py:177-237 | the ordinal ending is never cut from a cardinal: every spelled n below a million is read as n |
| GermanProofs.ParseOfSpell | scripts/eval/asr_scoring.py:240-245 | as a token too: no spelled number is an article or a numeral |
| GermanProofs.RoundTrip | scripts/eval/asr_scoring.py:248-266 | in any token list, the spelled n becomes str(n) with both sides read as they would be alone exactly when the scan comes to it and it begins no decimal |
| GermanProofs.DecimalInContext | scripts/eval/asr_scoring.py:254-263 | in any token list, two number words around "komma" become A.B with both sides read as they would be alone exactly when the scan comes to them |
| GermanProofs.SplitsIffLands | scripts/eval/asr_scoring.py:250-266 | at any cut of any token list the two parts read as they would alone exactly when no decimal the scan takes lies across |
| GermanProofs.CutsThatLand | scripts/eval/asr_scoring.py:254-263 | the scan stops after a number, "komma", a number and "komma", and between a number and a "komma" that no number follows |
| GermanProofs.TwoDecimals | scripts/eval/asr_scoring.py:254-263 | "zwei komma drei komma fünf komma sechs" becomes 2.3, komma, 5.6, before any tokens |
| GermanProofs.NumberBeforeKomma | scripts/eval/asr_scoring.py:254-265 | "zwei komma dann" becomes 2, komma, dann |
| GermanProofs.OrdinalIsRead | scripts/eval/asr_scoring.py:181-245 | the token that spells the ordinal of n, with any ending and any choices of spelling, is read as n, except that it is not read at all when n mod 100 is 1, 3, 6, 7 or 8 and n is not 1, 3, 7 or 8 itself |
| GermanProofs.SechsteIsNotRead | scripts/eval/asr_scoring.py:119 | "sechste" is not read as a number |
| GermanProofs.DigitIsNotParsed | scripts/eval/asr_scoring.py:243-244 | no token that starts with a digit, "3.5" included, is read as a number word |
| GermanWords.ArticleStays | scripts/eval/asr_scoring.py:241-242 | ein, eine, einen, einem, einer and eines stay in the output and cut the stream: parse(x+[a]+y) = parse(x)+[a]+parse(y) for any x and y |
| GermanWords.UnreadCuts | scripts/eval/asr_scoring.py:250-264 | so does any token that is read as no number and is not "komma" |
| GermanWords.EinIsNoOrdinal | scripts/eval/asr_scoring.py:235-236 | einte, einste, einsste and their other endings are not read |
| GermanWords.IrregularStemsAreRead | scripts/eval/asr_scoring.py:182-186 | erst, dritt, siebt and acht are read as 1, 3, 7 and 8 |
| GermanWords.HundredsInTens | scripts/eval/asr_scoring.py:194-232 | "zwölfhundertfünf": for every h from 1 to 99 and t below 100 the token is read as 100h+t |
| GermanWords.WhatIsRead | scripts/eval/asr_scoring.py:177-237 | nothing else is read: every token with a value is an irregular ordinal, or table pieces with an ordinal ending or none, and its value is what the pieces make |
| GermanProofs.Idempotent | scripts/eval/asr_scoring.py:248-266 | parsing twice is parsing once, on every token list |
| Ukrainian.ParseUkrainian | scripts/eval/asr_scoring.py:366-403 | the loops terminate on every token list and compute the function `UkNumbers` the theorems are about |
| Ukrainian.ReadNumber | scripts/eval/asr_scoring.py:379-400 | the inner loop takes at least one token and stops where the specification's scan stops, with the same total |
| UkrainianProofs.RoundTrip | scripts/eval/asr_scoring.py:366-403 | every n below a million, in any inflected forms, the last word possibly an ordinal, between plain tokens or at an end, becomes the one token str(n), and the surroundings parse as they would alone |
| UkrainianProofs.ParseOfSpoken | scripts/eval/asr_scoring.py:379-402 | the words of n alone parse to the one token str(n) |
| UkrainianProofs.LastPlaceDecides | scripts/eval/asr_scoring.py:391-397 | under an invariant the scan keeps, the comparison of places alone decides whether a word joins: the unit test beside it never decides |
| UkrainianProofs.PlainCuts | scripts/eval/asr_scoring.py:366-403 | parse(x+[p]+y) = parse(x)+[p]+parse(y) for a plain token p, any x and y |
| UkrainianProofs.Idempotent | scripts/eval/asr_scoring.py:366-403 | parsing twice is parsing once, on every token list |
| UkrainianTables.UkrainianIsWf | scripts/eval/asr_scoring.py:122-174 | the tables have what the theorems ask of them |
| UkrainianTables.EveryNumberIsSpoken | scripts/eval/asr_scoring.py:122-174 | every n below a million has words in the tables, and they parse back to str(n) |
| UkrainianTails.OrdinalEnds | scripts/eval/asr_scoring.py:398-399 | a spoken number that ends in an ordinal is one numeral, and any tail behind it parses as it would alone |
| UkrainianTails.ValueAfterNumber | scripts/eval/asr_scoring.py:388-397 | behind a spoken n without an ordinal a further value joins exactly when the digits of n it would fill are still empty; otherwise it starts a number of its own |
| UkrainianTails.ThousandAfterNumber | scripts/eval/asr_scoring.py:381-385 | a form of "thousand" behind a spoken n multiplies what n has below a thousand, or counts one |
| UkrainianTails.ThousandAlone | scripts/eval/asr_scoring.py:370-373 | a form of "thousand" that starts a number stays a word |
| UkrainianTails.ValueIsRead | scripts/eval/asr_scoring.py:356-363 | a token is read with a value exactly when it is a cardinal of that value, or else the first stem it is an ordinal form of has it |
| UkrainianTails.ValuelessStays | scripts/eval/asr_scoring.py:374-378 | a token with no value stays, and cuts the stream unless it is a form of "thousand" |
| Decimal.IntOfStr | scripts/eval/asr_scoring.py:346-347 | the numeral of n is read back as n |
| Decimal.NoLeadingZero | scripts/eval/asr_scoring.py:351 | a numeral has no zero in front, but that of 0 |
| EditDistance.TwoRows | scripts/eval/coverage_eval.py:60-67 | the two rows compute the distance of the whole sequences |
| EditDistance.NextRow | scripts/eval/coverage_eval.py:62-66 | the inner loop grows the next row of distances from the one before |
| EditDistance.LeastCost | scripts/eval/coverage_eval.py:60-67 | a script of inserts, deletes and substitutions of that cost turns a into b, and none is cheaper |
| EditDistance.BestScript | scripts/eval/coverage_eval.py:65 | a script of exactly that cost, for every pair of prefixes |
| EditDistance.NoScriptIsCheaper | scripts/eval/coverage_eval.py:65 | every script between two prefixes costs at least that |
| EditDistance.ZeroIffEqual | scripts/eval/coverage_eval.py:60-67 | the distance is zero exactly for equal sequences |
| EditDistance.Symmetric | scripts/eval/coverage_eval.py:60-67 | the distance is symmetric |
| EditDistance.Compose | scripts/eval/coverage_eval.py:60-67 | two scripts in a row are one that costs no more than both |
| EditDistance.Triangle | scripts/eval/coverage_eval.py:60-67 | the triangle inequality |
| Spans.MergedSpan | scripts/eval/notes_scoring.py:273-286 | for any list, unsorted, overlapping, touching or reversed, the result is the number of milliseconds t with start <= t < end for some range |
| Spans.CoveredOfPermutation | scripts/eval/notes_scoring.py:273-286 | the order of the ranges does not matter |
| Spans.CoveredIsMonotone | scripts/eval/notes_scoring.py:273-286 | more ranges never cover less |
| Spans.CoveredIsSubadditive | scripts/eval/notes_scoring.py:273-286 | two lists together cover at most the sum |
| Spans.SortSorts | scripts/eval/coverage_eval.py:77 | sorting orders the spans and keeps every one of them |
| Spans.MergeSpeech | scripts/eval/coverage_eval.py:77-84 | the merged spans have a strict gap between neighbours and cover exactly the same milliseconds; their summed lengths are the covered time exactly when every reversed input span is reached by one that sorts before it |
| Spans.ReversedSpans | scripts/eval/coverage_eval.py:77-84 | a reversed span for which the sum is wrong, and one that does no harm |
| Spans.SumIsMeasure | scripts/eval/coverage_eval.py:77-84 | the summed lengths of spans with gaps between them are never more than the covered time, and equal to it exactly when none is reversed |
| Spans.OverlapCounts | scripts/eval/asr_scoring.py:434-435 | the formula is the number of shared milliseconds, for spans in any position |
| Spans.OverlapSumIsMeasure | scripts/eval/asr_scoring.py:727-730 | the sum of overlaps bounds the covered time from above and equals it exactly when no two markers share a millisecond of the region |
| Spans.NonspeechMarked | scripts/eval/asr_scoring.py:721-732 | the regions counted are those of 5 s or more; the marked ones are those whose overlap sum is half their length, among them every half-covered one, and no other when the markers are disjoint there |
| Spans.LongAreLong | scripts/eval/asr_scoring.py:718-723 | the regions looked at are those of five seconds or more, each as often as it is listed, and no other |
| Spans.OverlappingMarkersOvercount | scripts/eval/asr_scoring.py:727-732 | a region marked although only a quarter of it is covered |
| TelemetryProofs.RunKeeps | clients/Shared/TelemetryReporter.swift:94-159 | the whole invariant after every run: any calls, timers and completions in any order |
| TelemetryProofs.StepKeeps | clients/Shared/TelemetryReporter.swift:94-159 | every step keeps the invariant |
| TelemetryProofs.AckedOnceInOrder | clients/Shared/TelemetryReporter.swift:133-159 | at most one send is outstanding; no id is acknowledged twice; acknowledgements are a subsequence of enqueue order, although the cap may drop events that are being sent; nothing acknowledged is still queued |
| TelemetryProofs.NoEventStranded | clients/Shared/TelemetryReporter.swift:94-159 | from the first report or attach on, a non-empty queue has a flush task asleep or a send under way |
| TelemetryBounds.LoadedQueueSleeps | clients/Shared/TelemetryReporter.swift:58-159 | in every run, a non-empty queue has no flush coming and no send under way exactly as long as nothing was reported, attached or flushed |
| TelemetryProofs.EventsConserved | clients/Shared/TelemetryReporter.swift:93-159 | each key is enqueued at most once a process life; every enqueued event is queued, acknowledged, expired or dropped by the cap; the back-off after k failures in a row is min(2^(k+1), 300); what is queued is on disk |
| TelemetryBounds.ReportCaps | clients/Shared/TelemetryReporter.swift:94-102 | a report leaves at most 500 events queued exactly when its key is new or there were no more before |
| TelemetryBounds.AttachAdds | clients/Shared/TelemetryReporter.swift:112-122 | attaching adds exactly one event for each distinct key of the waiting events that is new |
| TelemetryBounds.AttachCaps | clients/Shared/TelemetryReporter.swift:112-122 | so it leaves at most 500 exactly when there is room for all of them |
| TelemetryBounds.RunBeyondTheCap | clients/Shared/TelemetryReporter.swift:94-122 | a run from an empty queue that ends with 501 events queued |
| TelemetryProofs.RetryWaits | clients/Shared/TelemetryReporter.swift:154-158 | a failed send schedules its retry after the doubled back-off, 4 s the first time, unless a flush is coming already |
| TelemetryProofs.KeyIsInjective | clients/Shared/TelemetryReporter.swift:95-97 | the deduplication key stands for one recording and one event name, whatever the recording's id |
| TelemetryProofs.RestOfBatch | clients/Shared/TelemetryReporter.swift:141-150 | removing what was sent leaves exactly the events behind the batch |
| TelemetrySteps.FlushSendsTheYoung | clients/Shared/TelemetryReporter.swift:133-144 | a flush that no send blocks leaves exactly the queued events that are at most 24 h old, in order, and sends the first min(100, n) of them, nothing exactly when n is 0 |
| TelemetrySteps.FlushIsBlocked | clients/Shared/TelemetryReporter.swift:134-135 | during a send a flush changes nothing but that none is coming |
| TelemetrySteps.OnlyTheOldExpire | clients/Shared/TelemetryReporter.swift:138-139 | in every run an event has expired exactly when a flush or fired timer that no send blocked found it queued and more than 24 h old |
| TelemetrySteps.ReportQueues | clients/Shared/TelemetryReporter.swift:94-103 | a new event comes last in the queue, beyond 500 the first ones are dropped, the queue is saved, and a flush comes in a second unless one is coming |
| TelemetrySteps.ReportedBefore | clients/Shared/TelemetryReporter.swift:95-97 | an event reported before changes nothing |
| TelemetrySteps.ReportBeforeHolds | clients/Shared/TelemetryReporter.swift:107-110 | an event held for a capture comes last among those held for it, and those held for others stay |
| TelemetrySteps.AttachQueues | clients/Shared/TelemetryReporter.swift:113-124 | attaching queues the held events whose keys are new, with the recording, in order and each key once, forgets what was held, and a flush comes at once |
| TelemetrySteps.SentIsRemoved | clients/Shared/TelemetryReporter.swift:149-153 | after a send exactly the queued events with other ids are left, and the next flush comes at once if there are any |
| TelemetrySteps.FailedIsKept | clients/Shared/TelemetryReporter.swift:154-158 | after a failed send the queue is as it was, and the wait is doubled up to 300 s |
| TelemetryReporter.Reporter.constructor | clients/Shared/TelemetryReporter.swift:58-66 | the fields start as the model's initial state |
| TelemetryReporter.Reporter.Report | clients/Shared/TelemetryReporter.swift:94-102 | one step of the model; a flush already coming keeps its time, else one comes in 1 s |
| TelemetryReporter.Reporter.ReportBeforeRecording | clients/Shared/TelemetryReporter.swift:106-109 | one step of the model |
| TelemetryReporter.Reporter.AttachRecording | clients/Shared/TelemetryReporter.swift:112-122 | the loop over the waiting events is one step of the model |
| TelemetryReporter.Reporter.ScheduleFlush | clients/Shared/TelemetryReporter.swift:124-130 | a flush that is coming keeps its delay |
| TelemetryReporter.Reporter.FlushNow | clients/Shared/TelemetryReporter.swift:133-148 | up to the await: one step, and a batch is handed over exactly when a send begins |
| TelemetryReporter.Reporter.Sent | clients/Shared/TelemetryReporter.swift:149-153 | after the await, on success: one step; the next flush comes at once if anything is queued |
| TelemetryReporter.Reporter.Failed | clients/Shared/TelemetryReporter.swift:154-158 | after the await, on failure: one step; the retry comes after the new back-off |
| TelemetryReporter.Reporter.Keep | clients/Shared/TelemetryReporter.swift:139-150 | what is left in the queue, in order |
| RewrapProofs.AlwaysInv | scripts/kms/rewrap-tenant-keks.py:86-166 | the whole invariant after every interleaving of any number of runs, with crashes anywhere and with every call allowed to fail, acquiring a held row and ending a transaction included |
| RewrapProofs.StepKeeps | scripts/kms/rewrap-tenant-keks.py:86-166 | every step keeps the invariant |
| RewrapProofs.KeksSurvive | scripts/kms/rewrap-tenant-keks.py:117-145 | at every point every stored KEK unwraps to its original plaintext, whatever `wrap` answers |
| RewrapProofs.RewrittenAndAuditedOnce | scripts/kms/rewrap-tenant-keks.py:113-157 | each row is rewritten at most once, and audited at most as often as it was rewritten |
| RewrapProofs.ExitZeroMeansMigrated | scripts/kms/rewrap-tenant-keks.py:164-166 | when a run that was not dry exits 0, every row of its snapshot is at the target master |
| RewrapProofs.TotalsCountLateFailuresTwice | scripts/kms/rewrap-tenant-keks.py:113-166 | when a run has finished, migrated, skipped and failed add up to the rows of its snapshot and one more for each audit event it could not write and each raced row whose transaction or connection it could not end; each row is counted once exactly when there were none |
| RewrapProofs.LateFailuresAreCounted | scripts/kms/rewrap-tenant-keks.py:119-163 | the two numbers are those of the events in the interleaving |
| RewrapProofs.OutcomesAreCounted | scripts/kms/rewrap-tenant-keks.py:90-166 | in every interleaving each of a run's three counters is the number of its rows that went that way: known or found to be at the target, reported as moved or passed by a dry check, failed at any call |
| RewrapProofs.WritesAreCounted | scripts/kms/rewrap-tenant-keks.py:139-161 | in every interleaving the rewrites of a tenant are the commits that were carried out, and its audit events are those that were recorded |
| RewrapProofs.OnlyWritesChangeRows | scripts/kms/rewrap-tenant-keks.py:139-145 | no other step changes a row, and a commit puts the verified KEK under the target's id |
| RewrapProofs.DryRunWritesNothing | scripts/kms/rewrap-tenant-keks.py:97-111 | no step of a dry run changes the table or the audit log |
| RewrapProofs.CommitKeeps | scripts/kms/rewrap-tenant-keks.py:138-146 | a commit keeps the invariant although it may be done, undone, or done without the run learning of it |
| RewrapProofs.TargetIsNotFile | scripts/kms/rewrap-tenant-keks.py:79 | the target's id is never the file master's |
| RewrapRun.MoveIsSteps | scripts/kms/rewrap-tenant-keks.py:113-163 | whatever the outside answers, from acquiring the row to ending its transaction, a row's turn ends in a state that steps of the protocol lead to |
| RewrapRun.OneRowCountedTwice | scripts/kms/rewrap-tenant-keks.py:146-166 | a run over one row that is moved as it should be and counted as migrated and as failed |
| RewrapRun.OneRowSkippedAndFailed | scripts/kms/rewrap-tenant-keks.py:119-163 | two runs over one row, the second of which counts it as skipped and as failed although nothing is left to do and no audit event was lost |
| RewrapRun.ReachedIsSafe | scripts/kms/rewrap-tenant-keks.py:86-166 | every state steps of the protocol lead to satisfies the whole invariant |
| RewrapRun.Script.MoveRow | scripts/kms/rewrap-tenant-keks.py:113-163 | the table, the audit log and the counters after the row's turn, for every answer of the outside |
| RewrapRun.Script.WriteRow | scripts/kms/rewrap-tenant-keks.py:138-157 | the same from the update on |
| RewrapRun.Script.OneRow | scripts/kms/rewrap-tenant-keks.py:91-163 | one row of the snapshot takes the fields from one protocol state to another |
| RewrapRun.Script.Run | scripts/kms/rewrap-tenant-keks.py:86-166 | the whole loop ends in a protocol state with this exit code and these counters, so all of the invariant holds of it |
| Migrations.Runner.ApplyOne | scripts/db/migrate.py:114-139 | a version not recorded is run unless skipped, and recorded; a recorded one changes nothing and is drift exactly when its checksum differs |
| Migrations.Runner.Up | scripts/db/migrate.py:158-170 | alone, `up` applies exactly the pending migrations in order and never meets drift |
| Migrations.Runner.RollbackOne | scripts/db/migrate.py:142-155 | the rollback runs unless the version was skipped, and the version is forgotten |
| Migrations.Runner.Down | scripts/db/migrate.py:173-193 | the highest recorded version is rolled back, or nothing changes when its file is gone or nothing is recorded |
| Migrations.Runner.Latest | scripts/db/migrate.py:176-180 | the highest recorded version |
| MigrationProofs.DownsUndoUp | scripts/db/migrate.py:142-193 | `up`, then `down` as often as it recorded: table and schema are back, and the rollbacks ran in reverse order, when rollbacks invert and new versions lie above the recorded ones |
| MigrationProofs.DownsAfterUp | scripts/db/migrate.py:142-193 | those `down`s always lead to a database, and it is the one there was, with the executed list they ran |
| MigrationProofs.RolledBackReverses | scripts/db/migrate.py:173-193 | the rollbacks' list is the executed list backwards |
| MigrationProofs.LastIsLatest | scripts/db/migrate.py:176 | after `up` the last migration applied is the one `down` picks |
| MigrationProofs.DriftIsNotSeen | scripts/db/migrate.py:162-163 | which files are pending does not depend on the recorded checksums |
| MigrationProofs.DriftGoesUnnoticed | scripts/db/migrate.py:158-170 | among any files, with a recorded one edited: `up` executes every pending one all the same, ends with every version recorded, and keeps the edited file's old checksum |
| MigrationProofs.SchemaIsReplayed | scripts/db/migrate.py:114-155 | the schema is what the executed files, forward and back, make of the first one |
| MigrationProofs.RollbackIs | scripts/db/migrate.py:142-155 | a rollback runs exactly when the version is recorded and was not skipped, and forgets no other version |
| MigrationRuns.AlwaysBalanced | scripts/db/migrate.py:114-193 | in every interleaving with crashes, lost transactions and commits the run does not learn of, executed ups minus executed downs of a version is 1 if it is recorded and not skipped, else 0 |
| MigrationRuns.DriftNeedsARace | scripts/db/migrate.py:119-127 | in every interleaving a transaction that is not lost stops its run by drift exactly when an earlier action of another run, taken while this one was at work, recorded the next version with the checksum that is there now and is not the file's |
| MigrationRuns.DriftBeforeAnyChange | scripts/db/migrate.py:117-139 | a run stopped by drift had changed nothing exactly when it had recorded none of the files it passed; each of those it had not recorded another run had, meanwhile and with the same checksum |
| MigrationRuns.DriftAfterAChange | scripts/db/migrate.py:117-170 | two runs after which one is stopped by drift and has applied a file |
| MigrationRuns.UpsRecordInOrder | scripts/db/migrate.py:158-170 | with only `up` runs over one list, each version is recorded only after all lower ones |
| Parakeet.WordsFromTokens | deploy/asr-server/parakeet_format.py:31-64 | the accumulator loop computes `Words`, the function the word lemmas are about |
| Parakeet.SegmentsFromWords | deploy/asr-server/parakeet_format.py:67-93 | the accumulator loop computes the segments of `Groups`, the function the segment lemmas are about |
| Parakeet.CloseOne | deploy/asr-server/parakeet_format.py:72-82 | closing appends the segment of the open words |
| ParakeetProofs.WordsInTime | deploy/asr-server/parakeet_format.py:42-63 | for token starts that do not fall, every word has start <= end <= start of each later word, after clipping and rounding |
| ParakeetProofs.WordsKeepInk | deploy/asr-server/parakeet_format.py:57-64 | the words hold the tokens' characters but for white space, in order, nothing lost or doubled |
| ParakeetWords.WordsAreRuns | deploy/asr-server/parakeet_format.py:39-64 | the words are the runs of tokens cut before every later token that starts with a space or "▁": each run that is not blank gives one word with the run's text stripped, the rounded start of its first token, the rounded end (the next run's start but at most 0.4 s after its last token, 0.08 s after it for the last run, within the duration, not before the start) and the least probability |
| ParakeetWords.CutsAreUnique | deploy/asr-server/parakeet_format.py:60-61 | there is only one way to cut the tokens so |
| ParakeetWords.RoundIsNearest | deploy/asr-server/parakeet_format.py:54 | the rounded time is a whole number of milliseconds, the nearest one, the even one of two |
| ParakeetWords.StripIs | deploy/asr-server/parakeet_format.py:45 | the stripped text is the text without the white space at both ends; it is empty exactly when the text is blank |
| ParakeetProofs.LowestIsLeast | deploy/asr-server/parakeet_format.py:51-52 | a word's probability is one of its tokens' and below all of them; it has none exactly when they have none |
| ParakeetProofs.Round3IsMonotone | deploy/asr-server/parakeet_format.py:54 | rounding to milliseconds keeps order |
| ParakeetProofs.GroupsPartition | deploy/asr-server/parakeet_format.py:84-92 | the segments partition the words, cut exactly at sentence ends, pauses of a second and the 30 s limit |
| ParakeetProofs.PartitionIsUnique | deploy/asr-server/parakeet_format.py:84-92 | there is no other such partition |
| ParakeetProofs.FirstCut | deploy/asr-server/parakeet_format.py:84-92 | a segment runs to the first reason to cut, and no further |
| ParakeetProofs.LongSegmentsAreBounded | deploy/asr-server/parakeet_format.py:85-87 | a segment of several words spans at most 30 s |
| ParakeetProofs.SegmentTextsRejoin | deploy/asr-server/parakeet_format.py:96-102 | the segments' texts together are a space and the reply's text |
| ParakeetProofs.SegmentsCarryTimes | deploy/asr-server/parakeet_format.py:74-81 | segments are numbered from 0 and carry their first word's start and last word's end |
| NoteMergeProofs.Idempotent | clients/Shared/PendingMeetingNotes.swift:131-144 | merge(merge(r, l), l) = merge(r, l), for all texts |
| NoteMergeProofs.RemoteSurvives | clients/Shared/PendingMeetingNotes.swift:142-143 | the merge begins with the remote text up to its trailing white space |
| NoteMergeProofs.AppendsFreshLines | clients/Shared/PendingMeetingNotes.swift:139-143 | what is added under the divider is exactly the local lines whose keys the remote lacks, as typed and in order |
| NoteMergeProofs.MergeKeepsKeys | clients/Shared/PendingMeetingNotes.swift:133-144 | no key of either text is lost, and none is new but the divider's empty one |
| NoteMergeProofs.MergeJoinsKeys | clients/Shared/PendingMeetingNotes.swift:133-144 | the non-empty keys of a merge are those of both texts |
| NoteMergeProofs.MergeAllJoinsKeys | clients/Shared/PendingMeetingNotes.swift:133-144 | after merging any number of notes the non-empty keys are those of all of them and of the remote |
| NoteMergeProofs.OrderDoesNotMatter | clients/Shared/PendingMeetingNotes.swift:133-144 | any number of devices' notes merged in any order, and however often, give the same non-empty keys |
| NoteMergeProofs.KeyIgnoresTrailingSpace | clients/Shared/PendingMeetingNotes.swift:153-163 | white space at a line's end does not change its key |
| NoteMergeProofs.LinesOfJoin | clients/Shared/PendingMeetingNotes.swift:143-150 | lines joined by newlines split back into themselves |
| NoteMergeLines.KeyIsWhatIsSaid | clients/Shared/PendingMeetingNotes.swift:153-163 | for every line and every non-empty c: c is the line's key exactly when the line is bullets, at most one list number and more bullets, then c in any case with any white space for its spaces, then marks with white space around them, with nothing more to cut off at either end |
| NoteMergeLines.CoreSaysItself | clients/Shared/PendingMeetingNotes.swift:153-163 | a text in small letters and single spaces that starts with no bullet or list number and ends in no mark is its own key |
| NoteMergeLines.MergeIs | clients/Shared/PendingMeetingNotes.swift:131-144 | the text of the merge, told without keys: the remote text when the local one is blank or says nothing new, the local one when the remote is blank, and else the remote up to its trailing white space, an empty line, "---", and the local lines that say what no remote line says, as typed and in order |
| NoteMergeLines.TypedIsKept | clients/Shared/PendingMeetingNotes.swift:139-143 | every local line is a line of the merge, unless a remote line says the same |
| NoteMergeLines.HeldIsNotRepeated | clients/Shared/PendingMeetingNotes.swift:139-143 | a line that says what a remote line says is not appended |
| NoteMergeLines.LinesAreCut | clients/Shared/PendingMeetingNotes.swift:146-150 | a text is cut into lines at its newlines, and blank lines are dropped |
| NoteMergeLines.JoinOfTwo | clients/Shared/PendingMeetingNotes.swift:143 | joined lines have one newline between any two |

## Left out

- `_percentile`, the rates and the other counters of the evaluation: single formulas over a list.
- Tokenising: regular expressions, digit formats, aliases and fillers before the number parsers.
- English, Ukrainian: `str.isdigit` is true of more than ASCII digits; only those are modelled.
- German: `$` also matches before a newline at the end of a token; tokens hold no newline.
- `nonspeech_content_lines` in `nonspeech_marked`, and reading RTTM files.
- TelemetryReporter: clocks, UUIDs, the JSON body and an event's attributes; an event keeps an id, a recording, a name and a time. Saving is taken to succeed.
- Rewrap: start-up checks of both masters, Vault, Postgres and printing; a row's deletion during a run. SQL isolation is the row lock.
- Rewrap.Unwrap: a dry run's length check of the plaintext, which only prints.
- RewrapRun.Script.Run: one run with nobody else at work; several runs are the state machine's.
- Migrations: `status`, `_strip_outer_transaction`, the file system, and failing transactions of a run on its own (`Migrations.Runner`; the concurrent runs have them).
- Parakeet: fields of the reply other than text, segments and words.
- NoteMerge: Unicode white space, lower-casing and bullets beyond those listed; saving, loading and retargeting notes.
