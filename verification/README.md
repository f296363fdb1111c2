# ModernFlux: a verified model

ModernFlux limits the rate of calls of a cluster. Every client process counts its calls in
10-second windows and reports them to a quota server. The server adds the reports up, divides an
activity's total quota among the processes by their share of recent traffic, and the clients
admit or refuse each call by the quota they were given. This project models that protocol and the
four other parts of the repository with intricate state: the JSON reader and writers, the
streaming MD5, the failure window with the configuration reload, and the page allocator with the
key/value text. Everything is proved for all inputs, all runs or all reachable states.

## How the model is laid out

Code that changes things in place is modelled in place: classes with fields and arrays, and methods
whose contracts tie the new state to a function of the old one. What the code is for is then proved
about those functions as lemmas over whole runs.

| files | part |
|---|---|
| `Optional`, `FiniteSums`, `Arith` | optional values; sums over finite sets; the facts about multiplication and division that are shared |
| `TimeKeys`, `ReportMerge`, `Conservation`, `SetWindows`, `Heartbeat`, `Apportion` | the server's merge, its heartbeat and its division of quota, as functions and theorems about runs |
| `ServerState`, `QueryQuota`, `ServerRuns`, `ServerAnswers` | the server's objects and one request in place; what holds after any requests; the reply as a function of the reports received |
| `LocalQuota`, `ClientState`, `ClientQuota`, `ClientReports` | one client key: its checks, windows and ring of replies, what passes in a second, and what it reports |
| `Admission`, `QuotaProtocol`, `QuotaTotals` | many keys over a waiting network; many clients with the server |
| `JsonValue`, `JsonSyntax`, `JsonNumbers`, `JsonGrammar`, `JsonTokens` | values, the reader as functions, what numbers and strings stand for, and texts as tokens with white space between them |
| `JsonLoose`, `JsonParsing`, `JsonLeniencies` | exactly what the reader accepts, as a grammar; the texts of RFC 8259 among it; three texts that are no JSON |
| `JsonText`, `JsonWriting`, `JsonScalars`, `JsonFast`, `JsonStyled`, `JsonLayout`, `JsonReader`, `JsonRoundTrip` | what is printed and how it is laid out, both writers and the reader in place, and the round trips |
| `Md5Tables`, `Md5Schedule`, `Md5Rotation`, `Md5Bits`, `Md5Compress`, `Md5`, `Md5Vector` | the machine's words in plain arithmetic, the 64 unrolled steps against RFC 1321, the buffered hash against the one-shot one, and the standard's first test |
| `QosWindow`, `TwoSlotReload` | the 30-slot ring against a log of events; how long handed-out configuration lasts |
| `BatchAllocator`, `KeyValueText` | the free list over pages; splitting, building and reading key/value text |

Conventions of the model. Counts and times are unbounded natural numbers unless a width matters:
the product in the apportionment, the words of MD5 and the sums of the failure window wrap at 32 bits
as in the code, and the scaled quota of another key is cut to 32 bits. The clock does not go back. A random draw is an input of the call it decides. A
network call is split where it waits: `ServiceQua.CheckQuota` ends there and `ServiceQua.Resume`
continues, and other calls may run in between. A call whose fallback would divide by a total quota of
zero (QuaServer/ServiceQua.cpp:481) has no result and is excluded by the precondition `WouldDivideByZero`; when that
happens is said exactly by `ClientQuota.ScalableIff`. Characters stand for bytes.

## Where the code does something unexpected

These are modelled as the code has them.

- The array reader of the JSON parser means to insist on a comma between items but tests for a token
  that is both a comma and a bracket. Any token but `]` or a comment separates, and the separating token is
  lost: `[1 2 3]` is read as `[1,3]` (`JsonLeniencies.NumberSeparates`). `JsonLoose.ItemsIff` says exactly
  which texts are accepted as items, and `JsonLoose.ParseIff` which as values; the conforming ones are those
  without comments in which every separator is a comma (`JsonParsing.StrictConforms`).
- In objects any token is swallowed where a comma belongs if a comment stands before it
  (`JsonLeniencies.CommentHidesToken`), and after an empty name the closing brace may follow a comma
  (`JsonLeniencies.CommaBeforeBrace`).
- Numbers may have leading zeros, and a minus sign alone is read as 0 (`JsonNumbers.WholeValue`).
- A string in which the first half of a surrogate pair is not followed by another `\u` escape is rejected, though
  section 7 of RFC 8259 allows it; any other string of section 7 is decoded (`JsonGrammar.DecodePieces`).
- A printed 32-bit integer outside -2147483640 < n < 4294967290 is read back as a double
  (`JsonText.IntegerExact`).
- The batch allocator keeps its slots inside a page only if the objects of one allocation divide the
  page (`BatchAllocator.InsideIffDivides`).
- The set-wide counter is tested before a call waits for the network and incremented after it, so a
  second can admit more than the set quota, by at most one call per key; with K keys of which at most s have a
  call waiting, the least bound is the quota plus the smaller of s and K (`Admission.BoundIffLeast`).
- The share of quota is the exact proportion only while the product fits 32 bits
  (`Apportion.QuotientExactIff`); it never exceeds the quota even when it wraps.
- The fallback to another key divides by that key's total quota without a test. It divides by zero exactly when
  that key had a quota, was answered less than 300 seconds ago and its last call passed a total quota of 0
  (`ClientQuota.ScalableIff`); three steps are enough (`ClientQuota.DivisionByZero`).
- The scaled quota of the other key is stored in a signed 32-bit integer. From 2147483648 on another number is used, and
  when that is negative there is no quota to fall back on (`LocalQuota.ReferExactIff`, `LocalQuota.ReferTurnsNegative`).
- At a clock behind the last reply's request every call passes, whatever the quota is
  (`ClientState.ServiceQua.CheckQuota`, `ClientQuota.PassesUpToLimit`).
- The even-division fallback passes one call less per second than the share it computes
  (`ClientQuota.PassesUpToLimit`).
- A failure check also counts the failures of thirty seconds ago while the current second is idle
  (`QosWindow.OwnSlot`).
- A key with an `=` sign, and a value with two or more or with one at an end, is not read back by the key/value
  reader, and neither is a pair with an `&` (`KeyValueText.PairReadsBack`, `KeyValueText.OnePairReadsBack`).
- Of the 88 bytes of the MD5 context only eight are cleared after use, the size of a pointer: two of the four
  words of the state (`Md5.Context.Final`).
- Comments that the code does not follow: the band of 20 percent above a quota (QuaServer/ServiceQua.cpp:589) is empty,
  the length in the MD5 padding goes in with its low word first (QuaServer/lib_md5.cpp:107-110), and the allocator that
  says it cannot free single objects (Lib/jsoncpp/json_batchallocator.h:11-19) has `release`. The model follows the code.
- A period key of 0, which only times in the first ten seconds of the epoch have, reads as an unused bucket: every
  report for it replaces the one before (`ServerAnswers.FirstPeriod`). Statements about the server's buckets are for
  keys above 0; those about its replies are for all.

## Model

| member | source | states |
|---|---|---|
| TimeKeys.GetTimeKey | QuaServer/ServiceQua.cpp:431-437 | the bucket of a second: it starts at most 10 seconds before, and its index is one of six |
| TimeKeys.SameSlotApart | QuaServer/ServiceQua.cpp:431-437 | two different periods at one ring position are at least a minute apart |
| ReportMerge.RunIsConserved | QuaServer/ServiceQua.cpp:1228-1277 | after every run of reports and lookups each bucket of an activity is the one its reports account for |
| Conservation.BucketTotals | QuaServer/ServiceQua.cpp:1018-1116 | for every run the total of each counter is the sum over the reporting processes of the latest report plus the last report of each epoch that a restart closed |
| Conservation.BucketEntries | QuaServer/ServiceQua.cpp:1228-1277 | the bucket's map holds the latest report of each process |
| Conservation.TotalsCoverTheMap | QuaServer/ServiceQua.cpp:1263-1277 | totals are never below the totals of the map, and the admitted total equals it exactly when nothing restarted |
| SetWindows.SetTotals | QuaServer/ServiceQua.cpp:1596-1705 | the windows of sets and processes, which skip old reports, account for the same totals as an activity's buckets after the same reports |
| ServerState.TimeItem.InitStrIntMap | QuaServer/ServiceQua.cpp:373-381 | a lookup gives the process's counters and inserts zero ones when it has none |
| ServerState.NormalAddAll | QuaServer/ServiceQua.cpp:1027-1067 | totals lose the old report and gain the new one, also when the old report is the object being written |
| ServerState.ReSetAddAll | QuaServer/ServiceQua.cpp:1069-1116 | totals gain the new report on top, and the process's counters become it |
| ServerState.StartPeriod | QuaServer/ServiceQua.cpp:1018-1025 | a newer period replaces the bucket by this one report |
| ServerState.Accumulate | QuaServer/ServiceQua.cpp:1265-1270 | in the running period a grown report replaces the last one and a fallen one is added to it |
| ServerState.MergeReport | QuaServer/ServiceQua.cpp:1228-1271 | merging in place, with the last report copied first, is the merge on values |
| ServerState.MergeSetReport | QuaServer/ServiceQua.cpp:1596-1625 | merging in place where the last report and the updated one are one object is the merge on values, with old reports skipped |
| Heartbeat.ValidExactlyAfterWarmup | QuaServer/ServiceQua.cpp:404-429 | over every run of calls, purges and wipes the answer is yes exactly when the chain of calls with gaps under 30 seconds began more than 120 seconds ago; purges of idle ids never change it |
| Heartbeat.RunTracks | QuaServer/ServiceQua.h:262-283 | after every run what is kept for an id is its last call and the start of its chain, or nothing when the id was idle too long for it to matter |
| Heartbeat.PurgeMeans | QuaServer/ServiceQua.h:262-283 | exactly which ids a purge removes: all of more than 500, and of more than 300 those idle for over 1800 seconds |
| Heartbeat.ChainHasStart | QuaServer/ServiceQua.cpp:404-429 | every chain of calls has a start |
| Heartbeat.ChainStartIsUnique | QuaServer/ServiceQua.cpp:404-429 | and only one |
| Apportion.RunIsSound | QuaServer/ServiceQua.cpp:1018-1116 | after every run, for each of the three counters, no bucket's total is below the sum of its entries, and no entry is negative |
| Apportion.ShareAtMostQuota | QuaServer/ServiceQua.cpp:1315-1359 | no process gets more than the whole quota, in any reachable state, even when the product wraps |
| Apportion.QuotientExactIff | QuaServer/ServiceQua.cpp:1346-1351 | the share is the proportional one exactly when the product fits 32 bits |
| Apportion.SharesAtMostQuota | QuaServer/ServiceQua.cpp:1315-1359 | processes counted in the same buckets together get at most the quota |
| Apportion.ShortfallBelowCount | QuaServer/ServiceQua.cpp:1315-1359 | when they are all the contributors, nothing restarted and the products fit, rounding loses less than one unit per process |
| QueryQuota.QData.MergeItem | QuaServer/ServiceQua.cpp:1228-1271 | one reported line changes one bucket of the ring and no other, though buckets are shared objects |
| QueryQuota.QData.UpdateSum | QuaServer/ServiceQua.cpp:1228-1305 | the lines of a report are merged in their order |
| QueryQuota.QData.CleanReportId | QuaServer/ServiceQua.h:262-283 | more than 500 ids of a host are wiped, and of more than 300 those idle for over 30 minutes |
| QueryQuota.QData.ValidID | QuaServer/ServiceQua.cpp:404-429 | the heartbeat in place answers and steps as the one on values |
| QueryQuota.QData.AddWorkerItem | QuaServer/ServiceQua.h:300-311 | a host's worker number never falls, and its time is renewed |
| QueryQuota.QData.SumHistory | QuaServer/ServiceQua.cpp:1315-1335 | walking the ring backwards from any position sums every eligible bucket once, and only adds zero entries |
| QueryQuota.Decide | QuaServer/ServiceQua.cpp:1337-1358 | quota needs two buckets and enough history, and nothing is divided by zero |
| QueryQuota.QData.GetQueryQuota | QuaServer/ServiceQua.cpp:1204-1390 | one request in place: the ring and the ids of all hosts become what `Serve` of the run theorems says and the reply is its `Answer` once the service is up long enough; worker map and time are updated for this host only |
| ServerRuns.ServerRingIsARun | QuaServer/ServiceQua.cpp:1228-1335 | after any requests the ring is that of a run with exactly the reports received, in order |
| ServerRuns.LookupsAreInvisible | QuaServer/ServiceQua.cpp:1315-1335 | the zero entries of lookups change nothing that conservation speaks of |
| ServerRuns.ServerConserves | QuaServer/ServiceQua.cpp:1228-1335 | conservation of every counter after any requests |
| ServerRuns.AnswerAtMostQuota | QuaServer/ServiceQua.cpp:1315-1390 | no reply after any requests carries more than the quota |
| ServerRuns.BeatsTrackIds | QuaServer/ServiceQua.cpp:1307-1364 | the ids kept for a host after any requests are those of a heartbeat run |
| ServerRuns.AdmissibleIffWarm | QuaServer/ServiceQua.cpp:404-429 | a request is let to the quota exactly when the unbroken chain of its process's requests began more than two minutes ago |
| ServerRuns.QuotaNeedsWarmup | QuaServer/ServiceQua.cpp:1313-1390 | so a reply has quota only then, and only from two complete buckets |
| ServerAnswers.AnswerIsReported | QuaServer/ServiceQua.cpp:1228-1390 | after any requests the reply is determined by the reports received: nothing before the chain is warm, and then the share of the quota that the reports for periods at least 20 seconds before the current one entitle the process to |
| ServerAnswers.AnswerIsProportion | QuaServer/ServiceQua.cpp:1337-1358 | with two such periods and more than ten admitted calls the reply is the quota times the process's latest reported calls over everybody's, rounded down, as long as the product fits 32 bits, and never more |
| ServerAnswers.AnswerPositiveIff | QuaServer/ServiceQua.cpp:1307-1390 | exactly when a process gets any quota |
| ServerAnswers.RoundFitsQuota | QuaServer/ServiceQua.cpp:1315-1390 | when processes with the same complete periods ask one after the other in one period, the replies are together at most the quota |
| ServerAnswers.RoundSpendsQuota | QuaServer/ServiceQua.cpp:1315-1390 | when they are everybody who reported, none restarted and the products fit, the replies spend the quota but for less than one unit each |
| ClientState.LocalData.GetAverQ | QuaServer/ServiceQua.h:432-447 | the loop computes the mean of the positive slots |
| ClientState.LocalData.QSetOverLoad | QuaServer/ServiceQua.h:455-488 | a call is refused for the set exactly at or above the process quota, or the average share when there is none |
| LocalQuota.ShareRefuses | QuaServer/ServiceQua.h:455-488 | without a process quota a call that sees n others is refused exactly when the set quota has a unit for each worker and n + 1 calls in each of them would exceed it |
| LocalQuota.SharesFitSet | QuaServer/ServiceQua.h:455-468 | the limits of all the workers together are at most the set quota, and short of it by less than one each |
| LocalQuota.OtherLimits | QuaServer/ServiceQua.h:455-488 | a process quota is the limit as it is, and an average computed before is kept while no workers are known |
| LocalQuota.CallRefusedForSet | QuaServer/ServiceQua.cpp:661-665 | the same of a whole call that passed the act check |
| ClientState.PercentTest | QuaServer/ServiceQua.h:472-479 | the truncated percentage reaches 100 exactly at the limit |
| ClientState.LocalData.ProcessByAver | QuaServer/ServiceQua.cpp:498-530 | the even-division fallback refuses from the share on |
| ClientState.LocalData.ProcessByRefer | QuaServer/ServiceQua.cpp:470-496 | the fallback to another key, which may be this one: that key's quota, scaled by the two total quotas and cut to a signed 32-bit integer, counts only while its data is positive and younger than 300 seconds, and calls above it are refused |
| LocalQuota.ReferExactIff | QuaServer/ServiceQua.cpp:473-482 | the fallback uses the scaled quota itself exactly when that is below 2147483648 |
| LocalQuota.ReferIsProportion | QuaServer/ServiceQua.cpp:476-482 | within that, what the fallback uses is the offered quota in the proportion of the two total quotas, rounded down |
| LocalQuota.NoOfferUsed | QuaServer/ServiceQua.cpp:476-479 | an offer that is empty, from the future or 300 seconds old is not used |
| LocalQuota.ReferTurnsNegative | QuaServer/ServiceQua.cpp:473-488 | a quota of 1000000, scaled from 1000 to the largest total quota, turns negative and is not used |
| LocalQuota.OwnOffer | QuaServer/ServiceQua.cpp:473-482 | a key that refers to itself is offered its own quota exactly when that is below 2147483648 |
| ClientState.LocalData.ActCheck | QuaServer/ServiceQua.cpp:607-660 | the act check in place: a new second starts at one call; a lost heartbeat clears the ring; small quotas use the fallbacks |
| ClientState.LocalData.UpdateCache | QuaServer/ServiceQua.cpp:667-696 | a call is counted once, in its window, as passed or refused |
| ClientReports.WindowsCountVerdicts | QuaServer/ServiceQua.cpp:667-696 | after any history of a key each window in use holds the numbers of the calls of its period that passed the act check, that did not, and that were refused for the set; the window of every judged call is in use for its period or a later one |
| ClientReports.ReportIsLines | QuaServer/ServiceQua.cpp:716-724 | the lines a client sends are those that the protocol delivers to the server, in order |
| ClientState.LocalData.MakeReport | QuaServer/ServiceQua.cpp:716-724 | a report holds every window ever used |
| ClientState.LocalData.Receive | QuaServer/ServiceQua.cpp:748-797 | what a reply changes, only for its own key and a positive quota |
| ClientState.ServiceQua.CheckQuota | QuaServer/ServiceQua.cpp:590-724 | a call up to its network wait is the beginning of a call of the interleaving model: its verdict, its count, its report and the lock it takes; a call at a clock behind the last reply passes, is counted for the set and changes nothing else |
| ClientState.ServiceQua.Resume | QuaServer/ServiceQua.cpp:742-813 | a call after its wait is the end of a call of the interleaving model: the reply applied to whatever the state is by then, and the lock released |
| ClientState.ServiceQua.Finish | QuaServer/ServiceQua.cpp:886-893 | an admitted call is counted for the set only at its very end |
| ClientQuota.PassesUpToLimit | QuaServer/ServiceQua.cpp:607-659 | of n calls in a second with fixed guidance exactly the first ones pass the act check, up to the limit of the guidance: the quota itself from 11 on, the other key's quota, one less than the even share, or all, as at a clock behind the last reply |
| ClientQuota.SecondPasses | QuaServer/ServiceQua.cpp:607-659 | after any history, how many of the calls of a new second pass, told from the replies alone: the mean of the recent quotas from 11 on while the last reply is at most 300 seconds old, otherwise the other key's quota, one less than the even share of the total quota among the workers last reported, or all |
| ClientQuota.AboveQuotaIff | QuaServer/ServiceQua.cpp:649-657 | the verdict "above the quota, admitted" is given for a mean quota of exactly 10, from the eleventh call of a second on |
| ClientQuota.ConfigIsLast | QuaServer/ServiceQua.cpp:770-792 | workers, set quota, set sum, process quota and own quota are the last positive values in the replies that carried a quota |
| ClientQuota.SendsIff | QuaServer/ServiceQua.cpp:699-703 | a call sends a report exactly when none is on its way and the last answered one was sent at least five seconds ago |
| ClientQuota.BehindTheClock | QuaServer/ServiceQua.cpp:607 | a call behind the last reply's request passes, is counted for the set and changes nothing else |
| ClientQuota.QuotaIsRecentMean | QuaServer/ServiceQua.cpp:757-768 | in every reachable state both enforced quotas are the floor mean of the last twelve positive replies since the last clear |
| ClientQuota.QuotaBetweenReplies | QuaServer/ServiceQua.cpp:757-768 | so they lie between the least and the greatest of those replies |
| ClientQuota.ScalableIff | QuaServer/ServiceQua.cpp:476-482 | after any history of a key, another key that falls back on it divides by zero exactly when it ever had a quota, its last reply is neither from the future nor 300 seconds old, and its last call not behind the clock passed a total quota of 0 |
| ClientQuota.DivisionByZero | QuaServer/ServiceQua.cpp:481 | a call, its reply with a quota and a call with a total quota of 0 are such a history |
| ClientQuota.ReferenceIsScalable | QuaServer/ServiceQua.cpp:481 | no call divides by zero while every call of the other key has a total quota |
| Admission.OverAdmissionAtMostKeys | QuaServer/ServiceQua.cpp:590-895 | whatever the interleaving of calls that wait, at most q plus the number of keys pass the set check in a second |
| Admission.NoOverAdmissionWithoutWaiting | QuaServer/ServiceQua.cpp:590-895 | at most q when no call starts while another waits |
| Admission.SetStaysTogether | QuaServer/ServiceQua.h:455-488 | processes that share a set quota among at least as many workers together admit at most the set quota and one call for each of their keys in a second |
| Admission.OverAdmissionIsReal | QuaServer/ServiceQua.cpp:662-664 | for every limit, every list of key names and every number of calls that may wait, a process that starts from nothing and gets the limit by a reply for every key reaches a state from which one second sees the limit and one more admission for each of those waiting calls |
| Admission.ReachedHasHistories | QuaServer/ServiceQua.cpp:590-893 | in every reachable process, whatever waits and overlaps, each key's data is what some history of that key alone leaves, so the theorems about histories hold there |
| Admission.BoundIffLeast | QuaServer/ServiceQua.cpp:590-895 | over all runs of a process with K keys from any state it can have reached since its start, with at most s waiting calls, a number bounds the admissions of every second exactly when it is at least q plus the smaller of s and K (0 without quota or keys) |
| Admission.CounterStaysInRange | QuaServer/ServiceQua.h:472-479 | the set-wide counter stays in the range where the percentage does not overflow |
| Admission.RunStaysCoherent | QuaServer/ServiceQua.cpp:701-703 | in every run at most one call of a key waits, and its lock says so |
| QuotaProtocol.StepKeepsSane | QuaServer/ServiceQua.cpp:667-724 | calls, reports, deliveries in order, losses and re-deliveries keep server and clients in agreement, for any number of calls whose counters fit 32 bits in each ten-second period |
| QuotaTotals.BucketSumsDeliveries | QuaServer/ServiceQua.cpp:1228-1277 | every bucket's admitted total is the sum over all processes of the last positive count for its period among the snapshots that were delivered |
| QuotaProtocol.CountedMeans | QuaServer/ServiceQua.cpp:678-696 | a process's counters of a period are the numbers of its calls there that passed the act check, that did not, and that were refused for the set |
| QuotaTotals.BucketAtMostPassed | QuaServer/ServiceQua.cpp:667-724 | so no bucket counts more than the number of calls of its period that passed the act check |
| QuotaTotals.RedeliveryChangesNothing | QuaServer/ServiceQua.cpp:1263-1277 | delivering a process's last report again changes no period and no total |
| QuotaTotals.EveryRun | QuaServer/ServiceQua.cpp:1228-1277 | in every run from the start: the totals, their bound, and that delivering any process's last report again changes nothing |
| JsonValue.PutKeepsSorted | Lib/jsoncpp/json_value.cpp:1022-1040 | setting a member keeps every name before the later ones in the order of `strcmp`, so none is there twice |
| JsonValue.PutLookup | Lib/jsoncpp/json_value.cpp:1022-1040 | a member set is the one found, and no other changes |
| JsonValue.LessIsPrecedes | Lib/jsoncpp/json_value.cpp:218-223 | the order of names is that of `strcmp`: the first difference decides, by the smaller character or the end of the shorter name |
| JsonValue.LessIsTotal | Lib/jsoncpp/json_value.cpp:218-223 | the order is total and strict |
| JsonNumbers.DecodesToSense | Lib/jsoncpp/json_reader.cpp:581-616 | the digit loop with its thresholds gives every number token what it stands for: the number its digits fold to between the two bounds, and a double otherwise |
| JsonNumbers.NumeralMeans | Lib/jsoncpp/json_reader.cpp:451-461 | every number by section 6 of RFC 8259 is one for the reader; without fraction and exponent it stands for its digits, and otherwise it is a double |
| JsonNumbers.UnsignedExact | Lib/jsoncpp/json_reader.cpp:581-616 | any digits, leading zeros included, are read as the number they stand for below the bound, and as a double from it on |
| JsonNumbers.NegativeExact | Lib/jsoncpp/json_reader.cpp:581-616 | the same after a minus sign, for the other bound |
| JsonNumbers.NeverWraps | Lib/jsoncpp/json_reader.cpp:594-608 | what is accepted as digits stays below ten times the threshold |
| JsonGrammar.DecodePieces | Lib/jsoncpp/json_reader.cpp:657-757 | a string of section 7 of RFC 8259 is decoded exactly when every first half of a surrogate pair is followed by another escape with digits, and then to the characters it stands for |
| JsonGrammar.DecodedIsSpelled | Lib/jsoncpp/json_reader.cpp:657-757 | and nothing else is decoded: whatever is, is spelled by those escapes and characters |
| JsonGrammar.SurrogateSum | Lib/jsoncpp/json_reader.cpp:722 | the two halves of a proper pair make the code point of UTF-16 |
| JsonGrammar.SpaceIsRfc | Lib/jsoncpp/json_reader.cpp:348-360 | white space is that of section 2 of RFC 8259 |
| JsonGrammar.EscapeIsRfc | Lib/jsoncpp/json_reader.cpp:671-683 | the escapes of one character are those of section 7 |
| JsonGrammar.HexUnitIff | Lib/jsoncpp/json_reader.cpp:734-757 | four characters stand for a number exactly when they are its digits to the base 16, in either case, the highest first |
| JsonGrammar.StringEnds | Lib/jsoncpp/json_reader.cpp:463-476 | a string token ends at its closing quote and at no escaped one |
| JsonTokens.TokenCut | Lib/jsoncpp/json_reader.cpp:273-345 | reading a token takes white space and then exactly the token's text off the front |
| JsonTokens.BlockCommentIff | Lib/jsoncpp/json_reader.cpp:425-435 | a block comment ends after its first star and slash, and nowhere else |
| JsonTokens.LineCommentIff | Lib/jsoncpp/json_reader.cpp:438-448 | a comment of one line ends after the first line end, and at the end of the text if there is none |
| JsonTokens.LaidIsRead | Lib/jsoncpp/json_reader.cpp:273-345 | tokens written out with any white space between them are read back |
| JsonTokens.ReadsAreLaid | Lib/jsoncpp/json_reader.cpp:273-345 | a text that reads as some tokens is those tokens with white space between them |
| JsonLoose.ParseLoose | Lib/jsoncpp/json_reader.cpp:194-578 | everything the loose grammar spells, with its comments and separating tokens, is read as its meaning |
| JsonLoose.LooseOf | Lib/jsoncpp/json_reader.cpp:194-578 | whatever text is accepted is spelled by the loose grammar and gets that meaning |
| JsonLoose.ParseIff | Lib/jsoncpp/json_reader.cpp:194-578 | so the reader returns a value and a rest exactly when the text spells that value up to that rest |
| JsonLoose.ItemsIff | Lib/jsoncpp/json_reader.cpp:551-577 | array items are accepted exactly when each is followed, after comments, by some token, which is the closing bracket after the last one and neither it nor a comment after the others |
| JsonLoose.AnySeparator | Lib/jsoncpp/json_reader.cpp:561-575 | any other such token in the place of a separator gives the same items: the separating token is lost |
| JsonParsing.StrictConforms | Lib/jsoncpp/json_reader.cpp:194-578 | what is accepted without comments, with commas between and closed after the last part, is a value of the grammar |
| JsonParsing.ParseConforming | Lib/jsoncpp/json_reader.cpp:194-242 | a text whose tokens spell a value by the grammar is read as its meaning, however it is spaced, and the reader stops right after it |
| JsonParsing.ParseSpaced | Lib/jsoncpp/json_reader.cpp:194-242 | the tokens of a value written out with any white space between them are read as its meaning |
| JsonParsing.ReadIsLaid | Lib/jsoncpp/json_reader.cpp:194-242 | an accepted text is the tokens of what it spells, with white space between them, and the rest |
| JsonParsing.ParsedIsOrdered | Lib/jsoncpp/json_reader.cpp:479-578 | whatever the text, the objects that are built have their names in the order of `strcmp` and no name twice |
| JsonLeniencies.NumberSeparates | Lib/jsoncpp/json_reader.cpp:566-568 | `[1 2 3]` is read as `[1,3]` |
| JsonLeniencies.CommaBeforeBrace | Lib/jsoncpp/json_reader.cpp:491-493 | `{"":1,}` is accepted |
| JsonLeniencies.CommentHidesToken | Lib/jsoncpp/json_reader.cpp:524-530 | after a comment a colon is swallowed in the place of a comma |
| JsonText.IntegerExact | Lib/jsoncpp/json_reader.cpp:581-616 | a printed integer is read back exactly inside the two bounds, and outside them its text is read as a double |
| JsonText.DecimalFolds | Lib/jsoncpp/json_writer.cpp:30-40 | the printed digits stand for the number |
| JsonText.NoLeadingZero | Lib/jsoncpp/json_writer.cpp:30-40 | the printed digits start with a zero for the number 0 only |
| JsonText.QuotedReadsBack | Lib/jsoncpp/json_writer.cpp:111-172 | a quoted string is decoded to itself exactly when it holds no NUL |
| JsonText.EscapedIff | Lib/jsoncpp/json_writer.cpp:124-168 | a character is printed as itself exactly when section 7 of RFC 8259 allows it, and otherwise by its short escape if it has one |
| JsonText.Utf8Inverse | Lib/jsoncpp/json_reader.cpp:69-102 | a code point becomes one to four bytes of the right form that give it back |
| JsonScalars.UIntToString | Lib/jsoncpp/json_writer.cpp:30-40 | digits are written backwards and end with a NUL; at most eleven characters are used |
| JsonScalars.IntegerToString | Lib/jsoncpp/json_writer.cpp:42-64 | the text of every 32-bit integer, signed or not, fits its buffer |
| JsonScalars.NeedsEscape | Lib/jsoncpp/json_writer.cpp:111-115 | the scan for special characters says yes exactly when some character is not printed as itself |
| JsonScalars.QuotedString | Lib/jsoncpp/json_writer.cpp:111-172 | the copying and the escaping path give the same quoted text |
| JsonWriting.SpellingMeans | Lib/jsoncpp/json_writer.cpp:207-263 | the spelling of a printable value conforms to the grammar and means the value, with members back in their order |
| JsonWriting.SpelledIsRead | Lib/jsoncpp/json_reader.cpp:150-191 | a document with the tokens of a printable value is read as it, whoever printed it |
| JsonFast.FastReads | Lib/jsoncpp/json_writer.cpp:207-263 | the fast writer's text reads as the tokens of the value, with or without the YAML space |
| JsonLayout.FastIsGlued | Lib/jsoncpp/json_writer.cpp:207-263 | the fast writer prints the tokens of the value with nothing between them, and a space after colons for YAML |
| JsonFast.FastRoundTrip | Lib/jsoncpp/json_writer.cpp:197-204 | parsing what the fast writer wrote gives the value back, up to whole numbers that fit a signed integer |
| JsonFast.NormPrintsTheSame | Lib/jsoncpp/json_writer.cpp:207-263 | writing the value that was read back gives the same text again |
| JsonFast.FastWriter.WriteValue | Lib/jsoncpp/json_writer.cpp:207-263 | writing appends the text of the value to the document |
| JsonStyled.StyledReads | Lib/jsoncpp/json_writer.cpp:290-402 | after any document, at any indentation and with either array layout, the styled text reads as the same tokens |
| JsonLayout.OneLineIff | Lib/jsoncpp/json_writer.cpp:404-432 | an array takes one line exactly when its items are simple and that line is shorter than 74 characters |
| JsonLayout.StyledIsPretty | Lib/jsoncpp/json_writer.cpp:290-402 | the styled text, which looks at the document written so far, is the plain layout with one line for each entry and three spaces for each open bracket |
| JsonLayout.DocumentIsPretty | Lib/jsoncpp/json_writer.cpp:276-287 | and so is the whole document |
| JsonStyled.StyledRoundTrip | Lib/jsoncpp/json_writer.cpp:276-287 | parsing what the styled writer wrote gives the value back |
| JsonStyled.WritersAgree | Lib/jsoncpp/json_writer.cpp:276-480 | both writers' documents are read as the same value, also where numbers come back as doubles |
| JsonStyled.StyledWriter.IsMultilineArray | Lib/jsoncpp/json_writer.cpp:404-432 | the layout decision in place, with measuring mode off again and the collected texts complete or none |
| JsonStyled.StyledWriter.MeasureLine | Lib/jsoncpp/json_writer.cpp:417-430 | measuring adds up the lengths, collects one text for each item and touches no output |
| JsonStyled.StyledWriter.WriteValue | Lib/jsoncpp/json_writer.cpp:290-348 | writing appends the styled text or, in measuring mode, collects it; the indentation and the mode are as before |
| JsonStyled.StyledWriter.WriteArrayValue | Lib/jsoncpp/json_writer.cpp:351-401 | an array in place: as many collected texts as items on the single line, and the indentation restored |
| JsonStyled.StyledWriter.Write | Lib/jsoncpp/json_writer.cpp:276-287 | the whole document, with the writer ready for another |
| JsonReader.Reader.ReadToken | Lib/jsoncpp/json_reader.cpp:273-345 | the cursor moves over exactly the token at hand, and moves unless the text is at its end |
| JsonReader.Reader.RecoverFromError | Lib/jsoncpp/json_reader.cpp:773-787 | skipping ends on every input, at the token sought or the end |
| JsonReader.Reader.DecodeNumber | Lib/jsoncpp/json_reader.cpp:581-616 | the loop stays within 32 bits and decodes as the function does; one error when it fails |
| JsonReader.Reader.DecodeString | Lib/jsoncpp/json_reader.cpp:657-701 | the loop over characters and escapes decodes as the function does; one error when it fails |
| JsonReader.Reader.ReadArray | Lib/jsoncpp/json_reader.cpp:538-578 | the array loop in place; the node stack is back at its depth on every path |
| JsonReader.Reader.ReadObject | Lib/jsoncpp/json_reader.cpp:479-535 | the member loop in place; the node stack is back at its depth on every path |
| JsonReader.Reader.ReadValue | Lib/jsoncpp/json_reader.cpp:194-242 | a value is read on every input, valid or not: success, value and position are those of the grammar functions, only the top node changes, and a failure reports exactly one error |
| JsonReader.Reader.Parse | Lib/jsoncpp/json_reader.cpp:150-191 | a document is accepted exactly when the grammar functions accept it and exactly when no error is recorded |
| JsonRoundTrip.FastThenParse | Lib/jsoncpp/json_writer.cpp:197-204 | the fast writer and then the reader, as objects, give the value back |
| JsonRoundTrip.StyledThenParse | Lib/jsoncpp/json_writer.cpp:276-287 | the styled writer and then the reader give the value back |
| JsonRoundTrip.StrictRoots | Lib/jsoncpp/json_reader.cpp:178-190 | in strict mode a printed value is accepted exactly when it is an array or an object |
| Md5Schedule.Unrolled | QuaServer/lib_md5.cpp:170-246 | the 64 written-out steps with rotated registers are the table-driven 64 steps, for any word operations |
| Md5Schedule.MacroIsStandard | QuaServer/lib_md5.cpp:162-163 | the step macro's order of additions is the standard's |
| Md5Compress.FirstRewritten | QuaServer/lib_md5.cpp:155-157 | the rewritten F1 is the F of RFC 1321, section 3.4, on all words |
| Md5Compress.SecondRewritten | QuaServer/lib_md5.cpp:157 | F2 as F1 with its arguments moved is the G of RFC 1321 |
| Md5Compress.DigitF | QuaServer/lib_md5.cpp:155-156 | each binary digit of F is the one of y or of z, as that of x says |
| Md5Compress.DigitG | QuaServer/lib_md5.cpp:157 | the same of G, chosen by z |
| Md5Compress.DigitH | QuaServer/lib_md5.cpp:158 | each digit of H is the parity of the three |
| Md5Compress.DigitI | QuaServer/lib_md5.cpp:159 | each digit of I is that of y, turned over where x has a one or z a zero |
| Md5Bits.RotateIsArithmetic | QuaServer/lib_md5.cpp:162-163 | the rotation by s places is the number times 2^s modulo 2^32 and its quotient by 2^(32-s) |
| Md5Compress.ProgramIsRfc | QuaServer/lib_md5.cpp:155-250 | any number of the program's steps on any state and block are the standard's |
| Md5Compress.Transform | QuaServer/lib_md5.cpp:170-250 | the transform in place adds the 64 standard steps to the state |
| Md5.CarryAdds | QuaServer/lib_md5.cpp:67-72 | the two-word bit counter counts modulo 2^64, carrying exactly when the low word shrinks |
| Md5.BytesOfWord | QuaServer/lib_md5.cpp:139-145 | byte j of a word written out counts 256^j, the lowest first |
| Md5.WordOfBytes | QuaServer/lib_md5.cpp:86-97 | and a word read from a block has the block's bytes in these places |
| Md5.WordReadsBack | QuaServer/lib_md5.cpp:86-145 | reading back the bytes of a word gives the word |
| Md5.LengthIsBits | QuaServer/lib_md5.cpp:139-143 | the eight bytes appended are the length in bits modulo 2^64, the lowest byte first |
| Md5.PaddedIsWhole | QuaServer/lib_md5.cpp:111-149 | padding by sections 3.1 and 3.2 of RFC 1321 gives whole blocks, and no shorter padding would |
| Md5.Context.AbsorbBlocks | QuaServer/lib_md5.cpp:94-100 | the block loop folds every complete block into the state |
| Md5.Context.Update | QuaServer/lib_md5.cpp:64-105 | after every update the state is that of the complete blocks, the buffer holds the tail and the counter the length |
| Md5.Context.Pad | QuaServer/lib_md5.cpp:111-137 | one or two blocks of padding, as the room for the length requires |
| Md5.Context.Final | QuaServer/lib_md5.cpp:111-149 | the digest is the one-shot digest of everything absorbed |
| Md5.HashParts | QuaServer/lib_md5.cpp:50-149 | however a message is cut into updates, the digest is that of the whole |
| Md5Vector.EmptyDigest | QuaServer/lib_md5.cpp:50-250 | the digest of the empty message is d41d8cd98f00b204e9800998ecf8427e, the first test of appendix A.5 of RFC 1321, proved step by step |
| Md5.HashBuffer | QuaServer/lib_md5.cpp:252-273 | hashing a buffer at once gives its digest |
| QosWindow.OtherSlot | QuaServer/ServiceQua.h:685-698 | the slot i seconds back adds exactly the events of that second |
| QosWindow.OwnSlot | QuaServer/ServiceQua.h:685-698 | the current slot adds the events of thirty seconds ago, unless the current second has events |
| QosWindow.SlotsAfter | QuaServer/ServiceQua.h:735-750 | recording an event keeps all thirty slots in agreement with the log of all events |
| QosWindow.Secondwise | QuaServer/ServiceQua.h:685-698 | one more slot is one more second of the window |
| QosWindow.AlarmingIsARate | QuaServer/ServiceQua.h:704-705 | as long as the products fit, alarm means more failures than the threshold and than the configured percentage of all calls |
| QosWindow.AlarmMeans | QuaServer/ServiceQua.h:681-716 | a check is alarmed exactly when the configured seconds have more than the configured number of failures and these are more than the configured percentage of all calls; 6 seconds, 50 failures and 10 percent where the configuration is missing or out of range |
| QosWindow.Window.UpdateQos | QuaServer/ServiceQua.h:723-758 | an outcome is recorded in its slot, which starts anew in a new second |
| QosWindow.Window.SumWindow | QuaServer/ServiceQua.h:681-698 | the ring sums exactly the events of the log in the window |
| QosWindow.Window.CheckQos | QuaServer/ServiceQua.h:667-720 | a call passes unless its key is alarmed and the draw is against it |
| TwoSlotReload.EveryRunIsSafe | QuaServer/FileDataMeta.h:119-193 | in every run nothing handed out is written over within 180 seconds, and the current slot of every file holds what was loaded last |
| TwoSlotReload.WrittenLate | QuaServer/FileDataMeta.h:149-175 | a slot that is written was last handed out at least 180 seconds before |
| TwoSlotReload.LifetimeIsExact | QuaServer/ServiceQua.cpp:1825 | and exactly 180 seconds do occur |
| TwoSlotReload.Loader.Load | QuaServer/FileDataMeta.h:119-193 | one call: its result, its flag and the slot it hands out |
| BatchAllocator.InsideIffDivides | Lib/jsoncpp/json_batchallocator.h:53-77 | every fresh slot of every run is inside its page exactly when the objects of an allocation divide the page |
| BatchAllocator.RunOvershoots | Lib/jsoncpp/json_batchallocator.h:62-76 | otherwise the used cells step over the end of the first page and never stop |
| BatchAllocator.BumpKeeps | Lib/jsoncpp/json_batchallocator.h:62-76 | taking cells keeps all pages but the first full and the first one current |
| BatchAllocator.IssuedApart | Lib/jsoncpp/json_batchallocator.h:53-77 | two issued slots share a cell only if they are the same |
| BatchAllocator.IssuedMore | Lib/jsoncpp/json_batchallocator.h:62-76 | taking cells issues one slot that was not issued before, and no other |
| BatchAllocator.Allocator.Allocate | Lib/jsoncpp/json_batchallocator.h:53-77 | a slot not in use, inside its page and clear of every slot in use; released slots come first, and no slot's contents change |
| BatchAllocator.Allocator.Release | Lib/jsoncpp/json_batchallocator.h:81-86 | the slot goes to the head of the free list that is kept in the slots themselves, and no other slot's first word changes |
| BatchAllocator.Allocator.Write | Lib/jsoncpp/json_batchallocator.h:53-86 | the owner's writes to a slot in use change its first word only and leave the free list whole |
| KeyValueText.JoinPieces | QuaServer/StringProcess.cpp:164-188 | joining the pieces gives the text back |
| KeyValueText.PiecesAreClean | QuaServer/StringProcess.cpp:164-188 | no piece contains the delimiter |
| KeyValueText.SplitString2 | QuaServer/StringProcess.cpp:164-188 | the loop appends exactly the pieces, none for an empty text |
| KeyValueText.SplitString | QuaServer/StringProcess.cpp:141-162 | the loop appends exactly the pieces that are not empty |
| KeyValueText.GetDlmNum | QuaServer/StringProcess.cpp:217-233 | the number of delimiters is one less than the number of pieces |
| KeyValueText.PlainMeans | QuaServer/StringProcess.cpp:194-211 | the reader finds one or two non-empty pieces in a value exactly when it is not empty and holds at most one equals sign, not at an end |
| KeyValueText.PairReadsBack | QuaServer/StringProcess.cpp:194-211 | a pair's text gives the pair back exactly when the key holds no equals sign and the value is such a one |
| KeyValueText.OnePairReadsBack | QuaServer/StringProcess.cpp:190-214 | a pair added to an empty text comes back as the only one exactly when neither part holds an ampersand, the key no equals sign, and the value is such a one |
| KeyValueText.KeyAlone | QuaServer/StringProcess.cpp:205-207 | a key without an equals sign after it is read with the empty value |
| KeyValueText.TooManyPieces | QuaServer/StringProcess.cpp:198-211 | a value in more than two pieces is lost with its key |
| KeyValueText.BuiltPieces | QuaServer/DataWrap.h:36-43 | without ampersands the pieces of a built text are its pairs in order |
| KeyValueText.BuiltIsReadInTurn | QuaServer/StringProcess.cpp:190-214 | whatever the pairs are, reading a built text reads what each pair alone is cut into, one pair after the other; no pair touches another |
| KeyValueText.BuiltIsRead | QuaServer/StringProcess.cpp:190-214 | reading a text built from readable pairs gives the first value of every key |
| KeyValueText.AllReadBackIff | QuaServer/StringProcess.cpp:190-214 | pairs with different keys all come back exactly when each is readable: no ampersand, no equals sign in the key, at most one inside the value |
| KeyValueText.FirstWinsMeans | QuaServer/StringProcess.cpp:200-210 | the first complete pair of a key is the one in the map |
| KeyValueText.WrapString.AddString | QuaServer/DataWrap.h:36-43 | a pair with a key and a value is appended, and nothing otherwise |
| KeyValueText.ParseKV | QuaServer/StringProcess.cpp:190-214 | reading in place: every piece in turn, a key that is there keeps its value |
| KeyValueText.BuildThenParse | QuaServer/DataWrap.h:36-43 | building text from any pairs and parsing it reads the pairs in turn, which for readable ones gives the first value of every key |

## Left out

- The set and per-process mirrors inside a quota request (QuaServer/ServiceQua.cpp:1278-1303): they take the last value from the activity's map, so nothing is conserved in them across activities.
- The set's request to the second server, its division of a set quota among processes and the worker total (`GetProcQ`, `GetWorkerNum`, QuaServer/ServiceQua.cpp:1392-1490): plain divisions on top of the windows modelled here.
- Sockets, routing, protocol buffers and the service framework: a network call is a wait that ends with a reply or without one.
- Statistics per minute, logging, CPU and memory probes, the daily eviction of keys and reports that are switched off: they decide nothing.
- The random bands of the act and set checks: with a float percentage of 0 they are empty, so the draw only matters in the failure window.
- Integer overflow of counts on the server and the client: counts are taken to fit 32 bits, which `Admission.CounterStaysInRange` and the guard `QuotaProtocol.MayCall` on the counters of a ten-second period make explicit; the 32-bit index of the ring of replies does not wrap, and the product of two quotas that the fallback to another key divides fits 64 bits, as quotas from a server do.
- Restarts and reordering in `QuotaProtocol`: there a process's reports are delivered in order; restarts are covered by `Conservation` and `ServerRuns`.
- JSON doubles: printing and scanning them are parameters; a double is part of the round trip when its text reads back as it.
- JSON comments are skipped as the reader skips them, but not stored in values; what a failed parse leaves in the value is not stated either.
- JSON strings with NUL characters: printed only up to the first one, as C strings are; member names are taken whole when read.
- Ownership of values by pointers, sparse arrays and recursion depth in the JSON library.
- The byte order of the machine in MD5: words are little-endian.
- Reading and checking configuration files: a load gives content or fails.
- The loader's map is a field of type map whose entries are replaced, so a pointer into a slot is a key and an index.
- The allocator's pages are a sequence and addresses are pairs of page and cell; constructing objects in the cells is left to the owner.
- An empty delimiter: the splitting loops do not end on one.
