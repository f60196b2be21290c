# Verification of the DAAP logging library, its results parser and its fluentd plugin

This project models the parts of the repository that keep state, and proves what they
promise. Check it with `dafny verify dfyconfig.toml` (Dafny 4.11).

- **The results parser** (`src/stdout_parser.c`). `CStrings` holds the C string functions the
  parser depends on, with tokenizing shown to be the inverse of weaving tokens and gaps;
  `Numbers` holds `atoi` and decimal printing. `Tables` is the table struct, and `FileLines`
  what the calls of `fgets` give of the text of a file, with the exact condition under which a
  printed text is read back line by line.
  `TableTemplate` says what the template file means and proves that printing and reading a
  template are inverse; `TableTemplateParser` is the code. `TableRows` splits a row in place,
  `KeyMatches` sends what regular expressions matched, `ResultsScan` is one pass over a file
  as a function of its lines, and `ResultsParser` is the code, proved against it.
  `HeaderMatching` shows the header counters to be optimal, `ResultsDocument` that printed
  tables of a template are read back, and when the headers of a table lead into it,
  `ResultsLines` what lines outside tables send, `SentValues` which message each value becomes,
  `StaleColumns` exactly when buffers left from earlier rows show, and `StdoutParser` puts
  everything together; `SampleFiles` is one pair of files letter by letter.
- **The TCP writer and the lifecycle of the library** (`src/daap_tcp.c`, `src/daap_init.c`,
  `src/daap_log.c`). `WriteLoop` is the loop around `SSL_write` with the exact condition under
  which it sends its buffer. `TcpProtocol` and `Lifecycle` are state machines whose steps are
  single accesses to shared data by any number of threads; `LifecycleRuns` says what runs can
  do, when the job start is sent and when messages agree on the rank. `Hostname` is the loop that doubles
  its buffer, and `Influx` the line that is sent.
- **The fluentd plugin** (`out_daap.rb`). `PluginText` cleans and splits text messages and
  `PluginRoundTrip` reads them back; `Records` and `TextRecords` turn the pairs of a message
  into the record of its code, and `TextFields` says field by field what becomes of them;
  `PluginDispatch` says exactly when a printed message goes to the block of its own code, and
  `PluginCodes` what the record of each code holds.
  `PluginBatch` says what a batch means, with the cache of
  jobs explained by the history of samples; `PluginMetrics` says what the records of each metric
  hold, `PluginOrder` in which order they come and `PluginStamps` which get their time as text;
  `DaapOutput` is the code, on record objects.
- **The launch script** (`scripts/daap-launch/telegraf_run.sh`). `Placement`.

Code that changes things in place is a method over fields, arrays and objects, and is proved
against functions on values; the lemmas are about these functions.

## What turned out not to hold as one would expect

- The write loop advances by the result of the last write, not by the total. `WriteLoop` shows
  that a loop that ends has sent every buffer if and only if the writes that send something are
  adjacent, so at most two (`FaithfulIffInPlace`, `InPlaceIffAdjacent`); results 4, 3 and 3 end
  it with the wrong bytes (`EndsWithWrongBytes`), and it can overshoot and then never end by
  itself (`OvershootHappens`, `OvershootNeverEnds`). The lock is then released only by a write
  that fails (`TcpProtocol.ReleasedIff`).
- The line buffers hold 511 characters, and a NUL ends a string. A printed text is read back as
  its lines if and only if none has a line feed or NUL inside or more than 511 characters with
  its line feed (`FileLines.ReadBackIff`).
- Headers of a table can be taken by an earlier table of the template, as "Cycle time" is by a
  table with the header "Cycle" (`ResultsDocument.HeaderTaken`). They lead into their own
  table if and only if none of them holds the first header of an earlier one
  (`ResultsDocument.EnteredIffUnclaimed`).
- The count of value names runs on from table to table. The values of a table go out under its
  own names if and only if no names come before it (`StdoutParser.OwnNamesSentIffFirst`).
- The column buffers are not cleared. A row is read independently of earlier rows if and only
  if it has as many columns as the table (`StaleColumns.IndependentIffFullRow`,
  `StaleColumns.SameBehindAllRowsIff`).
- `mpi_rank` is written behind the publish point and by `daapSetRank`. Without calls of the
  latter, all further messages carry the present rank if and only if no thread has still to set
  another one and none is about to send a message with another one
  (`LifecycleRuns.RankAgreesIff`).
- The line that is sent is cut at 2047 characters. It tells all fields if and only if the whole
  line is shorter than that, given tags without commas (`Influx.TellsIffShort`). For tags
  without spaces, commas or not, it also must not hold ",hostname=" in the application or the
  host, or ",cluster=" in the host or the cluster (`Influx.TellsExactly`, `Influx.ConfusedIff`);
  `Influx.CommaConfuses` shows two senders with the same line.
- The mark of a code may be anywhere in a message. A printed message gives the record of its own
  code if and only if no mark of an earlier code occurs in it (`PluginDispatch.TaggedIff`,
  `PluginDispatch.UntaggedIff`); "xrage,desc=sap,host=h job_id=1 5" goes to the block of sap and
  raises an exception (`PluginDispatch.XrageTakenForSap`).
- A memory sample that is not a number raises an exception, and leaves an entry without samples
  in the cache if the job had none (`PluginBatch.BatchRaisesIff`, `PluginBatch.CacheIsHistory`).
- A batch that hands nothing on does not look at the age of the jobs (`PluginBatch.QuietBatch`).
  An xrage message without pairs is such a batch (`TextRecords.BareXrage`).

## Model

| member | source | states |
|---|---|---|
| CStrings.Strtok | src/stdout_parser.c:410-418 | one call of the in-place tokenizer: it returns the next token as a string in the buffer, overwrites only the delimiter behind it, and leaves the saved pointer where the remaining tokens are those of the rest |
| CStrings.Strcpy | src/stdout_parser.c:415 | the string is copied with its terminator and the rest of the target is unchanged |
| CStrings.Strlen | src/stdout_parser.c:416 | the length of the string in the buffer |
| CStrings.TokensOfWeave | src/stdout_parser.c:410-418 | tokenizing a text woven from tokens and delimiter runs gives back the tokens |
| CStrings.WeaveOfTokens | src/stdout_parser.c:410-418 | every text is woven from its own tokens: nothing but delimiters is lost |
| Numbers.AtoiOfSigned | src/stdout_parser.c:268-275 | `atoi` reads back every printed number |
| Numbers.AtoiReads | src/stdout_parser.c:268-275 | white space in front, one sign, and the digits behind it count; what follows them does not |
| Numbers.SignedInjective | src/daap_log.c:280-287 | different numbers print differently |
| FileLines.Fgets | src/stdout_parser.c:213 | one call: the buffer holds the characters up to and with the next line feed, at most 511 and ended early by a NUL, and the file goes on behind what was read |
| FileLines.ReadLines | src/stdout_parser.c:357 | the calls up to the end of the file give its strings, one behind the other |
| FileLines.ReadBackIff | src/stdout_parser.c:213-357 | a text made of lines with their line feeds is read back as these lines if and only if none has a line feed before its end, a NUL, or more than 511 characters |
| FileLines.LongLine | src/stdout_parser.c:213-357 | a longer line is handed out in pieces of 511 characters |
| TableTemplateParser.TrimLine | src/stdout_parser.c:218-223 | all line feeds and carriage returns at the end are cut, and nothing else |
| TableTemplate.TrimIs | src/stdout_parser.c:218-223 | what is cut is line feeds and carriage returns only, and what is left does not end in one |
| TableTemplateParser.FillNames | src/stdout_parser.c:248-262 | headers are appended up to 10, value names written at the running position up to 20 |
| TableTemplateParser.FillTable | src/stdout_parser.c:240-283 | the struct changes as the keys found in the line say, in every combination |
| TableTemplateParser.ReadTemplateLine | src/stdout_parser.c:213-292 | one line: blocks are opened and closed, the current struct is filled, the others and the aliasing stay as they were |
| TableTemplateParser.ParseTableTemplate | src/stdout_parser.c:191-296 | the structs, all new and distinct, hold what reading all lines means |
| TableTemplate.OnlyKey | src/stdout_parser.c:242-279 | a line printed for one key, with plain text behind it, can be taken for that key only |
| TableTemplate.KeyInside | src/stdout_parser.c:240-283 | of a key that is not at the start of its line, the text is still taken from the 10th, 8th, 7th, 9th or 5th character on |
| TableTemplate.OverwriteAt | src/stdout_parser.c:240-283 | a second separator line overwrites the first, and leaves the end of a longer one |
| TableTemplate.ReadKeyLine | src/stdout_parser.c:240-283 | reading a printed line, one that `fgets` gives whole, has the effect of its key and no other |
| TableTemplate.ReadBlock | src/stdout_parser.c:213-292 | reading a printed block appends exactly the table it was printed from |
| TableTemplate.TemplateIsLines | src/stdout_parser.c:213-292 | the text of a printed template, read with `fgets`, is the lines it was printed as |
| TableTemplate.ReadTemplate | src/stdout_parser.c:191-296 | reading the lines of any number of printed blocks gives their tables, within the caps of 10 headers and 20 names |
| TableTemplate.TableAt | src/stdout_parser.c:256-262 | the names of block k start at the number of names in all earlier blocks |
| TableTemplate.TableOfAt | src/stdout_parser.c:248-283 | the table of a block: its separators and numbers, its first 10 headers, and its names in the slots from their start to the 20th |
| TableTemplate.OwnNamesIffFirst | src/stdout_parser.c:201-262 | the names of a block start at the first slot of its table if and only if no name comes before it in the file |
| StdoutParser.OwnNamesSentIffFirst | src/stdout_parser.c:201-446 | block k of a file: every row that can be printed for its table goes out under the block's own names if and only if no name comes before the block |
| TableRows.RowSender.CopyColumn | src/stdout_parser.c:414-417 | a column without its last character goes to its buffer, all other buffers are unchanged |
| TableRows.RowSender.SplitColumns | src/stdout_parser.c:409-419 | the column buffers hold the column tokens without their last characters, and old contents beyond them |
| TableRows.RowSender.SendValue | src/stdout_parser.c:433-446 | a value is sent under its name unless the name contains `_skip` |
| TableRows.RowSender.SendColumn | src/stdout_parser.c:430-447 | all values of a column are sent under the next names, and the column keeps its text up to the end of its first value |
| TableRows.RowSender.ReadColumn | src/stdout_parser.c:424-447 | a column without the value separator is passed over, another one is split and sent |
| TableRows.RowSender.SendValues | src/stdout_parser.c:421-448 | the values of all columns, zipped in order with the names |
| TableRows.RowSender.SendRow | src/stdout_parser.c:400-448 | the two rounds of in-place `strtok` send exactly the messages of the row and leave the worn columns behind |
| SentValues.SentAt | src/stdout_parser.c:433-446 | as many messages as values whose names do not contain `_skip`; value i is the message behind those of earlier such names: its own name, "=", its own text |
| SentValues.RowSends | src/stdout_parser.c:400-448 | value j of column c of a printed row is sent under the name with the number of values before it, whatever the buffers hold |
| SentValues.ColumnGives | src/stdout_parser.c:424-430 | a column with the whole value separator in it gives its tokens, any other nothing |
| KeyMatches.SendPairs | src/stdout_parser.c:484-512 | the loop that skips indices sends groups (1,2), (3,4), ... and neither group 0 nor an odd last group |
| KeyMatches.SendKeys | src/stdout_parser.c:459-513 | the pairs of all expressions, in the order of the expressions |
| KeyMatches.PairAt | src/stdout_parser.c:484-512 | message i of a match has group 2i + 1 as its key and group 2i + 2 as its value, cut out of the line by their offsets |
| KeyMatches.KeysInOrder | src/stdout_parser.c:459-513 | one more expression sends its pairs behind those of the expressions before |
| KeyMatches.Copied | src/stdout_parser.c:497-507 | offset, length and copy give the text of the group, empty for a group that took no part |
| ResultsScan.Step | src/stdout_parser.c:357-454 | outside a table every table misses a header; inside, exactly the current one has all: kept by every line |
| ResultsScan.Claim | src/stdout_parser.c:366-376 | the first table in order whose next header the line holds |
| ResultsScan.LineSent | src/stdout_parser.c:357-513 | what a line sends: outside a table nothing if some table waits for it or the last table has some of its headers, else all pairs found in it; in a table its row, or without the separator all pairs found in it |
| ResultsParser.Parser.constructor | src/stdout_parser.c:302-354 | the state before the first line |
| ResultsParser.Parser.MatchHeaders | src/stdout_parser.c:366-376 | at most one counter is advanced, and the table pointer is left at the table looked at last |
| ResultsParser.Parser.LookForTable | src/stdout_parser.c:366-393 | headers are matched, a table is entered on its last header, and lines between headers go no further |
| ResultsParser.Parser.ReadRow | src/stdout_parser.c:398-453 | a line with the column separator is sent as a row and never reaches the key matcher |
| ResultsParser.Parser.LeaveTable | src/stdout_parser.c:402-407 | the first line without the separator ends the table and resets its counter only |
| ResultsParser.Parser.ParseLine | src/stdout_parser.c:357-514 | one line: the new state and the messages are those of the pure step |
| ResultsParser.Parser.ParseLines | src/stdout_parser.c:356-514 | a whole file sends exactly the fold over its lines |
| HeaderMatching.LongestStep | src/stdout_parser.c:366-387 | taking the next header whenever a line holds it keeps the count the largest possible |
| HeaderMatching.CountersAreLongest | src/stdout_parser.c:366-406 | in every reachable state the counter of every table is the largest number of its headers that embed in order in the lines offered to it |
| HeaderMatching.InTableIffHeadersEmbed | src/stdout_parser.c:383-406 | a table is being read if and only if all its headers embed in those lines: it is entered at the earliest possible line |
| HeaderMatching.OfferedToOnlyTable | src/stdout_parser.c:366-406 | with one table, every line outside it is offered to it, and leaving it starts again |
| ResultsDocument.RowBack | src/stdout_parser.c:400-448 | a printed row sends exactly the values it was printed from, whatever the buffers held |
| ResultsDocument.DocumentBack | src/stdout_parser.c:356-514 | with any number of tables in the template: a printed table whose headers no earlier table takes sends the values of its rows in order, and leads back to a state in which any table can follow |
| ResultsDocument.EnteredIffUnclaimed | src/stdout_parser.c:364-386 | its headers, line by line, lead into a table if and only if none of them holds the first header of an earlier table |
| ResultsDocument.HeaderTaken | src/stdout_parser.c:366-376 | such a template: the line with the header of its second table leads into the first |
| ResultsLines.FreeLinesSent | src/stdout_parser.c:364-513 | lines outside tables, none with the first header of a table: all pairs found in them are sent, line by line, and the buffers stay as they are |
| StaleColumns.IndependentIffFullRow | src/stdout_parser.c:316-447 | a row is read independently of what the buffers hold if and only if it has as many column tokens as the table has columns |
| StaleColumns.SameBehindAllRowsIff | src/stdout_parser.c:316-447 | the same behind real rows: it is read the same behind any full rows if and only if it is full itself |
| StaleColumns.ShortRowDiffers | src/stdout_parser.c:316-447 | two full rows with different values make the same short row read differently |
| StaleColumns.ShortRowRepeats | src/stdout_parser.c:409-447 | behind a full row, a missing column is read as the first value of that column in the full row where the separator comes before that value, and as nothing where it does not |
| StaleColumns.WornKeepsFirst | src/stdout_parser.c:425-447 | a column that was split holds its first value only |
| StdoutParser.ParseResults | src/stdout_parser.c:300-529 | the texts of both files: what is sent is the fold over the trimmed lines `fgets` gives, with the tables the template means, whatever the buffers held |
| StdoutParser.TraceAppend | src/stdout_parser.c:356-514 | two texts one behind the other send the messages of the first and then those of the second from the state the first leaves |
| StdoutParser.PartsBack | src/stdout_parser.c:356-514 | printed tables of a template, any number in any order, with other lines before, between and behind them, send exactly their values and the pairs found in the other lines |
| StdoutParser.PrintedAndParsed | src/stdout_parser.c:300-529 | the texts of a printed template of up to 10 tables and of documents of its tables with other lines between them, each line at most 511 characters with its line feed and without line feeds or NUL inside: `ParseResults` accepts both, and whatever the buffers hold, exactly the printed values and the pairs found in the other lines are sent, in order, the values of block k under its names behind those of all earlier blocks |
| SampleFiles.SampleSends | src/stdout_parser.c:191-529 | one template file and one results file, letter by letter, and the three messages they send |
| WriteLoop.Write | src/daap_tcp.c:126-140 | for every list of results: what the peer receives, the returned count, and whether the loop finishes, fails, exits the process or goes on |
| WriteLoop.OffsetIsTotalIff | src/daap_tcp.c:127-139 | the offset of a write is the number of bytes sent so far if and only if nothing was sent before the previous write |
| WriteLoop.InPlaceSends | src/daap_tcp.c:126-140 | if that holds at every write that sends something, what is sent is the buffer from its start |
| WriteLoop.FaithfulIffInPlace | src/daap_tcp.c:126-140 | a loop that ends has sent every buffer of its length if and only if all writes that send something start in the right place |
| WriteLoop.InPlaceIffAdjacent | src/daap_tcp.c:126-140 | writes are in the right place if and only if those that send something are adjacent; of any three one then sends nothing |
| WriteLoop.EndsWithWrongBytes | src/daap_tcp.c:126-140 | results 4, 3 and 3 for a message of 10 bytes end the loop with the wrong bytes sent |
| WriteLoop.OvershootNeverEnds | src/daap_tcp.c:126-139 | once more than the buffer has been sent, the loop cannot end by itself |
| WriteLoop.OvershootHappens | src/daap_tcp.c:126-139 | results 4, 3 and 7 for a message of 10 bytes lead there |
| TcpProtocol.StepKeeps | src/daap_tcp.c:113-185 | every step of every thread keeps the invariant |
| TcpProtocol.ReachableInv | src/daap_tcp.c:113-185 | the invariant holds in every interleaving of any number of threads |
| TcpProtocol.OneConnection | src/daap_tcp.c:118-144 | at most one socket is between connect and close, and it belongs to the thread that holds the lock |
| TcpProtocol.LockReleased | src/daap_tcp.c:118-145 | a thread that returned, on whatever path, does not hold the lock |
| TcpProtocol.NoMixing | src/daap_tcp.c:113-146 | in every reachable state the connections carry, one by one and in order, what the loops of the returned calls wrote, and then what the thread inside has written so far |
| TcpProtocol.WholeMessages | src/daap_tcp.c:126-140 | a call whose writes are in place puts exactly its whole message on its connection |
| TcpProtocol.FreeLockCanBeTaken | src/daap_tcp.c:118 | while nobody holds the lock, a waiting thread can take it |
| TcpProtocol.ReleasedIff | src/daap_tcp.c:118-145 | the thread inside can release the lock without a failed write if and only if it has not sent more than its message holds |
| TcpProtocol.FailureReleases | src/daap_tcp.c:134-144 | if it has, a failed write leads to the release |
| Lifecycle.StepKeeps | src/daap_init.c:141-248 | every step of `daapInit`, `daapLogWrite` and `daapSetRank` keeps the invariant |
| Lifecycle.PublishedOnce | src/daap_init.c:141-199 | exactly one thread has passed the publish point if the library is initialized, none otherwise |
| Lifecycle.GuardHolds | src/daap_log.c:76-135 | a writer behind its guard finds application, host, cluster and transport set, and what it has read is what is there |
| Lifecycle.Stable | src/daap_init.c:149-199 | after the publish point these never change, whatever the rest of the run |
| Lifecycle.SameIdentity | src/daap_log.c:275-287 | all messages ever sent name the same application, host and cluster |
| Lifecycle.JobStartsOnce | src/daap_init.c:243-248 | the automatic job start is sent at most once |
| LifecycleRuns.JobStartExactly | src/daap_init.c:206-248 | in every interleaving: none before the publish point and while the thread that published is on its way, then exactly one if it is due and the transport is syslog or TCP, and none otherwise |
| LifecycleRuns.StartDueIff | src/daap_init.c:206-248 | it is due if and only if `DAAP_DECOUPLE` is not set or "0", and the first of the three rank variables that is set is "0", or none is |
| LifecycleRuns.NewRankIs | src/daap_init.c:208-228 | the first of the three variables that is set gives the rank |
| LifecycleRuns.SecondCall | src/daap_init.c:141-145 | a further call of `daapInit` succeeds and changes nothing |
| LifecycleRuns.FailedCall | src/daap_init.c:159-167 | without a host name a call fails, with nothing published and the lock free |
| Lifecycle.SuccessMeansInitialized | src/daap_init.c:141-199 | `daapInit` returns success only when everything is set and published |
| Lifecycle.OneInside | src/daap_init.c:141-199 | the init lock admits one thread at a time |
| LifecycleRuns.InitCanComplete | src/daap_init.c:141-250 | from every state in which nobody is inside or has published, a call can run to its end: everything is filled in, the lock is free, and the job start is sent if it is due and the transport is syslog or TCP |
| LifecycleRuns.MessageCarriesRank | src/daap_log.c:275-287 | from every initialized state a quiet thread can send a message, with syslog and with TCP, and it carries the rank of that moment; without a transport nothing changes |
| LifecycleRuns.RankAgreesIff | src/daap_init.c:208-228 | without `daapSetRank`: all messages of all further runs carry the present rank if and only if no thread has still to set another one and none is about to send another one |
| LifecycleRuns.SilentWithoutTransport | src/daap_log.c:130-135 | with no transport chosen nothing is ever sent |
| LifecycleRuns.RankMoves | src/daap_init.c:283-285 | with `daapSetRank` two messages in a row can name different ranks, from every initialized state |
| Hostname.GetHostName | src/daap_init.c:63-66 | the assumption about the system: the name with its terminator if it fits, else a full buffer without terminator, or a failure |
| Hostname.Ask | src/daap_init.c:66-116 | one try: success exactly for a non-empty name that fits, the exact name in the buffer, an error for other failures |
| Hostname.LocalHostName | src/daap_init.c:50-133 | at most 8 tries with 257, 514, ... bytes of which one is held back; success gives the exact terminated name at the first size that fits |
| Hostname.SucceedsIff | src/daap_init.c:60-132 | success if and only if some size fits a non-empty name and is reached without a failure |
| Hostname.LimitIs | src/daap_init.c:60-132 | with a standard system and memory enough, names of 1 to 257 * 2^7 - 2 characters are found and no others |
| Influx.Snprintf | src/daap_log.c:280-287 | the text up to one less than the size, terminated, and nothing behind the size is touched |
| Influx.BuildInflux | src/daap_log.c:275-290 | the buffer holds the first 2047 characters of the line |
| Influx.StampHasZeros | src/daap_log.c:278 | the time in milliseconds is printed with six zeros behind it |
| Influx.LineSample | src/daap_log.c:280-287 | one whole line, letter by letter |
| Influx.LogWrite | src/daap_log.c:64-140 | nothing before initialization; otherwise the line of the message cut to 8096 characters is handed on |
| Influx.LineInjective | src/daap_log.c:280-287 | with no commas in the tags the line tells all six fields, whatever quotes and spaces the message has |
| Influx.CommaConfuses | src/daap_log.c:280-287 | with a comma in a tag two senders can have the same line |
| Influx.TellsIffShort | src/daap_log.c:275-290 | the line that is sent tells all fields if and only if the whole line has fewer than 2047 characters |
| Influx.ConfusedIff | src/daap_log.c:280-287 | among senders with spaceless tags, somebody else has the same line if and only if ",hostname=" occurs in the application or the host, or ",cluster=" in the host or the cluster |
| Influx.TellsExactly | src/daap_log.c:275-290 | among them, the line that is sent tells all fields if and only if the whole line has fewer than 2047 characters and neither occurs |
| PluginText.Message.CommonClean | plugins/fluent-plugin-daap/lib/fluent/plugin/out_daap.rb:39-56 | the message is changed in place to the cleaned text, for both kinds of codes |
| PluginText.RemoveFirst | plugins/fluent-plugin-daap/lib/fluent/plugin/out_daap.rb:46-49 | removing a pattern takes out its first occurrence, and goes on behind it |
| PluginText.PrefixByLine | plugins/fluent-plugin-daap/lib/fluent/plugin/out_daap.rb:41-45 | the code is cut at the start of every line and nowhere else |
| PluginText.StripIs | plugins/fluent-plugin-daap/lib/fluent/plugin/out_daap.rb:265 | what is cut of a value is white space on both sides |
| PluginText.FillPairs | plugins/fluent-plugin-daap/lib/fluent/plugin/out_daap.rb:262-267 | the loop gives the pairs of the items, later over earlier, or an exception |
| PluginText.RaisesIff | plugins/fluent-plugin-daap/lib/fluent/plugin/out_daap.rb:263-266 | an exception if and only if some item has no value |
| PluginRoundTrip.PairIs | plugins/fluent-plugin-daap/lib/fluent/plugin/out_daap.rb:263-266 | the value of an item is what stands between its first two equals signs |
| PluginRoundTrip.NoPair | plugins/fluent-plugin-daap/lib/fluent/plugin/out_daap.rb:263-266 | an item without an equals sign, or with nothing but equals signs behind its key, has no value |
| PluginText.ParseMessage | plugins/fluent-plugin-daap/lib/fluent/plugin/out_daap.rb:258-267 | cleaning, splitting and filling a new record with the metric of the code |
| PluginText.LastStamp | plugins/fluent-plugin-daap/lib/fluent/plugin/out_daap.rb:53 | the greedy expression takes the last space before a digit |
| PluginRoundTrip.ScrubApart | plugins/fluent-plugin-daap/lib/fluent/plugin/out_daap.rb:46-49 | removing domains, backslashes and quotes goes part by part between separators |
| PluginRoundTrip.JoinAll | plugins/fluent-plugin-daap/lib/fluent/plugin/out_daap.rb:50-52 | exactly the space in front of the fields becomes a comma |
| PluginRoundTrip.StampsBack | plugins/fluent-plugin-daap/lib/fluent/plugin/out_daap.rb:53 | the stamp becomes the last item, whatever spaces and digits come before it |
| PluginRoundTrip.LastWins | plugins/fluent-plugin-daap/lib/fluent/plugin/out_daap.rb:263-267 | a key has the value of its last pair |
| PluginRoundTrip.RoundTrip | plugins/fluent-plugin-daap/lib/fluent/plugin/out_daap.rb:39-267 | `code,tags fields stamp` comes back as the pairs, last write wins, and the time stamp |
| PluginRoundTrip.RoundTripPlain | plugins/fluent-plugin-daap/lib/fluent/plugin/out_daap.rb:39-242 | the same for the codes with one list of fields |
| PluginRoundTrip.ScrubNothingIff | plugins/fluent-plugin-daap/lib/fluent/plugin/out_daap.rb:46-49 | a text is left as it is if and only if neither domain, no backslash and no quote is in it |
| PluginRoundTrip.RoundTripClean | plugins/fluent-plugin-daap/lib/fluent/plugin/out_daap.rb:39-267 | if that holds for all keys and values, the pairs come back unchanged |
| PluginRoundTrip.RoundTripPlainClean | plugins/fluent-plugin-daap/lib/fluent/plugin/out_daap.rb:39-242 | the same for the codes with one list of fields |
| PluginDispatch.TaggedIff | plugins/fluent-plugin-daap/lib/fluent/plugin/out_daap.rb:141-303 | a printed message of a code with tags gives the record of that code if no mark of an earlier code occurs in it, and otherwise raises an exception |
| PluginDispatch.UntaggedIff | plugins/fluent-plugin-daap/lib/fluent/plugin/out_daap.rb:141-303 | a printed message of a code with one list of fields gives the record of that code if and only if no mark of an earlier code occurs in it |
| PluginDispatch.XrageTakenForSap | plugins/fluent-plugin-daap/lib/fluent/plugin/out_daap.rb:258-283 | an xrage message with "sap," in it goes to the earlier block and raises an exception |
| PluginCodes.LapMessage | plugins/fluent-plugin-daap/lib/fluent/plugin/out_daap.rb:141-173 | "lap-metrics,TAGS problem_name=... STAMP" is one record, of metric lap_metrics, with every field as it is converted or renamed and the time in seconds |
| PluginCodes.PoissonMessage | plugins/fluent-plugin-daap/lib/fluent/plugin/out_daap.rb:176-204 | the same for "poisson-metrics FIELDS STAMP", metric ristra_metrics |
| PluginCodes.JayenneMessage | plugins/fluent-plugin-daap/lib/fluent/plugin/out_daap.rb:207-230 | the same for "jayenne,TAGS runtime=... STAMP", metric jayenne_metrics |
| PluginCodes.McatkMessage | plugins/fluent-plugin-daap/lib/fluent/plugin/out_daap.rb:233-256 | the same for "mcatk FIELDS STAMP", metric mcatk_metrics |
| PluginCodes.SapMessage | plugins/fluent-plugin-daap/lib/fluent/plugin/out_daap.rb:258-280 | the same for "sap,TAGS npes=... STAMP", metric sap_metrics |
| PluginCodes.XrageMessage | plugins/fluent-plugin-daap/lib/fluent/plugin/out_daap.rb:282-376 | the same for "xrage,TAGS job_id=... STAMP", metric xrage_metrics, with dates of runs, revisions and what stands in for them |
| PluginCodes.NoMarkNothing | plugins/fluent-plugin-daap/lib/fluent/plugin/out_daap.rb:141-285 | a message without any of the six marks gives nothing |
| Records.ChangeAt | plugins/fluent-plugin-daap/lib/fluent/plugin/out_daap.rb:151-168 | a loop of conversions changes the listed keys only, and each of them once |
| Records.Rec.ChangeAll | plugins/fluent-plugin-daap/lib/fluent/plugin/out_daap.rb:218-225 | the loop that converts fields in place |
| TextRecords.FinishFields | plugins/fluent-plugin-daap/lib/fluent/plugin/out_daap.rb:141-371 | the fields of each code are converted, renamed, cleaned or filled in as its block does |
| TextFields.LapAt | plugins/fluent-plugin-daap/lib/fluent/plugin/out_daap.rb:151-168 | every field of a lap record: two get other names, and five become numbers |
| TextFields.PoissonAt | plugins/fluent-plugin-daap/lib/fluent/plugin/out_daap.rb:186-199 | every field of a poisson record: the job loses its hyphens, two become floats and five whole numbers |
| TextFields.JayenneAt | plugins/fluent-plugin-daap/lib/fluent/plugin/out_daap.rb:218-225 | every field of a jayenne record: one becomes a float, two whole numbers |
| TextFields.McatkAt | plugins/fluent-plugin-daap/lib/fluent/plugin/out_daap.rb:244-251 | every field of an mcatk record: one becomes a float, three whole numbers |
| TextFields.SapAt | plugins/fluent-plugin-daap/lib/fluent/plugin/out_daap.rb:268-275 | every field of a sap record: two become floats, two whole numbers |
| TextFields.XrageAt | plugins/fluent-plugin-daap/lib/fluent/plugin/out_daap.rb:304-370 | every field of an xrage record: 19 floats and 6 whole numbers of what was prepared, or the three driver times of a record that gave itself another metric |
| TextFields.PreparedAt | plugins/fluent-plugin-daap/lib/fluent/plugin/out_daap.rb:304-347 | before that, the time of a dated run, the job without hyphens, and each revision from the message or filled in under its new key |
| TextRecords.ReadText | plugins/fluent-plugin-daap/lib/fluent/plugin/out_daap.rb:207-377 | the block of a code: one record, or an exception for an item without a value, or nothing for an xrage message without pairs |
| TextRecords.BareXrage | plugins/fluent-plugin-daap/lib/fluent/plugin/out_daap.rb:282-303 | the bare code is such a message |
| PluginBatch.ChildSize | plugins/fluent-plugin-daap/lib/fluent/plugin/out_daap.rb:380-655 | of a metric that raises no exception: 18 records for infiniband, 10 for cpu, 1 for mem, temp and the other names, 0 for what is not accepted or a snap metric without its mark |
| PluginBatch.FanShares | plugins/fluent-plugin-daap/lib/fluent/plugin/out_daap.rb:561-627 | the records of one metric agree in everything but metric, type, value and device |
| PluginMetrics.InfinibandRecords | plugins/fluent-plugin-daap/lib/fluent/plugin/out_daap.rb:561-587 | 18 records: metric and prefix, and for each the listed field as type, its value, and the device |
| PluginMetrics.CpuRecords | plugins/fluent-plugin-daap/lib/fluent/plugin/out_daap.rb:589-601 | 10 records: the kind of processor time without "usage_" as type, and its value |
| PluginMetrics.MemRecord | plugins/fluent-plugin-daap/lib/fluent/plugin/out_daap.rb:604-627 | one record of the memory in use, or an exception if that is not a number |
| PluginMetrics.TempRecord | plugins/fluent-plugin-daap/lib/fluent/plugin/out_daap.rb:629-633 | the temperature and its sensor |
| PluginMetrics.DaapRecord | plugins/fluent-plugin-daap/lib/fluent/plugin/out_daap.rb:654-655 | a metric of the library is one record of the common fields |
| PluginMetrics.MessageIs | plugins/fluent-plugin-daap/lib/fluent/plugin/out_daap.rb:394-424 | what each message of the library enters: heartbeat, job start, job end, job duration |
| PluginMetrics.CommonAt | plugins/fluent-plugin-daap/lib/fluent/plugin/out_daap.rb:439-529 | every other common field: host, time, the fields of the job from the longest expression that matches, the rank |
| PluginMetrics.DomainGoes | plugins/fluent-plugin-daap/lib/fluent/plugin/out_daap.rb:34-37 | the domain and the character in front of it are cut out of the host |
| PluginMetrics.PreTeamRecord | plugins/fluent-plugin-daap/lib/fluent/plugin/out_daap.rb:545-551 | its eleven fields come from the tags |
| PluginMetrics.HplRecord | plugins/fluent-plugin-daap/lib/fluent/plugin/out_daap.rb:552-560 | its 22 fields come from the tags |
| PluginMetrics.SnapRecord | plugins/fluent-plugin-daap/lib/fluent/plugin/out_daap.rb:634-652 | a marked snap metric: four fields as they are, three as floats, four as whole numbers, and the job of the test; an unmarked one gives nothing |
| PluginMetrics.OthersGiveNothing | plugins/fluent-plugin-daap/lib/fluent/plugin/out_daap.rb:380-392 | metrics without fields or name or of other names give nothing |
| PluginMetrics.ChildRaisesIff | plugins/fluent-plugin-daap/lib/fluent/plugin/out_daap.rb:394-619 | exactly which metrics raise an exception |
| PluginMetrics.MemSample | plugins/fluent-plugin-daap/lib/fluent/plugin/out_daap.rb:524-618 | a memory metric is one sample of the job "number_name", at the time of its event |
| PluginOrder.ChildrenInOrder | plugins/fluent-plugin-daap/lib/fluent/plugin/out_daap.rb:380-656 | the records of the metrics of an event, one metric behind the other |
| PluginOrder.BatchInOrder | plugins/fluent-plugin-daap/lib/fluent/plugin/out_daap.rb:62-657 | the records of the events of a batch, one event behind the other; an exception gives none |
| PluginOrder.SamplesInOrder | plugins/fluent-plugin-daap/lib/fluent/plugin/out_daap.rb:62-657 | the samples of a batch in the order of its events, none behind an exception |
| PluginStamps.DatedAsText | plugins/fluent-plugin-daap/lib/fluent/plugin/out_daap.rb:663-675 | records of job states, job durations and the six codes get their time as text |
| PluginStamps.OthersAsTheyAre | plugins/fluent-plugin-daap/lib/fluent/plugin/out_daap.rb:663-675 | records of all other metrics are handed on unchanged |
| PluginBatch.BatchSizes | plugins/fluent-plugin-daap/lib/fluent/plugin/out_daap.rb:62-657 | the number of records of a batch is the sum over its events |
| PluginBatch.BatchRaisesIff | plugins/fluent-plugin-daap/lib/fluent/plugin/out_daap.rb:62-657 | a batch raises an exception if and only if it has a message with an item without a value, or a metric without job information or host, with a message that is not a text, or with a memory sample that is not a number |
| PluginBatch.Peak | plugins/fluent-plugin-daap/lib/fluent/plugin/out_daap.rb:610-618 | the reference for the maximum: at least 0, at least every sample, and one of them or 0 |
| PluginBatch.CacheIsHistory | plugins/fluent-plugin-daap/lib/fluent/plugin/out_daap.rb:604-687 | after any run of batches a job has an entry if and only if it has samples since it was last forgotten, and the entry holds the maximum, the number and the last time of those that are numbers |
| PluginBatch.ForgottenIff | plugins/fluent-plugin-daap/lib/fluent/plugin/out_daap.rb:659-687 | a job is not in the cache if and only if it has no sample since it was last forgotten, or the batch hands something on and its last sample that is a number (its first, if none is) is more than 1800 seconds old |
| PluginBatch.QuietBatch | plugins/fluent-plugin-daap/lib/fluent/plugin/out_daap.rb:659-661 | a batch without records leaves the cache as it was |
| PluginBatch.ProcessAt | plugins/fluent-plugin-daap/lib/fluent/plugin/out_daap.rb:659-687 | a batch that hands something on drops exactly the entries older than 1800 seconds, any other drops none |
| DaapOutput.Plugin.FanOut | plugins/fluent-plugin-daap/lib/fluent/plugin/out_daap.rb:567-600 | one new record object for each item, and the record they are cloned from is not changed |
| DaapOutput.Plugin.Begin | plugins/fluent-plugin-daap/lib/fluent/plugin/out_daap.rb:394-529 | the fields all records of a metric have, with those of the job, and the key of the job |
| DaapOutput.Plugin.Remember | plugins/fluent-plugin-daap/lib/fluent/plugin/out_daap.rb:606-618 | one sample enters the cache; one that is not a number leaves an entry and raises an exception |
| DaapOutput.Plugin.Clean | plugins/fluent-plugin-daap/lib/fluent/plugin/out_daap.rb:680-687 | deleting while going over the keys removes exactly the old entries |
| DaapOutput.Plugin.AddChild | plugins/fluent-plugin-daap/lib/fluent/plugin/out_daap.rb:380-656 | the records of a metric are appended as distinct objects and its sample enters the cache, or it raises an exception |
| DaapOutput.Plugin.AddText | plugins/fluent-plugin-daap/lib/fluent/plugin/out_daap.rb:141-377 | at most one record for a message, none for an xrage message without pairs |
| DaapOutput.Plugin.AddEvents | plugins/fluent-plugin-daap/lib/fluent/plugin/out_daap.rb:62-657 | all events in order; an exception ends the batch, but samples taken before it stay |
| DaapOutput.Plugin.Send | plugins/fluent-plugin-daap/lib/fluent/plugin/out_daap.rb:663-676 | each record goes out with its time stamp from before rewriting, and rewriting one record changes no other |
| DaapOutput.Plugin.Process | plugins/fluent-plugin-daap/lib/fluent/plugin/out_daap.rb:58-688 | the stream is the in-order concatenation of the records of the events, all different objects, and the cache is that of the batch |
| Placement.RoundedIs | scripts/daap-launch/telegraf_run.sh:34 | dividing by 4.0, adding 0.5 and cutting off is (n + 2) / 4 |
| Placement.ServersBounds | scripts/daap-launch/telegraf_run.sh:34-45 | 1 <= S <= n, and n and 4 S differ by at most 2 for n >= 2 |
| Placement.IndexInRange | scripts/daap-launch/telegraf_run.sh:68 | the random index is one of the servers |
| Placement.IndexIff | scripts/daap-launch/telegraf_run.sh:68 | server k is chosen if and only if the random number is from k / servers up to (k + 1) / servers |
| Placement.Launch | scripts/daap-launch/telegraf_run.sh:35-82 | every host gets one daemon in order, the first S are aggregators, and every client's configuration names an aggregator started before it, though it is written only on first use |

## Left out

- The trimming loops (`src/stdout_parser.c:157` and `:220`) have no guard against an empty line; the model has one. The loop of `:359` reads an uninitialized length; the model cuts the line the way `:218-223` does.
- Tables with no headers at all (an index behind the last header is read), more than 10 tables, and rows that overflow the fixed arrays: preconditions exclude them.
- `StdoutParser.ParseResults`: the regular expressions are a parameter that gives the match of each expression with each line; `parseKeyTemplate` and PCRE are not modelled.
- The local variables of `parseResults` that live from line to line are fields of a class; all lines of a file are read and trimmed before the loop instead of one by one.
- `sendResult` formats its text again; the model assumes text without percent signs. Overflow in `atoi` is not modelled: the numbers of a printed template are 32-bit ones.
- `TcpProtocol.ReachableInv`: a failing TLS handshake and `daapFinalize` are not steps; the write loop may stop after any result of `SSL_write`, and a result of -1 ends the process as in the source.
- `StdoutParser.PrintedAndParsed`: values, separators and headers are those that can be printed: no separator character in a value, no key of the template in its texts; regular expressions match the line behind a table only as far as the parameter says.
- `Lifecycle.StepKeeps`: sequential consistency is assumed; `daapFinalize`, memory exhaustion in `daapInit`, certificates and `openlog` are not modelled; time stamps and the null device are not either.
- `Hostname.LocalHostName`: `gethostname` and the allocator are parameters, one answer for each try. Freeing is not modelled. A name is assumed to have no NUL.
- `Influx.LogWrite`: expanding the format is not modelled, the formatted text is the input; the multiplication of the time stamp is assumed not to overflow. `daapLogRawWrite`, heartbeats and job messages are the same function with other texts.
- `PluginText.ParseMessage`: `gsub!`, `split` and `strip!` are functions on strings; `strip!` of NUL characters is not modelled.
- `TextRecords.FinishFields`: what `to_f`, `round` and `to_i` make of a field is a symbol, as float parsing and rounding are library behaviour; only the time stamp is a number.
- `PluginRoundTrip.RoundTrip`: values have no comma, equals sign or line end, keys have no white space either, something is left of each value after cleaning, and the last tag does not end in white space. There is at least one tag and one field. The block is a parameter there; `PluginDispatch` says which one it is.
- `PluginBatch.BatchSizes`: caliper messages and JSON in messages (type `PlainMessage`), and the mesh and zones messages of flag tests (type `Child`) are not modelled; what the three expressions find in the job information is a parameter.
- `Placement.Launch`: copying and editing files is a map from numbers to addresses; the file of the aggregators, ssh and the environment are not modelled.
- The Pavilion tools, the configuration of telegraf and fluentd, `daap_metric.c`, the stubs and the Fortran wrappers.
