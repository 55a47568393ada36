# mountainflux, modelled in Dafny

mountainflux is a set of small tools for load-testing InfluxDB over its line
protocol. This project models its sequential core:

- **river**: the line-protocol encoder. `SeriesKey` builds
  `measurement,k1=v1,k2=v2` with the tag keys in ascending byte order.
  `WriteLine` emits `seriesKey SP field{,field} SP decimal(time) LF` and
  copies it to a writer. Each field kind (`Bool`, `Int`, `Float`, `String`)
  renders as `name=value` by its own rule.
  - Modules: `Bytes`, `Decimal`, `Order`, `RiverField`, `SeriesKeys`,
    `River`, `RiverExample`.
  - `river/series_key.go` and `river/river.go:14-33` hold the same
    `SeriesKey` code. It is modelled once, in `SeriesKeys.SeriesKey`.
- **trail**: the line accumulator (`Trails.Trail`).
  - It holds one open buffer. `WriteLine` appends to it.
  - `Flush` queues the open buffer on a channel with one slot per writer, then takes a new buffer from the pool.
  - `Close` is a last flush, after which the writers drain the channel.
  - The writers' loop, which hands each payload on and returns its buffer to the pool, is modelled one step at a time (`Deliver`).
  - `BufferPool` is the `sync.Pool` of buffers.
- **chasm**: the fake InfluxDB server's write handler (`Chasm.Server`).
  - It checks the path, then the method, then the `db` query argument, and answers 404, 405, 400 or 204.
  - It counts every request. For accepted writes it also counts the body's bytes and newlines.
- **avalanched**: the load generator (`Avalanched.Daemon`).
  - `scan` cuts the input lines into batches of `linesPerBatch` and sends a non-empty tail batch.
  - `processBatches` records one stats line per write.
  - `flushStats` swaps out the stats buffer, or does nothing when it is empty.
- **chasmd**: the server daemon's stats pipeline (`Chasmd.Daemon`).
  - `collectServerStats` encodes one line per stats record and sends a payload every `BatchSize` records, then a tail payload, then closes the channel.
  - `report` writes each payload and returns its buffer, reset, to the pool.
  - The `stats.workers > 0` start-up check is modelled in `Chasmd.Start`.
  - `Batching` holds the batching rule that `scan` and `collectServerStats` share.

Buffers are byte sequences. Channels are sequences, oldest first, with
their capacity as a precondition where the source would block. Each
goroutine's loop is a method that runs one step at a time. Decoders for the
line format (`Decimal.Parse`, `SeriesKeys.ParseSeriesKey`,
`River.ParseLine`, `River.ParsePoint`) are reference definitions, not part
of the source. Round-trip lemmas tie them to the encoder.

## Model

| member | source | states |
|---|---|---|
| Bytes.Uint64ToInt64 | cmd/chasmd/main.go:108-110 | `int64(u)` of a uint64: the value itself up to 2^63-1, otherwise the negative value 2^64 below it |
| Bytes.Count | chasm/server.go:136 | `bytes.Count` of one byte: at most the length, and zero exactly when the byte does not occur |
| Bytes.CountAppend | chasm/server.go:136 | the count over a concatenation is the sum of the counts |
| Bytes.FramedAppend | cmd/avalanched/main.go:115-116 | framing each line with a newline distributes over concatenation of line lists |
| Bytes.FramedNewlines | cmd/avalanched/main.go:115-116 | framed newline-free lines hold exactly one newline per line |
| Decimal.DigitChar | river/river.go:55 | the digit character of d is a decimal digit whose offset from `0` is d |
| Decimal.DigitValue | river/river.go:55 | the value of a digit character is below 10 and maps back to that character |
| Decimal.DigitsSnoc | river/river.go:55 | the digits of 10n+d (n ≥ 1) are the digits of n followed by d |
| Decimal.TextDigits | river/river.go:55 | `strconv.AppendInt` base 10 text: a leading `-` exactly for negative values, decimal digits otherwise |
| Decimal.DigitsRoundTrip | river/river.go:55 | the digits of n are all digits and read back as n |
| Decimal.TextRoundTrip | river/river.go:55 | the text of every integer reads back as that integer |
| Decimal.ParseNegative | river/river.go:55 | `-` followed by digits reads back as the negated digit value |
| Decimal.ParseNonNegative | river/river.go:55 | a non-empty run of digits reads back as its digit value |
| Decimal.DigitsNoLeadingZero | river/river.go:55 | the text starts with `0` only for zero, and then it is the single byte `0` |
| Decimal.DigitsLength | river/river.go:52-55 | a value below 10^k has at most k digits |
| Decimal.Int64TextLength | river/river.go:52-56 | an int64 takes at most 20 bytes with its sign and 19 without, so text plus newline fits 20 bytes for non-negative time |
| Order.LessIrreflexive | river/series_key.go:18 | no string sorts before itself in `sort.Strings` byte order |
| Order.LessAsymmetric | river/series_key.go:18 | two strings never sort before each other |
| Order.LessTransitive | river/series_key.go:18 | the byte order is transitive |
| Order.LessTotal | river/series_key.go:18 | any two distinct strings are ordered one way or the other |
| Order.LessEqTransitive | river/series_key.go:18 | less-or-equal is transitive |
| Order.LessEqAntisymmetric | river/series_key.go:18 | less-or-equal both ways means equal |
| Order.SortStrings | river/series_key.go:18 | `sort.Strings` in place: the array ends ascending and is a permutation of its old contents |
| Order.SwapDown | river/series_key.go:18 | one exchange of neighbours: the two swap, nothing else moves, contents kept as a multiset |
| Order.InsertLast | river/series_key.go:18 | inserting element i into the ascending prefix leaves a longer ascending prefix, contents kept |
| Order.AscendingUnique | river/series_key.go:18 | two ascending arrangements of the same multiset are equal, so the sorted order does not depend on map iteration order |
| Order.AscendingFirst | river/series_key.go:18 | the head of an ascending sequence is at most every element |
| Order.LeastExists | river/series_key.go:18 | a non-empty set of keys has a least key |
| Order.Least | river/series_key.go:18 | the chosen key is in the set and below every other key |
| Order.SortedKeys | river/series_key.go:14-18 | the keys of a map in strictly ascending order: exactly the keys, each once |
| Order.SortedKeysStep | river/series_key.go:18 | the least key followed by the sorted rest is the sorted whole |
| Order.StrictlyAscendingIsAscending | river/series_key.go:18 | strictly ascending implies ascending |
| Order.SortedKeysUnique | river/series_key.go:18 | any ascending listing of the map's keys is the sorted key list |
| RiverField.Buffer.constructor | river/river.go:38 | a new `bytes.Buffer` is empty |
| RiverField.Buffer.Write | river/river.go:40 | `Write` appends the bytes |
| RiverField.Buffer.WriteByte | river/river.go:41 | `WriteByte` appends one byte |
| RiverField.WriteToBuf | river/field.go:25-80 | `writeToBuf` of each kind appends exactly the field's rendering and keeps what was there |
| RiverField.RenderAfter | river/field.go:25-80 | the name followed by `=` and the value text is the rendering |
| RiverField.BoolRendering | river/field.go:20-33 | a boolean renders as `name=T` or `name=F`, two bytes after the name |
| RiverField.IntRendering | river/field.go:41-52 | an integer renders as `name=`, at most 20 bytes of decimal text that reads back as the value, then `i` |
| RiverField.StringRendering | river/field.go:76-80 | a string renders as `name=value` verbatim, with no quoting or escaping |
| RiverField.DecodeRender | river/field.go:25-80 | every field whose name has no `=` reads back from its rendering, given its kind (floats included, by their text) |
| SeriesKeys.SeriesKey | river/series_key.go:8-29 | the method's buffer ends up holding the measurement followed by `,k=v` per tag in sorted key order |
| SeriesKeys.GatherKeys | river/series_key.go:14-17 | the loop over the map collects each key exactly once |
| SeriesKeys.InAscendingKeyOrder | river/series_key.go:18 | the sorted key slice is the map's sorted key list, and each key is in the map |
| SeriesKeys.WriteTags | river/series_key.go:20-26 | the tag loop appends `,k=v` for each key in the order given |
| SeriesKeys.TagEntries | river/series_key.go:20-26 | one `k=v` entry per key |
| SeriesKeys.TagsSuffixIsJoin | river/series_key.go:20-26 | measurement plus the tag suffix is the measurement and the `k=v` entries joined by commas |
| SeriesKeys.SeriesKeyLayout | river/series_key.go:8-29 | the key starts with the measurement, is the measurement alone for no tags, and lists the tags in strictly ascending key order, each once |
| SeriesKeys.SeriesKeyLength | river/series_key.go:8-29 | the key's length is the measurement's plus 2 + \|k\| + \|v\| per tag |
| SeriesKeys.TagsSuffixLength | river/series_key.go:20-26 | the tag suffix is 2 + \|k\| + \|v\| bytes per tag |
| SeriesKeys.ParseTagEntries | river/series_key.go:20-26 | the `k=v` entries read back as the tags they came from |
| SeriesKeys.EntryDecodes | river/series_key.go:22-25 | an entry splits at its first `=` into key and value when the key has no `=` |
| SeriesKeys.PlainParts | river/series_key.go:20-26 | without commas in the measurement, keys or values, no joined part holds a comma |
| SeriesKeys.SeriesKeyRoundTrip | river/series_key.go:8-29 | a series key reads back as its measurement and tag map when no name or value holds `,` or `=` |
| SeriesKeys.AllKeysMap | river/series_key.go:14-17 | the map rebuilt from all its keys is the map |
| River.Writer.InMemory | river/river.go:59 | an in-memory destination starts with the given contents, takes every write whole and never fails |
| River.Writer.Failing | river/river.go:59-61 | a failing destination takes at most `accepted` bytes of a write and then fails with the given reason |
| River.Writer.Short | river/river.go:59-61 | a destination that takes at most `accepted` bytes of a write and reports no error |
| River.Writer.Taken | river/river.go:59 | a write takes the whole slice, or exactly the limit when the slice is longer |
| River.Writer.Write | river/river.go:59-61 | `Write` returns how many bytes it took, appends exactly those, and reports the destination's error |
| River.Renders | river/river.go:43-49 | one rendering per field |
| River.WriteLine | river/river.go:37-64 | the destination receives the part of the encoded line it takes. The error, prefixed `Error writing line: `, is the destination's own, or `short write` when it took less without one. No error means the whole line arrived; for a fault-free destination the converse holds too |
| River.AssembleLine | river/river.go:38-57 | the local buffer ends up holding the key, a space, the field section, a space, the decimal timestamp and a newline |
| River.WriteFields | river/river.go:43-49 | the field loop appends the field section |
| River.WriteField | river/river.go:44-48 | one turn appends a comma unless it is the first field, then the field's rendering |
| River.FieldsTextSnoc | river/river.go:43-49 | one more field extends the section by a comma, except before the first, and its rendering |
| River.LineShape | river/river.go:40-57 | a line starts with the key and a space and ends with a newline; no fields leaves two spaces; one newline in all when key and fields hold none |
| River.NotInTimestamp | river/river.go:54-55 | the timestamp text holds only digits and `-` |
| River.IntRenderExcludes | river/field.go:41-52 | an integer rendering holds no byte outside its name, `=`, `i`, `-` and digits |
| River.IntFieldsExclude | river/river.go:43-49 | a section of integer fields holds no byte outside their names, `=`, `i`, `-`, digits and `,` |
| River.FieldsInOrder | river/river.go:43-49 | splitting the section at commas gives the renderings in caller order, with one comma fewer than fields |
| River.JoinCommaCount | river/river.go:44-46 | joining n comma-free parts puts exactly n-1 commas in |
| River.LineRoundTrip | river/river.go:40-57 | a line splits back into its series key, field section and timestamp |
| River.BodyRoundTrip | river/river.go:40-57 | key, section and time text separated by spaces read back when key and time hold no space |
| River.ParseBodyAt | river/river.go:40-57 | the body splits at the first and last space into its three parts |
| River.BodySlices | river/river.go:40-57 | the three slices between the spaces are the key, the section and the time text |
| River.Kinds | river/field.go:10-12 | one kind per field |
| River.DecodeFieldsSnoc | river/river.go:43-49 | decoding one more part extends the decoded fields by it |
| River.DecodeRenders | river/river.go:43-49 | the renderings decode back to the fields |
| River.PointRoundTrip | river/river.go:37-64 | a line reads back as its series key, its fields in order and its time |
| RiverExample.KeySet | river/river_test.go:14 | the example's tag keys are `building` and `room` |
| RiverExample.KeyOrder | river/river_test.go:14-24 | `building` sorts before `room` |
| RiverExample.TagsSuffix | river/river_test.go:14-24 | the tag suffix is `,building=b1,room=r1` |
| RiverExample.SeriesKey | river/river_test.go:14-24 | the series key is `rooms,building=b1,room=r1` |
| RiverExample.Render0 | river/river_test.go:17 | `lights=T` |
| RiverExample.Render1 | river/river_test.go:18 | `occupants=3i` |
| RiverExample.Render2 | river/river_test.go:19 | `temp_f=72.5` |
| RiverExample.Render3 | river/river_test.go:20 | `meeting_name=bikeshed` |
| RiverExample.Section1 | river/river_test.go:16-24 | the section of the first field |
| RiverExample.Section2 | river/river_test.go:16-24 | the section of the first two fields |
| RiverExample.Section3 | river/river_test.go:16-24 | the section of the first three fields |
| RiverExample.Section | river/river_test.go:16-24 | the full field section of the test |
| RiverExample.Digits7 | river/river_test.go:21 | the digits of the timestamp's first seven places |
| RiverExample.Digits13 | river/river_test.go:21 | the digits of its first thirteen places |
| RiverExample.TimestampText | river/river_test.go:21-24 | the timestamp renders as `1435362189575692182` |
| RiverExample.WriteLine | river/river_test.go:11-30 | the test's call writes exactly the expected line, without error |
| BufferPool.Pool.constructor | trail/trail.go:78-82 | a new pool holds no buffers |
| BufferPool.Pool.Get | trail/trail.go:45 | `Get` returns the last buffer put, or a fresh empty one; from a pool of empty buffers it returns an empty one |
| BufferPool.Pool.Put | trail/trail.go:72 | `Put` keeps the buffer as it is, so a buffer that is not empty stays not empty |
| Trails.Trail.constructor | trail/trail.go:25-38 | `New`: queue capacity is the number of writers, nothing queued, open buffer from the pool |
| Trails.Trail.WriteLine | trail/trail.go:59-65 | appends exactly the encoded line to the open buffer, also after `Close`; nothing is queued |
| Trails.Trail.Flush | trail/trail.go:42-47 | queues the open buffer, even an empty one, last, and opens a buffer from the pool |
| Trails.Trail.Deliver | trail/trail.go:67-76 | a writer takes the oldest payload and returns its buffer to the pool unreset. Delivered, then queued, then the open buffer stays what was written |
| Trails.Trail.DeliverAndReset | trail/trail.go:67-76 | the same turn with the buffer reset before it goes back, keeping the pool empty-only |
| Trails.Trail.Close | trail/trail.go:51-55 | a last flush, then the writers take every queued payload in order and return each buffer to the pool unreset. If the pool held only empty buffers before the close, afterwards everything written has been delivered, in order |
| TrailScenarios.WriteAll | trail/trail.go:59-65 | a run of `WriteLine` calls appends the lines in call order and queues nothing |
| TrailScenarios.WriteThenFlush | trail/trail.go:42-65 | a run of lines and one flush queues the old buffer plus every line, in order |
| TrailScenarios.TestLineText | trail/trail_test.go:17-25 | the test's line encodes as `cpu,host=h1 usage=99i 123` and a newline |
| TrailScenarios.FlushExample | trail/trail_test.go:12-29 | one line, one flush: the writer receives exactly that line |
| TrailScenarios.RoundAsWritten | trail/trail.go:67-76 | as written, one round delivers the open buffer's old bytes followed by the line, reopens the buffer the pool returned last, and pools the delivered one unreset |
| TrailScenarios.Resend | trail/trail.go:72 | as written, the third payload repeats the first line before the third |
| TrailScenarios.RoundWithReset | trail/trail.go:67-76 | with the reset, one round delivers the line alone and leaves the pool empty-only |
| TrailScenarios.NoResend | trail/trail.go:67-76 | with the reset, three rounds deliver each line once |
| Chasm.Peek | chasm/server.go:128 | `PeekBytes`: the value of the first argument named by the key, wherever it is; empty when no argument has that name |
| Chasm.Decide | chasm/server.go:116-138 | 404 exactly off `/write`; 405 exactly for non-POST on it; 400 with `database is required` exactly for a missing or empty `db`; 204 otherwise |
| Chasm.Accepted | chasm/server.go:134-136 | an accepted body adds its length and its newline count, zero exactly when it has no newline |
| Chasm.Server.constructor | chasm/server.go:40-55 | a new server's counters are zero |
| Chasm.Server.Handle | chasm/server.go:116-138 | every request is counted; bytes and lines grow only on 204, by the body's length and newlines; counters never decrease |
| Chasm.FramedBodyLines | chasm/server.go:134-136 | a body of newline-terminated lines counts one line per line |
| ChasmScenarios.HTTPWriteTable | chasm/server_test.go:12-56 | the table's three requests get 204, 400 and 405; all three are counted, and only the first body's 5 bytes |
| ChasmScenarios.Repeat | benchmark_test.go:23 | n copies of the line |
| ChasmScenarios.RepeatedWrites | benchmark_test.go:32-48 | n accepted writes add n times the batch's bytes and lines |
| Batching.Width | cmd/avalanched/main.go:118-119 | a batch is cut at the batch size, or at every item when the size is 1 or less |
| Batching.ConcatAppend | cmd/avalanched/main.go:113-133 | concatenation distributes over appending batch lists |
| Batching.ChunksConcat | cmd/avalanched/main.go:113-133 | the batches put back together are the input: nothing lost, repeated or reordered |
| Batching.ChunksSizes | cmd/avalanched/main.go:118-133 | no batch is empty; all but the last hold the batch size; the last holds 1 to the batch size |
| Batching.ChunksOfOne | cmd/chasmd/main.go:95-117 | with a batch size of 1 or less every item is its own batch |
| Batching.WholeGrows | cmd/avalanched/main.go:118-123 | one more full batch keeps a run of whole batches whole |
| Batching.ChunksAppend | cmd/avalanched/main.go:118-123 | whole batches followed by more input cut the same as cut separately |
| Batching.ChunksSnoc | cmd/avalanched/main.go:118-123 | whole batches then one more batch of n items adds that batch |
| Batching.ChunksMembers | cmd/avalanched/main.go:113-133 | every item of every batch comes from the input |
| Avalanched.Framings | cmd/avalanched/main.go:115-120 | one buffer per batch |
| Avalanched.FlattenFramings | cmd/avalanched/main.go:113-133 | the buffers back to back are the framed lines of the batches |
| Avalanched.BatchesFlatten | cmd/avalanched/main.go:113-133 | all batches back to back are every input line followed by a newline, in order |
| Avalanched.BatchSizes | cmd/avalanched/main.go:118-133 | batches exist exactly for non-empty input; none is empty; with newline-free lines all but the last hold `linesPerBatch` lines and the last 1 to that many |
| Avalanched.BatchesOfOne | cmd/avalanched/main.go:118-119 | with `linesPerBatch` of 1 or less each line is sent alone |
| Avalanched.StatFields | cmd/avalanched/main.go:142-159 | the stats fields are `latNs` (int), `ok` (bool), `payloadBytes` (int), in that order |
| Avalanched.StatNamesPlain | cmd/avalanched/main.go:142-144 | the stats field names hold neither `=` nor `,` |
| Avalanched.StatFieldsPlain | cmd/avalanched/main.go:142-145 | every stats field renders without a comma and with a plain name |
| Avalanched.StatLineReadsBack | cmd/avalanched/main.go:155-160 | a stats line reads back as latency, success and payload size at its timestamp |
| Avalanched.Daemon.constructor | cmd/avalanched/main.go:28-47 | at start nothing is queued, sent or recorded, and the stats buffer is empty |
| Avalanched.Daemon.Scan | cmd/avalanched/main.go:108-137 | the batch channel gains exactly the input's batches in order; the sent-plus-queued stream stays the framed input |
| Avalanched.Daemon.SendBatch | cmd/avalanched/main.go:120-122 | a full buffer is queued and an empty one taken from the pool |
| Avalanched.Daemon.ScanFullBatches | cmd/avalanched/main.go:113-124 | the reading loop queues the whole batches and leaves fewer than `linesPerBatch` lines, framed, in the buffer |
| Avalanched.Daemon.ScanOne | cmd/avalanched/main.go:115-123 | one line is framed into the buffer, and a full buffer is sent |
| Avalanched.Daemon.ProcessBatch | cmd/avalanched/main.go:140-168 | the oldest batch is written, one stats line with its latency, success and size is recorded, and the buffer goes back reset |
| Avalanched.Daemon.RecordStat | cmd/avalanched/main.go:155-161 | appends exactly one encoded stats line to the stats buffer |
| Avalanched.Daemon.FlushStats | cmd/avalanched/main.go:189-212 | an empty stats buffer changes nothing; otherwise its exact contents are sent and a new buffer opened, and no stats line is lost |
| Avalanched.FramedSnoc | cmd/avalanched/main.go:115-116 | framing one more line appends it and a newline |
| Avalanched.ScanKeepsOrder | cmd/avalanched/main.go:113-133 | queuing the batches of more input keeps sent-plus-queued equal to the framed input so far |
| Avalanched.AppendKeepsOrder | cmd/avalanched/main.go:113-133 | queuing buffers that hold the framed new input keeps that equality |
| Avalanched.SendFull | cmd/avalanched/main.go:118-123 | a send at the batch size adds exactly the next batch |
| Avalanched.ScanTail | cmd/avalanched/main.go:131-133 | sending the tail only when it holds lines completes the batches |
| Avalanched.SendTail | cmd/avalanched/main.go:131-133 | the tail is the last batch |
| Chasmd.RecordFieldsShape | cmd/chasmd/main.go:98-110 | fields `bytes`, `ingestLatNs`, `lines`, all int, in that order, with values converted by `int64(...)` |
| Chasmd.LinesOf | cmd/chasmd/main.go:107-114 | one stats line per record |
| Chasmd.Flattens | cmd/chasmd/main.go:116-121 | one payload per batch of lines |
| Chasmd.FlattenSnoc | cmd/chasmd/main.go:114 | one more line extends the open buffer by it |
| Chasmd.FlattenChunks | cmd/chasmd/main.go:107-127 | the payloads back to back are the lines back to back |
| Chasmd.PayloadsFlatten | cmd/chasmd/main.go:107-127 | nothing lost or reordered: the payloads together are every stats line in order |
| Chasmd.RecordFieldsNoNewline | cmd/chasmd/main.go:98-114 | a stats record's fields hold no newline |
| Chasmd.RecordLineNewlines | cmd/chasmd/main.go:114 | each stats line holds exactly one newline |
| Chasmd.FlattenNewlines | cmd/chasmd/main.go:114-121 | lines of one newline each give as many newlines as lines |
| Chasmd.PayloadSizes | cmd/chasmd/main.go:116-127 | payloads exist exactly for some records; each holds 1 to `BatchSize` lines, all but the last exactly `BatchSize` |
| Chasmd.PayloadsOfOne | cmd/chasmd/main.go:95-117 | `BatchSize` is not checked: at 1 or less every record's line is a payload of its own |
| Chasmd.RecordLineReadsBack | cmd/chasmd/main.go:107-114 | a stats line reads back as the record's three values at its time |
| Chasmd.RecordNamesPlain | cmd/chasmd/main.go:98-100 | the field names hold neither `=` nor `,` |
| Chasmd.Start | cmd/chasmd/main.go:56-60 | a non-positive `stats.workers` stops start-up; otherwise the channel has one slot per worker and is empty |
| Chasmd.SendFull | cmd/chasmd/main.go:116-121 | a send at the batch size adds exactly the next batch's lines as one payload |
| Chasmd.SendTail | cmd/chasmd/main.go:124-127 | the tail lines are the last payload |
| Chasmd.CollectTail | cmd/chasmd/main.go:124-127 | sending the tail only when `curLines > 0` completes the payloads |
| Chasmd.CollectKeepsOrder | cmd/chasmd/main.go:107-127 | queuing the payloads of more lines keeps reported-plus-queued equal to the lines written |
| Chasmd.Daemon.constructor | cmd/chasmd/main.go:56-60 | an empty payload channel with `stats.workers` slots, nothing written or reported |
| Chasmd.Daemon.Collect | cmd/chasmd/main.go:92-132 | the channel gains exactly the payloads of the records' lines, then is closed |
| Chasmd.Daemon.CollectLines | cmd/chasmd/main.go:92-132 | the same, given the lines the records encode to |
| Chasmd.Daemon.CollectFullBatches | cmd/chasmd/main.go:107-122 | the loop queues the full payloads and leaves fewer than `BatchSize` lines in the buffer |
| Chasmd.Daemon.CollectOne | cmd/chasmd/main.go:108-121 | one record's line is written, and a full buffer is sent |
| Chasmd.Daemon.WriteRecord | cmd/chasmd/main.go:108-114 | the buffer gains exactly the record's stats line |
| Chasmd.Daemon.SendPayload | cmd/chasmd/main.go:118-120 | the buffer is queued and an empty one taken from the pool |
| Chasmd.Daemon.Report | cmd/chasmd/main.go:166-177 | a worker writes the oldest payload and returns its buffer reset |
| Chasmd.Daemon.Drain | cmd/chasmd/main.go:166-177 | after the close the workers write every payload; what they wrote is every stats line in order |

## Left out

- Goroutines, the mutexes and the WaitGroups are left out. Each loop runs one step at a time, and the lock is implicit.
- Signal handling and the three-second shutdown deadline are left out (cmd/avalanched/main.go:214-249, cmd/chasmd/main.go:134-152). `main`'s flag and config handling is left out too.
- Trails.Trail.Flush: a full channel blocks the caller. The model instead requires a free slot (`|payloads| < capacity`) and does not model the blocking. `Trails.Trail.Close` is treated the same way, since it begins with a flush.
- Avalanched.Daemon.Scan: the batch channel is an unbounded sequence, since blocking on it only delays the scanner.
- Chasmd.Daemon.Collect: the same holds for the payload channel.
- `sync.Pool` returns an arbitrary pooled buffer or drops buffers. The model is a LIFO list that never drops a buffer. The finding below holds whenever the pool hands a delivered buffer back to `Flush`. If the pool drops that buffer, or returns a fresh one from `New`, nothing is sent twice.
- Floating-point formatting (`strconv.AppendFloat`) is left out. A `Float64` is represented by the text it formats to.
- Chasm.Server.Handle: the uint64 counters are unbounded naturals. Wrap-around at 2^64 is left out.
- Time is a parameter: `time.Now()` timestamps and write latencies are arguments.
- The destination of `River.WriteLine` takes the same share of every write and reports the same error on every write, fixed when it is made. A writer that varies from call to call is not modelled; `WriteLine` makes one write per call. Writer errors elsewhere are parameters. The HTTP writers (avalanche/http_writer.go, avalanche/writer.go) are not part of this model. The writers' error channel in trail/trail.go is not either.
- `bufio.Scanner`'s line splitting is left out: `\r` stripping, the token size limit and its read error. `scan` receives the lines already split.
- cmd/chasmd/config.go (TOML decoding, the series-key template) is not part of this model.
- cmd/chasmd/main.go uses `stats.IngestLatency`, `stats.Time` and a three-result `chasm.NewServer`. chasm/server.go has none of these: its `NewServer` returns two results and its `Stats` has three counters. So the stats record is an abstract record of four values (`Chasmd.StatsRecord`), and the code is followed where the two disagree.
- Avalanched.Daemon.ProcessBatch requires the batch length to fit an int64 (`int64(batch.Len())`). A Go buffer's length always does.
- Trails.Trail.constructor: a trail with zero writers can never flush. The model allows it, but `Flush` then has no slot.
- examples/simple_generator and the benchmarks' timing are left out. Only the benchmark's counter check is modelled (`ChasmScenarios.RepeatedWrites`).

## Findings

| source | as written | input that shows it | evidently intended | confidence | as-written member | corrected member |
|---|---|---|---|---|---|---|
| trail/trail.go:72 | the writers' loop returns a delivered buffer to the pool without `Reset`, and `Flush` later takes it back as the open buffer | one writer: line e1, Flush, deliver; line e2, Flush, deliver; line e3, Flush, deliver. The third payload is e1 followed by e3, so e1 is sent twice | reset the buffer before `bufPool.Put`, as cmd/avalanched/main.go:164 and cmd/chasmd/main.go:172 do, so that every line is sent once | not executed | TrailScenarios.Resend | TrailScenarios.NoResend |
