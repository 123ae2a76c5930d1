# Pi palindrome search — a verified model

The program searches the digits of pi for long palindromes, looking for palindromic primes. It has three parts:

- **Scan.** `cmd/pi-processor` cuts the digit stream into chunks of 100 000 000 digits. Every task whose counter is not 0 starts 1000 digits before its chunk. Each task seeks a digit reader to its start, copies 100 000 000 digits from there and scans them around every centre. For every odd-length palindrome of 17 digits or more that starts at index 2 or later of the chunk, it writes a line `"<chunk start>, <centre>, <text>, <length> \n"`.
- **Reader.** The digit reader turns a catalog of stored blocks into one stream of digit characters. Each block holds packed 8-byte words, and only the first `BlockSize` digits of a block count. The stream is cut at the catalog's non-zero `TotalDigits`. The reader's own source is not part of this model. Its behaviour is the one that `pkg/unpack/reader_test.go` pins down with its vectors and call sequences.
- **Post-processing.** `result_processor.rb` reads the scan's lines back and parses each one. It keeps the candidates of at least 25 digits whose last digit is not 0, 2, 4, 5, 6 or 8. It turns each kept candidate into a one-based position in pi, checks it against a digits service, and prints the candidates by size, largest first.

The model has one module per component:

- `Numerals`: digit characters and base-10 rendering (Go's `toString`).
- `WordCodec`: little-endian words decoded to 19 decimal or 16 hex digits.
- `DigitStream`: blocks and the stream a catalog denotes.
- `DigitReader`: a class `Reader` with a cursor, and `Read`, `ReadAt` and `Seek`.
- `GoIo`: `io.ReadAll` and `io.ReadFull` driven over the reader.
- `UnpackTest`, `BoundaryTest` and `TestVectors`: the two unpack tests' call sequences and their concrete vectors.
- `Scanner`: `FindCandidates`.
- `Scheduler`: the task loop in `main`.
- `Pipeline`: `process`, a whole run, and the chunk-boundary proof.
- `ResultProcessor`: the Ruby script, including `split`, `to_i` and `strip`.
- `LineFormat`: the round trip from a written line to its parsed candidate.

The methods are proved against specification functions:

- `FindCandidates` returns `CandidateLines`.
- The reader's methods state the new cursor and the digits copied from `Stream(blocks)`.
- `Collect` returns `Collected` over all lines.

The lemmas then state what the source promises about those functions.

**Word format.** Words are 8-byte little-endian unsigned integers of 19 decimal or 16 hex digits, as the unpack tests show. For example, bytes `d3 08 a3 85 88 6a 3f 24` decode to `243f6a8885a308d3`.

## Model

| member | source | states |
|---|---|---|
| Numerals.NatDecimalValue | cmd/pi-processor/main.go:116-123 | The base-10 rendering of `n` is non-empty and all decimal digits. It starts with '0' only for 0, and it reads back as `n`. |
| Numerals.DecimalOfValue | cmd/pi-processor/main.go:116-123 | Every canonical decimal numeral is the rendering of its own value. This is the inverse direction of the rendering. |
| WordCodec.HexWordsAlwaysFit | pkg/unpack/reader_test.go:331-396 | Every 8-byte little-endian word is a valid hex word (2^64 = 16^16). |
| WordCodec.DecodeWord | pkg/unpack/reader_test.go:331-419 | A word decodes to exactly 19 decimal or 16 hex digits. |
| WordCodec.DecodeWordRoundTrip | pkg/unpack/reader_test.go:237-309 | A word's decoding has fixed width and only radix digits. Read back most-significant first in the radix, it is the word's value. |
| WordCodec.DecodeWordOnto | pkg/unpack/reader_test.go:237-309 | Every fixed-width digit string is the decoding of a word that fits. |
| WordCodec.DecodeWordInjective | pkg/unpack/reader_test.go:331-419 | Distinct word values decode to distinct digit strings. |
| WordCodec.DigitsValue | pkg/unpack/reader_test.go:304-309 | The last `n` base-`radix` digits of a value below radix^n read back as that value. |
| WordCodec.ValueDigits | pkg/unpack/reader_test.go:398-419 | Every `n`-digit string has a value below radix^n, and its rendering is the string itself. |
| DigitStream.BlockDigits | pkg/unpack/reader_test.go:138-147 | A block contributes exactly `BlockSize` digits, the first of its decoded words. |
| DigitStream.WordDigitsAt | pkg/unpack/reader_test.go:101-109 | Digit `q` of a block's words is digit `q % dpw` of the decoding of word `q / dpw`. |
| DigitStream.OffsetNext | pkg/unpack/reader_test.go:138-183 | Block `k + 1` starts where block `k` starts plus `k`'s block size. |
| DigitStream.OffsetMonotone | pkg/unpack/reader_test.go:138-183 | Block start offsets never decrease along the catalog. |
| DigitStream.StreamAt | pkg/unpack/reader_test.go:220-223 | Stream digit `p`, which lies `q` digits into block `k`, is digit `q % dpw` of word `q / dpw` of that block. |
| DigitStream.BlockDigitsInRadix | pkg/unpack/reader_test.go:138-147 | A block contributes only digits of its own radix. |
| DigitStream.StreamAllDigits | pkg/unpack/reader_test.go:134-183 | The stream of a catalog whose blocks share one radix consists of digits of that radix. |
| DigitStream.SingleBlockStream | pkg/unpack/reader_test.go:52-64 | A block that declares no total and covers all its words streams exactly its words' decodings in order. |
| DigitReader.StreamSize | pkg/unpack/reader_test.go:171-183 | The loop over the catalog finds the stream's length: the sum of the block sizes, or the last non-zero `TotalDigits`. |
| DigitReader.Locate | pkg/unpack/reader_test.go:220-223 | The block holding stream digit `p`, and that block's start offset. |
| DigitReader.DigitAt | pkg/unpack/reader_test.go:115-118 | The digit at `p`, decoded from its word, is stream digit `p`. |
| DigitReader.CopyOut | pkg/unpack/reader_test.go:115-118 | The buffer's first `n` cells receive stream digits `from .. from + n`, and the rest are untouched. |
| DigitReader.Reader.constructor | pkg/unpack/reader_test.go:85-86 | A new reader serves the catalog's stream with its cursor at 0. |
| DigitReader.Reader.Read | pkg/unpack/reader_test.go:90-109 | Reads `min(len(buf), digits left)` at the cursor and advances it by that many. An empty buffer reads 0 with no error; a non-empty one at the end reports end of stream. |
| DigitReader.Reader.ReadAt | pkg/unpack/reader_test.go:115-118 | Reads at an absolute offset and leaves the cursor alone. A short read reports end of stream; a negative offset is refused. |
| DigitReader.Reader.Seek | pkg/unpack/reader_test.go:111-113 | Seeking from the start moves the cursor to the offset and returns it. A negative offset is refused and the cursor stays. |
| GoIo.ReadAll | pkg/unpack/reader_test.go:120-123 | Draining returns every digit from the cursor to the end, and leaves the cursor at the end. |
| GoIo.ReadFull | pkg/unpack/reader_test.go:225-228 | Reads `min(size, digits left)` digits from the cursor. It reports the buffer filled, nothing read, or a partial read. |
| UnpackTest.OpeningReads | pkg/unpack/reader_test.go:90-109 | An empty read returns 0 with no error. Then a one-word read returns the first `dpw` digits, and two one-digit reads return the next two. |
| UnpackTest.ReadOne | pkg/unpack/reader_test.go:101-104 | A one-digit read returns the digit at the cursor, even in the middle of a word, and advances the cursor by one. |
| UnpackTest.RewindAndDrain | pkg/unpack/reader_test.go:111-129 | Seeking to 0 returns 0, and `ReadAt(10, 0)` returns the first 10 digits. Then the drain, and a drain after a second seek, both return the whole stream. |
| UnpackTest.UnpackSequence | pkg/unpack/reader_test.go:35-132 | On a fresh reader over any catalog, the single-block test's whole call sequence returns exactly the digits each of its asserts expects. |
| TestVectors.Dec0Decodes | pkg/unpack/reader_test.go:238 | Bytes `60 e2 3e b8 ae 61 a6 13` decode to `1415926535897932384`. |
| TestVectors.Dec1Decodes | pkg/unpack/reader_test.go:238 | The second decimal word decodes to `6264338327950288419`. |
| TestVectors.Hex0Decodes | pkg/unpack/reader_test.go:332 | Bytes `d3 08 a3 85 88 6a 3f 24` decode to `243f6a8885a308d3`. |
| TestVectors.Hex1Decodes | pkg/unpack/reader_test.go:332 | The second hex word decodes to `13198a2e03707344`. |
| TestVectors.Bnd0Decodes | pkg/unpack/reader_test.go:422 | Word 0 of the boundary catalog decodes to `1415926535897932384`. |
| TestVectors.Bnd1Decodes | pkg/unpack/reader_test.go:423 | Bytes `00 0f 58 f3 84 66 ef 56` decode to `6264338327900000000`. |
| TestVectors.Bnd2Decodes | pkg/unpack/reader_test.go:425 | Word 2 of the boundary catalog decodes to `5028841971693993751`. |
| TestVectors.Bnd3Decodes | pkg/unpack/reader_test.go:426 | Word 3 of the boundary catalog decodes to `0582097494400000000`. |
| TestVectors.Bnd4Decodes | pkg/unpack/reader_test.go:428 | Word 4 of the boundary catalog decodes to `5923078164062862089`. |
| TestVectors.Bnd5Decodes | pkg/unpack/reader_test.go:429 | Word 5 of the boundary catalog decodes to `9862803482500000000`. |
| TestVectors.Bnd6Decodes | pkg/unpack/reader_test.go:431 | Word 6 of the boundary catalog decodes to `3421170679000000000`. |
| TestVectors.TwoWordBlock | pkg/unpack/reader_test.go:138-147 | A two-word block contributes the first `BlockSize` digits of its two words' decodings. |
| TestVectors.TwoWordBlockCut | pkg/unpack/reader_test.go:141-143 | A two-word block that ends inside its second word contributes the first word and only the head of the second. |
| TestVectors.OneBlockStream | pkg/unpack/reader_test.go:52-64 | A one-block catalog that declares no total streams that block's digits. |
| TestVectors.DecimalTwoWords | pkg/unpack/reader_test.go:304-305 | The decimal single-block vector, cut to its first two words, streams `14159265358979323846264338327950288419`. |
| TestVectors.HexTwoWords | pkg/unpack/reader_test.go:398-399 | The hex single-block vector, cut to its first two words, streams `243f6a8885a308d313198a2e03707344`. |
| TestVectors.DecimalBlockSizeCuts | pkg/unpack/reader_test.go:138-147 | An illustration of the truncation rule the boundary blocks use: a block size that is not a multiple of 19 cuts the last word: 25 digits give 19 of the first word and 6 of the second. |
| TestVectors.BoundaryPieces | pkg/unpack/reader_test.go:421-434 | Each boundary block contributes only its first 30 digits, whatever word is stored last. |
| TestVectors.FourBlocks | pkg/unpack/reader_test.go:138-183 | Four blocks contribute their digits in catalog order. |
| TestVectors.BoundaryStream | pkg/unpack/reader_test.go:171-183 | The boundary catalog streams exactly the first 100 digits, whatever its last word holds. The total of 100 cuts block 3 after 10 digits, so the dummy word is ignored. |
| TestVectors.BoundaryCatalogStream | pkg/unpack/reader_test.go:432 | With the test's word of zeros, the boundary catalog streams exactly the first 100 digits. |
| BoundaryTest.BoundarySequence | pkg/unpack/reader_test.go:134-235 | On the boundary catalog, `ReadAt` of 100, `ReadFull` of 100, and a seek and drain all return the first 100 digits. A further read returns 0 and end of stream. |
| Scanner.Expand | cmd/pi-processor/main.go:104-106 | The inner loop stops at the first half-width `q >= p` whose ring is out of range or mismatched. Every ring in `[p, q)` matched. |
| Scanner.ExpandSkip | cmd/pi-processor/main.go:102-106 | Starting the growth at a later half-width whose inner rings all match ends at the same place. |
| Scanner.Reach | cmd/pi-processor/main.go:108-109 | An emitting centre's half-width is above 8 and below the centre, and its palindrome lies inside the chunk. |
| Scanner.Centres | cmd/pi-processor/main.go:99-108 | The emitting centres below `k`, strictly increasing, all of them and only they. |
| Scanner.Grow | cmd/pi-processor/main.go:102-106 | The loop's final `pLen` is the growth `Expand(s, i, ps)`. |
| Scanner.FindCandidates | cmd/pi-processor/main.go:96-114 | The scan writes exactly one line per emitting centre, in increasing centre order. |
| Scanner.EmittedIsWritten | cmd/pi-processor/main.go:108-111 | Every emitting centre's line is among the lines the scan writes. |
| Scanner.EmittedShape | cmd/pi-processor/main.go:108-111 | The emitted text is `s[i-q+1 .. i+q]` and starts at index 2 or later. It has odd length `2q - 1 >= 17`, and it cannot be grown inside the chunk. |
| Scanner.EmittedPalindrome | cmd/pi-processor/main.go:102-109 | Started from half-width 1, which every task sets, the emitted text reads the same backwards. |
| Scheduler.MakeTasks | cmd/pi-processor/main.go:178-198 | The loop sends one task per counter `first, first + C, ...` below the total, in order. |
| Scheduler.ScheduleFromZero | cmd/pi-processor/main.go:178-192 | Counting from 0: task `k` has id `kC` and starts at `kC - 1000`, except task 0, which starts at 0. There are exactly enough tasks to pass the total. |
| Scheduler.AsWrittenSpans | cmd/pi-processor/main.go:72 | Reading CHUNK_SIZE from each task's start, only tasks 0 and 1 overlap, by 1000. From then on each task begins exactly where the one before it ends. |
| Scheduler.AsWrittenGap | cmd/pi-processor/main.go:72 | With three chunks, no task as written reads the 20 digits around `2C - 1000`. |
| Scheduler.CorrectedCoverage | cmd/pi-processor/main.go:178-192 | With reads ending at each task's own chunk end, every window of at most 1000 digits lies whole in some task's digits. |
| Scheduler.CoveringTask | cmd/pi-processor/main.go:178-192 | The index of such a covering task. |
| Pipeline.Process | cmd/pi-processor/main.go:61-94 | Processing a task gives one of three outcomes. A negative start fails at the seek. A copy past the stream's end fails (the program exits). Otherwise it gives the lines the scan writes for that slice of the stream. |
| Pipeline.CopiedDigits | cmd/pi-processor/main.go:72-75 | A copy is full exactly when the stream holds `count` digits past the start. A full copy is that slice of the stream. |
| Pipeline.CorrectedCount | cmd/pi-processor/main.go:186-192 | A scheduled task reading to its own chunk end copies `C` digits for task 0 and `C + 1000` for every later task. |
| Pipeline.Run | cmd/pi-processor/main.go:178-198 | A run schedules the tasks from `first` and processes them in order, each copying CHUNK_SIZE digits from its start. Outcome `k` is what task `k` yields. Every outcome but the last wrote its lines, and the run stops early only at a failure. |
| Pipeline.RunStep | cmd/pi-processor/main.go:186-193 | After tasks that all wrote their lines, appending the next task's CHUNK_SIZE outcome keeps the outcomes those of the first tasks. |
| Pipeline.RingInChunk | cmd/pi-processor/main.go:104 | A ring inside a chunk compares the same two digits as in the whole stream. |
| Pipeline.ExpandInChunk | cmd/pi-processor/main.go:104-106 | A palindrome whose mismatch lies inside a chunk grows in the chunk exactly as far as in the stream. |
| Pipeline.ReportedInChunk | cmd/pi-processor/main.go:108-109 | A chunk holding a stream palindrome with one spare digit on each side emits its centre with the same text. |
| Pipeline.TaskReports | cmd/pi-processor/main.go:88 | A task whose corrected read holds the palindrome with its spare digits reports it. |
| Pipeline.NoPalindromeLost | cmd/pi-processor/main.go:178-192 | The corrected schedule loses no palindrome at a chunk boundary. This holds for every stream centre whose palindrome (half-width 9 or more, plus a digit on each side) fits in 1000 digits. Some task emits that centre with the same palindrome text. |
| ResultProcessor.Insert | result_processor.rb:27 | Inserting into a list sorted by size, largest first, keeps it so sorted and adds exactly that candidate. |
| ResultProcessor.SortBySize | result_processor.rb:27 | The candidates sorted by size, largest first, as a permutation of the input. |
| ResultProcessor.Collect | result_processor.rb:3-25 | The loop over the files collects exactly the kept candidates of all lines in order, or stops at the first line that raises. |
| ResultProcessor.CollectFile | result_processor.rb:7-24 | The loop over one file's lines extends what the earlier lines collected, line by line. |
| ResultProcessor.FlattenPrefix | result_processor.rb:4-7 | The lines of the first files are a prefix of all lines. |
| ResultProcessor.CollectedNonePrefix | result_processor.rb:7-10 | Once a line raises, the whole script raises. |
| ResultProcessor.Report | result_processor.rb:3-27 | The script prints every kept candidate exactly once, by size, largest first. A line that raises means nothing is printed. |
| LineFormat.FieldsOfJoin | result_processor.rb:9 | Splitting a comma-free field, a comma and the rest gives that field followed by the rest's fields. |
| LineFormat.SplitFour | result_processor.rb:9 | Four comma-free fields joined by commas, the last non-empty, split back into exactly those four. |
| LineFormat.SplitLine | cmd/pi-processor/main.go:111 | A written line splits on ',' into the start, the centre, the spaced text and the spaced length. |
| LineFormat.ToIDecimal | result_processor.rb:11 | `to_i` reads back the rendering of any integer, preceded by one space or none and followed by a space or nothing. |
| LineFormat.StripPal | result_processor.rb:12 | `strip` of a space followed by the palindrome digits gives the digits. |
| LineFormat.LineRoundTrip | result_processor.rb:9-18 | Parsing a line the scan writes never raises. It is kept exactly when the palindrome has at least 25 digits and its last digit is not excluded. It then recovers the length and the text, and the position is one plus the stream offset of the palindrome's first digit. |
| LineFormat.ValidatedAgainstStream | result_processor.rb:19-21 | A service that returns pi's digits, with the 3 at index 0, confirms every emitted palindrome at the parsed position. |
| LineFormat.ScanOutputParses | result_processor.rb:7-10 | A run over lines the scan wrote never raises. |
| LineFormat.LastLineParses | result_processor.rb:9-10 | No single line the scan wrote raises. |
| LineFormat.CandidateLinesParse | result_processor.rb:3-24 | The script never raises on a scan's whole output. |
| LineFormat.TaskOutputParses | cmd/pi-processor/main.go:61-94 | Whatever a task writes from a decimal catalog, the script parses without raising. |

## Left out

- Remote storage, mocks and the cached reader are not part of this model. This covers the GCS client, bucket and object handles, ranged readers, the ycd file headers and `FirstDigitOffset`. They are remote I/O and foreign libraries. The reader works directly on the catalog's decoded words.
- The reader's implementation file is not part of this model. `DigitReader.Reader` is the contract the tests fix. The reader's one-word decode cache is an optimisation with no visible effect here, so it is not modelled.
- `Seek` whence values other than `io.SeekStart`, and seeks relative to the cursor, are not modelled. The tests use only `SeekStart`.
- WordCodec.DecodeWord: decimal words with a value of 10^19 or more are not decodable in the model (`Fits` is required). The tests never store one.
- Error values for reads past the end are modelled as the three `Status` values: `Ok`, end of stream and invalid offset. The exact Go error values are not modelled.
- `iotest.TestReader` (`pkg/unpack/reader_test.go:129`, `234`) is a foreign test harness, so it is not modelled. The drains in `RewindAndDrain` and `BoundarySequence` state what it checks: the same stream again.
- TestVectors: only the first two words of each 128-word single-block vector are decoded concretely. The general lemmas (`SingleBlockStream`, `DecodeWordRoundTrip`) cover the whole block.
- Goroutines, the `sync.WaitGroup`, the task channel, `WORKERS` and context cancellation (`main.go:125-151`, `170-200`) are not modelled. Their point is concurrency. `Pipeline.Run` processes the tasks one after another in counter order.
- The retry with exponential backoff is not modelled. It is a foreign library with timing behaviour. A failed copy exits the program before any retry (`main.go:72-75`): this is `Outcome.CopyFailed`.
- Pipeline.Run: a run ends at the first failed task. A short copy exits the program. A refused seek fails every retry in the same way and then cancels the run. In the concurrent program, tasks already handed to other workers may still finish after that point; the sequential model does not produce their outcomes.
- Output files, `fmt.Fprintf` to them, zap logging and flag parsing are not modelled. Written lines are modelled as a returned `seq<string>`, and the `-s` flag as `Run`'s parameter `first`.
- Pipeline.Process: requires `count > 0`. The program always copies CHUNK_SIZE digits.
- Integer widths (`int64` starts, `int32` n) are not modelled: every value involved is far below their range.
- The `offset` field is typed `nat` in the model. The source always sets 1, and the palindrome property is proved for 1.
- Pipeline.NoPalindromeLost: it states that the task's scan emits the centre with the same text. That the line is then written follows from `Scanner.EmittedIsWritten`, and that the script parses it from `LineFormat.LineRoundTrip`. The composed statement is not one lemma.
- LineFormat.ValidatedAgainstStream: it is stated for a service that returns the stream's digits at the requested position. The real `curl` call and its JSON response are modelled only as the `Fetch` parameter. A response without `content` (a Ruby exception) is not modelled.
- `Dir.glob`, `File.open` and file order are not modelled. The files arrive as `seq<seq<string>>` in any order.
- `ResultProcessor.ToI` models base-10 `to_i`: leading white space, a sign, and underscores between digits. No other prefix Ruby may accept is modelled. Ruby integers are unbounded, like Dafny's.
- The tie order of `sort_by` is not modelled, since Ruby's sort is not stable. SortBySize promises only order by size and the same multiset.
- The `p` output format is not modelled: printing is the ordered sequence `Report` returns.

## Findings

| source | as written | input that shows it | evidently intended | confidence | as-written member | corrected member |
|---|---|---|---|---|---|---|
| cmd/pi-processor/main.go:72 | Every task copies CHUNK_SIZE digits from its start, which is 1000 digits early for every task after the first. Only task 1 then overlaps task 0. Every later task ends 1000 digits before its chunk does, and task `k + 1` begins exactly there. | A stream of 3 chunks with a palindrome of 17 digits centred at `2C - 1000`. Task 1 reads `[C - 1000, 2C - 1000)` and task 2 reads `[2C - 1000, 3C - 1000)`, so neither holds the palindrome and it is never reported. | Each task reads to the end of its own chunk (`id + C`), so that consecutive tasks overlap by 1000 digits. | not executed | Scheduler.AsWrittenGap | Pipeline.NoPalindromeLost |
