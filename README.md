# validate: a Dafny model of the JSONL record validator

The `validate` package reads a stream of JSON Lines records and reports which
ones are not valid Senzing records. The stream can be standard input, a local
file, or an HTTP(S) resource, and file or resource can be plain or gzipped.
`BasicValidate.Read` chooses the stream from `InputURL` and `InputFileType`.
`BasicValidate.ValidateLines` then goes through the stream one line at a
time:

- Each line is trimmed of its surrounding white space.
- Blank lines are skipped.
- Every other line goes to the record checker. A line the checker rejects
  with an error falls into one of four defect buckets, by the first of the
  texts "RECORD_ID", "DATA_SOURCE" and "not well formed" that the error
  contains, or into the bucket of other errors.

At the end the validator writes the count of each non-empty bucket, in that
fixed order, and one summary: "Validated N lines, M were bad".

The project is in five modules:

- `Wrappers` (wrappers.dfy) holds the `Option` datatype that the others
  use for an absent value, such as a nil error.

- `GoStrings` (gostrings.dfy) models the parts of Go's `strings` and
  `unicode` packages that the validator uses: `len` in bytes of UTF-8,
  `TrimSpace` with Go's white-space set, `Contains`, `HasSuffix` and
  `ToUpper`.
- `Lines` (lines.dfy) holds `ValidateLines`. It is a method whose loop
  keeps the five counters of the source. The loop is proved against a
  specification of the scan by prefixes:
  - `Scan` gives the counters;
  - `LineMessages` gives the per-line messages;
  - `Report` gives the final report.

  The scan functions take any per-line judgement. `Judgement(check)` is the
  validator's own judgement under the record checker `check`. The lemmas
  prove these facts:
  - the counting adds up over pieces of the input;
  - the counts do not depend on the order of the lines;
  - blank lines only raise the total;
  - each message names a line that has that defect.
- `Reading` (reading.dfy) holds the choice of the input. `Resolve` gives a
  `Route`, and `Read`, `ValidateBasedOnUrl` and `ReadStream` are the methods
  that follow it. Lemmas state the routing cases.
- `Samples` (samples.dfy) holds the two sample inputs of the package's
  tests: twelve accepted records, and sixteen records of which four are bad.

Three things outside the validator are parameters:
- `Checker` stands for the record checker `record.Validate`. It gives a
  verdict and an error that may be nil.
- `Parser` stands for `url.Parse`.
- `Opener` stands for opening a stream: files, pipes, HTTP and gzip. It
  gives either the lines of the stream or a failure to open.

A read error in the middle of a stream ends the loop as the end of the
stream would. The code never checks the scanner's error, so the summary of
the lines read so far is still written and the reader still returns true.
The model follows the code. Such a stream is an `Opened` stream holding the
lines read before the error.

The JSONL test is `HasSuffix(path, "jsonl")`, with no dot. A path such as
`data_jsonl` is also read as JSONL. The model keeps that behaviour.

## Model

| member | source | states |
|---|---|---|
| Lines.ValidateLines | validate/validate.go:218-274 | the messages written are exactly `ValidationLog(lines, check)`: the per-line defect messages in line order, then the report of the scan's counters |
| Lines.WriteReport | validate/validate.go:257-273 | the messages written after the loop are `Report` of the five counters |
| Lines.Classify | validate/validate.go:234-251 | the bucket of an error text by first match: "RECORD_ID", then "DATA_SOURCE", then "not well formed", else the bucket of other errors; its contract is `Lines.ClassifyFirstMatch` |
| Lines.Outcome | validate/validate.go:228-233 | the defect of one line: the checker sees the trimmed line unless it is blank, and only a rejection with a non-nil error gives a defect; its contract is `Lines.OutcomeCases` |
| Lines.Report | validate/validate.go:257-273 | the count messages of the positive counters in fixed order, then the summary; its contracts are `Lines.ReportEndsInSummary`, `Lines.ReportListsNonZero` and `Lines.ReportInRankOrder` |
| Lines.ClassifyFirstMatch | validate/validate.go:234-251 | each bucket is chosen exactly when its text occurs in the error and no earlier bucket's text does; errors with none of the texts go to the bucket of other errors |
| Lines.OutcomeCases | validate/validate.go:228-233 | a line has a defect exactly when it is not blank and the checker rejects its trimmed text with a non-nil error; the defect is the error's bucket; a blank line's outcome does not depend on the checker |
| Lines.Step | validate/validate.go:227-251 | one pass of the loop body over the counters: the total and the counter of the line's own defect go up by one; its contract is `Lines.StepCountsOnce` |
| Lines.StepCountsOnce | validate/validate.go:226-251 | one more line raises the total by one and only the counter of its own defect by one; the bad count grows exactly when the line has a defect |
| Lines.Scan | validate/validate.go:226-255 | the total of a scan is the number of lines, blank lines included, and the bad count never exceeds it |
| Lines.ScanUpTo | validate/validate.go:226-227 | the total after `n` lines is `n` |
| Lines.MessagesUpTo | validate/validate.go:226-251 | the messages the loop has written after line `n`, the form its invariant keeps; its contract is `Lines.UpToIsScan`, which equates it with the per-line messages of the first `n` lines |
| Lines.UpToIsScan | validate/validate.go:226-255 | the counters and messages of the loop after `n` lines are those of scanning the first `n` lines |
| Lines.ReportEndsInSummary | validate/validate.go:257-273 | the report ends in exactly one summary with the total and the sum of the four counters; every earlier message is a count message with a positive count |
| Lines.ReportListsNonZero | validate/validate.go:257-271 | a count message for a defect kind is present exactly when its counter is positive |
| Lines.ReportInRankOrder | validate/validate.go:257-271 | the count messages come in the fixed order record id, data source, malformed, other |
| Lines.CleanReport | validate/validate.go:257-273 | with no bad line the report is the summary alone |
| Lines.ScanAppend | validate/validate.go:226-255 | the counters of two pieces of input scanned one after the other are the sums of the counters of each piece |
| Lines.ScanWithoutDefects | validate/validate.go:226-255 | lines without a defect count only in the total and get no message |
| Lines.ScanBlankLines | validate/validate.go:228-230 | a run of blank lines counts only in the total, whatever the checker |
| Lines.InsertBlankLines | validate/validate.go:228-230 | inserting blank lines anywhere raises the total by their number and changes no defect counter |
| Lines.InsertNeutral | validate/validate.go:226-255 | inserting lines that count only in the total changes nothing else in the counters |
| Lines.SameJudgement | validate/validate.go:226-255 | two judgements that agree on every line give the same counters and messages |
| Lines.ChecksOnlyTrimmedNonBlank | validate/validate.go:228-231 | the checker is consulted only on the trimmed text of non-blank lines: checkers that agree there give the same log |
| Lines.ScanPermutation | validate/validate.go:226-255 | the counters are the same for any reordering of the lines |
| Lines.ScanMoveToEnd | validate/validate.go:226-255 | moving one line to the end leaves the counters unchanged |
| Lines.LineMessages | validate/validate.go:236-251 | the per-line defect messages, one for each line that has a defect, with the line's 1-based number; its contracts are `Lines.LineMessagesInOrder`, `Lines.LineMessagesNameDefects` and `Lines.DefectiveLinesReported` |
| Lines.LineMessagesCount | validate/validate.go:236-251 | there are as many per-line messages as the bad count in the summary |
| Lines.LineMessagesCountKind | validate/validate.go:236-251 | for every defect kind, there are as many per-line messages of that kind as its counter |
| Lines.LineMessagesInOrder | validate/validate.go:226-251 | per-line messages carry line numbers from 1 to the number of lines, strictly increasing |
| Lines.LineMessagesNameDefects | validate/validate.go:226-251 | every per-line message names, by its 1-based number, a line that has that message's defect |
| Lines.MessagesUpToNameDefects | validate/validate.go:226-251 | every message written in the first `n` lines names a defective line among them |
| Lines.DefectiveLinesReported | validate/validate.go:226-251 | every line with a defect gets its message, with its kind and its 1-based number |
| Lines.MessagesUpToReportDefects | validate/validate.go:226-251 | every defective line among the first `n` has its message among the messages of those lines |
| Lines.CleanRun | validate/validate.go:226-255 | a run of lines without a defect only raises the total and adds no message |
| Lines.CleanInput | validate/validate.go:226-273 | when no line has a defect, including the empty input, the log is the one summary with no bad line |
| Reading.RouteByUrl | validate/validate.go:283-321 | the route of a parsed URL: a parse error, the file scheme by path, the http and https schemes by the whole URL, any other scheme unsupported; its contracts are `Reading.FileUrl`, `Reading.ResourceUrl`, `Reading.UnparsableFails` and `Reading.UnsupportedSchemeFails` |
| Reading.WantsJsonl | validate/validate.go:293 | the JSONL test: a "jsonl" suffix or an override that upper-cases to "JSONL"; its contract is `Reading.JsonlOverride` |
| Reading.WantsGz | validate/validate.go:297 | the gzip test: a "gz" suffix or an override that upper-cases to "GZ"; its contract is `Reading.GzOverride` |
| Reading.Resolve | validate/validate.go:50-65 | no URL goes to standard input; a URL of one to four bytes is refused; any other URL takes the route of `validateBasedOnURL` |
| Reading.Read | validate/validate.go:38-68 | the result is true exactly when the route reads a stream and that stream opens; the lines are validated in that case, and otherwise `ValidateLines` writes nothing |
| Reading.ValidateBasedOnUrl | validate/validate.go:280-322 | the result is true exactly when the URL's route reads a stream that opens; the log is then the validation of that stream |
| Reading.ReadStream | validate/validate.go:103-213 | a reader returns true exactly when its stream opens, and then validates its lines |
| Reading.EmptyUrlReadsStdin | validate/validate.go:52-55 | with no URL, reading succeeds exactly when standard input can be read |
| Reading.ShortUrlFails | validate/validate.go:57-63 | a URL of one to four bytes fails whatever the parser and the streams do |
| Reading.BadUrlFails | validate/validate_test.go:112-133 | the URL "BAD" is refused as too short and reading fails |
| Reading.UnparsableFails | validate/validate.go:283-288 | a URL that does not parse fails |
| Reading.UnsupportedSchemeFails | validate/validate.go:317-321 | a scheme other than file, http and https fails, as "BAD,Really bad" does in validate_test.go |
| Reading.FileUrl | validate/validate.go:291-303 | a file URL reads the JSONL file at its path when the JSONL test passes and otherwise tries the gzip test; the file is opened by its parsed path; success is that file opening |
| Reading.ResourceUrl | validate/validate.go:304-316 | an HTTP(S) URL is routed the same way, but the resource is fetched by the whole URL |
| Reading.JsonlOverride | validate/validate.go:293 | the JSONL test passes exactly when the path ends in "jsonl" or the file-type override spells "jsonl" in any mix of cases |
| Reading.GzOverride | validate/validate.go:297 | the gzip test passes exactly when the path ends in "gz" or the override spells "gz" in any mix of cases |
| Reading.TextFileNeedsOverride | validate/validate_test.go:246-270 | a ".txt" file without an override is of no known type and reading it fails |
| Reading.TextFileWithOverride | validate/validate_test.go:273-298 | a ".txt" file with the override "JSONL" is read as a JSONL file, and reading succeeds exactly when it opens |
| Reading.GzFileByName | validate/validate_test.go:305-329 | a ".jsonl.gz" file without an override is read as gzip, since the JSONL test is tried first and fails |
| Samples.GoodSample | validate/validate_test.go:957-973 | twelve accepted lines give "Validated 12 lines, 0 were bad" and no other message |
| Samples.BadSample | validate/validate_test.go:976-990 | sixteen lines with lines 2, 3, 8 and 14 rejected into the buckets of record id, data source, malformed and malformed give four line messages, the counts 1, 1 and 2, and "Validated 16 lines, 4 were bad" |
| Samples.BadSampleRun | validate/validate_test.go:1144-1160 | lines judged as in the sixteen-line sample give the four messages and the counters (16, 1, 1, 2, 0) |
| Samples.BadSampleFirstHalf | validate/validate_test.go:1144-1151 | the first eight lines of the sixteen-line sample give three messages and the counters (8, 1, 1, 1, 0) |
| Samples.ReadBadSample | validate/validate_test.go:56-80 | a "file" URL whose path ends in ".jsonl", with no override, reads the JSONL file at that path; when it opens onto sixteen lines with lines 2, 3, 8 and 14 rejected into those buckets, reading succeeds and the log is the four line messages, the counts 1, 1 and 2 and "Validated 16 lines, 4 were bad" |
| Samples.OverrideReadsGoodSample | validate/validate_test.go:273-298 | the twelve good records in a ".txt" file read with the override "JSONL": reading succeeds with the one clean summary |
| GoStrings.IsSpace | validate/validate.go:228 | the white space of `unicode.IsSpace`: the Latin-1 spaces and the other characters of Unicode's White_Space property |
| GoStrings.TrimSpace | validate/validate.go:228 | `strings.TrimSpace`: trims leading then trailing white space; its contracts are `GoStrings.TrimSpaceSlice` and `GoStrings.TrimSpaceEmptyIffAllSpace` |
| GoStrings.Contains | validate/validate.go:235 | `strings.Contains`, trying each starting position; its contract is `GoStrings.ContainsIffOccurs` |
| GoStrings.HasSuffix | validate/validate.go:293-297 | `strings.HasSuffix`: the string is at least as long as the suffix and ends with it |
| GoStrings.ByteLen | validate/validate.go:50 | Go's `len` of a string is the byte length of its UTF-8 encoding: zero exactly for the empty string, between one and four bytes per character, and one per character for ASCII |
| GoStrings.TrimSpaceSlice | validate/validate.go:228 | `TrimSpace` keeps a slice of its input that neither begins nor ends with white space and cuts only white space |
| GoStrings.TrimSpaceEmptyIffAllSpace | validate/validate.go:228-230 | a line is blank after trimming exactly when every character of it is white space |
| GoStrings.TrimLeftCuts | validate/validate.go:228 | trimming on the left cuts a prefix of white space and stops at the first other character |
| GoStrings.TrimRightCuts | validate/validate.go:228 | trimming on the right cuts a suffix of white space and stops at the last other character |
| GoStrings.ContainsIffOccurs | validate/validate.go:235 | `Contains` holds exactly when the text occurs at some position |
| GoStrings.ToUpperChar | validate/validate.go:293 | a character upper-cases to an ASCII capital exactly when it is an ASCII letter, 'ı' (U+0131) or 'ſ' (U+017F) |
| GoStrings.ToUpper | validate/validate.go:293 | `ToUpper` keeps the length and upper-cases each character |
| GoStrings.ToUpperEqualsWord | validate/validate.go:293 | a string upper-cases to an ASCII capital word exactly when it has that length and each character is a lower or upper form of the corresponding letter |
| GoStrings.SuffixesClash | validate/validate.go:293-297 | one path cannot end in two suffixes whose last characters differ |
| GoStrings.SuffixOfSuffix | validate/validate.go:297 | a path that ends in a string also ends in every suffix of that string |

## Left out

- Opening and reading streams are left out: `os.Open`, `os.Stdin.Stat` and the named-pipe test, `http.Get`, `gzip.NewReader`, `filepath.Clean`, and closing with `defer`. They are the `Opener` parameter: a route opens onto its lines or fails to open.
- The record checker `record.Validate` and `url.Parse` are foreign library code. They are the `Checker` and `Parser` parameters.
- Splitting the stream into lines is left out; the model starts from the lines. This includes the token-size limit of `bufio.Scanner` and its error after a failed read. A stream cut short by a read error is a stream of the lines read before it, as the code behaves.
- Logging plumbing is left out: `SetLogLevel`, `getLogger`, the JSON and plain-text branches of `log`, and the message ids and texts. `getLogger` panics when the Senzing logger cannot be created (validate/validate.go:337-340), and it is reached from `Read` through `SetLogLevel` whenever the log level is valid, and from every message when `JSONOutput` is set; then `Read` never returns. The model assumes the logger can be created. The model keeps the messages `ValidateLines` writes, as values of `Message`: the per-line defect messages, the count messages and the summary.
- The diagnostics are left out; with the logger created they are side output that does not change the result or the validation messages: the routing messages of `Read`, `validateBasedOnURL` and the readers, and the failed log-level message.
- Lines.Outcome: a Go string can hold bytes that are not valid UTF-8. Here a string is a sequence of Unicode characters, so `TrimSpace` and `len` of such bytes are not modelled.
- Lines.ValidateLines: Go's `int` counters are 32 or 64 bits wide, depending on the target; the model's counters are unbounded, so overflow after 2^31 - 1 or 2^63 - 1 lines is not modelled.
- GoStrings.ToUpperChar: characters whose upper case is not an ASCII letter are left unchanged instead of mapped to their Go upper case. The result of upper-casing is only ever compared with "JSONL" and "GZ", and those characters can never match an ASCII capital either way.
- validate/main.go (the message table), cmd/, examplepackage/ and validate/validate_windows_test.go are not part of this model: they hold no validation logic.
