/**
 * The two sample inputs of the validator's tests, as scenarios over the
 * abstract checker: twelve records the checker accepts, and sixteen records
 * of which the second lacks its record id, the third lacks its data source,
 * and the eighth and the fourteenth are not well-formed JSON.
 */
module Samples {
  import opened Wrappers
  import opened GoStrings
  import opened Lines
  import opened Reading

  /** The checker rejects the trimmed `line` with an error that falls in bucket `d`. */
  predicate RejectedAs(line: string, check: Checker, d: Defect) {
    !IsBlank(line) && !check(TrimSpace(line)).valid && check(TrimSpace(line)).err.Some? &&
    Classify(check(TrimSpace(line)).err.value) == d
  }

  /** Twelve accepted records: "Validated 12 lines, 0 were bad" and nothing else. */
  lemma GoodSample(lines: seq<string>, check: Checker)
    requires |lines| == 12
    requires forall i :: 0 <= i < 12 ==> check(TrimSpace(lines[i])).valid
    ensures ValidationLog(lines, check) == [Validated(12, 0)]
  {
    forall i | 0 <= i < |lines| ensures Outcome(lines[i], check) == None {
      OutcomeCases(lines[i], check, check);
    }
    CleanInput(lines, check);
  }

  /** A line of the sixteen-record sample that the checker accepts. */
  predicate CleanInBadSample(i: int) {
    i != 1 && i != 2 && i != 7 && i != 13
  }

  /** The requirements of `BadSampleRun`: the defects of the sixteen-record sample. */
  predicate JudgedAsBadSample(lines: seq<string>, judge: Judge) {
    && |lines| == 16
    && judge(lines[1]) == Some(NoRecordId) && judge(lines[2]) == Some(NoDataSource)
    && judge(lines[7]) == Some(Malformed) && judge(lines[13]) == Some(Malformed)
    && forall i :: 0 <= i < 16 && CleanInBadSample(i) ==> judge(lines[i]) == None
  }

  /** The first eight lines of the sixteen-record sample. */
  lemma BadSampleFirstHalf(lines: seq<string>, judge: Judge)
    requires JudgedAsBadSample(lines, judge)
    ensures ScanUpTo(lines, 8, judge) == Tally(8, 1, 1, 1, 0)
    ensures MessagesUpTo(lines, 8, judge) == [LineDefect(NoRecordId, 2), LineDefect(NoDataSource, 3), LineDefect(Malformed, 8)]
  {
    CleanRun(lines, 0, 1, judge);
    DefectLine(lines, 2, judge, NoRecordId);
    DefectLine(lines, 3, judge, NoDataSource);
    CleanRun(lines, 3, 7, judge);
    DefectLine(lines, 8, judge, Malformed);
  }

  /** The messages of sixteen lines with the defects of the sixteen-record sample. */
  lemma BadSampleRun(lines: seq<string>, judge: Judge)
    requires JudgedAsBadSample(lines, judge)
    ensures LineMessages(lines, judge) ==
      [LineDefect(NoRecordId, 2), LineDefect(NoDataSource, 3), LineDefect(Malformed, 8), LineDefect(Malformed, 14)]
    ensures Scan(lines, judge) == Tally(16, 1, 1, 2, 0)
  {
    BadSampleFirstHalf(lines, judge);
    CleanRun(lines, 8, 13, judge);
    DefectLine(lines, 14, judge, Malformed);
    CleanRun(lines, 14, 16, judge);
    UpToIsScan(lines, 16, judge);
    assert lines[..16] == lines;
  }

  /** Line `n`, which has defect `d`, adds its defect to the counters and its message to the messages. */
  lemma DefectLine(lines: seq<string>, n: nat, judge: Judge, d: Defect)
    requires 0 < n <= |lines| && judge(lines[n - 1]) == Some(d)
    ensures ScanUpTo(lines, n, judge) == Step(ScanUpTo(lines, n - 1, judge), Some(d))
    ensures MessagesUpTo(lines, n, judge) == MessagesUpTo(lines, n - 1, judge) + [LineDefect(d, n)]
  {
  }

  /**
   * The sixteen-record sample: one message per bad line, the three non-zero
   * counts in order, then "Validated 16 lines, 4 were bad".
   */
  lemma BadSample(lines: seq<string>, check: Checker)
    requires BadSampleInput(lines, check)
    ensures ValidationLog(lines, check) == BadSampleLog
  {
    var judge := Judgement(check);
    RejectedIsJudged(lines[1], check, NoRecordId);
    RejectedIsJudged(lines[2], check, NoDataSource);
    RejectedIsJudged(lines[7], check, Malformed);
    RejectedIsJudged(lines[13], check, Malformed);
    forall i | 0 <= i < 16 && CleanInBadSample(i) ensures judge(lines[i]) == None {
      OutcomeCases(lines[i], check, check);
    }
    BadSampleRun(lines, judge);
  }

  /**
   * Sixteen lines of which the checker rejects the second for its record
   * id, the third for its data source and the eighth and the fourteenth as
   * malformed, and accepts the others.
   */
  predicate BadSampleInput(lines: seq<string>, check: Checker) {
    && |lines| == 16
    && RejectedAs(lines[1], check, NoRecordId) && RejectedAs(lines[2], check, NoDataSource)
    && RejectedAs(lines[7], check, Malformed) && RejectedAs(lines[13], check, Malformed)
    && forall i :: 0 <= i < 16 && CleanInBadSample(i) ==> check(TrimSpace(lines[i])).valid
  }

  /** What the validator writes for the sixteen-record sample. */
  const BadSampleLog: seq<Message> :=
    [LineDefect(NoRecordId, 2), LineDefect(NoDataSource, 3), LineDefect(Malformed, 8), LineDefect(Malformed, 14),
     DefectCount(NoRecordId, 1), DefectCount(NoDataSource, 1), DefectCount(Malformed, 2), Validated(16, 4)]

  /**
   * The sixteen-record sample in a ".jsonl" file named by a "file" URL, with
   * no file-type override: the JSONL file at the parsed path is read, reading
   * succeeds although four records are bad, and the bad lines are reported.
   */
  lemma ReadBadSample(cfg: Config, parse: Parser, open: Opener, check: Checker)
    requires ByteLen(cfg.inputUrl) >= 5 && parse(cfg.inputUrl).Parsed? && parse(cfg.inputUrl).scheme == "file"
    requires HasSuffix(parse(cfg.inputUrl).path, ".jsonl") && cfg.inputFileType == ""
    requires open(JsonlFile(parse(cfg.inputUrl).path)).Opened?
    requires BadSampleInput(open(JsonlFile(parse(cfg.inputUrl).path)).lines, check)
    ensures Resolve(cfg, parse) == JsonlFile(parse(cfg.inputUrl).path)
    ensures ReadSucceeds(cfg, parse, open)
    ensures ValidationLog(open(Resolve(cfg, parse)).lines, check) == BadSampleLog
  {
    var path := parse(cfg.inputUrl).path;
    SuffixOfSuffix(path, ".jsonl", "jsonl");
    FileUrl(cfg, parse, open);
    BadSample(open(JsonlFile(path)).lines, check);
  }

  /** A line the checker rejects into bucket `d` is judged to have defect `d`. */
  lemma RejectedIsJudged(line: string, check: Checker, d: Defect)
    requires RejectedAs(line, check, d)
    ensures Judgement(check)(line) == Some(d)
  {
    OutcomeCases(line, check, check);
  }

  /**
   * The twelve accepted records in a ".txt" file read with the file-type
   * override "JSONL": reading succeeds and writes "Validated 12 lines, 0
   * were bad" alone.
   */
  lemma OverrideReadsGoodSample(cfg: Config, parse: Parser, open: Opener, check: Checker)
    requires ByteLen(cfg.inputUrl) >= 5 && parse(cfg.inputUrl).Parsed? && parse(cfg.inputUrl).scheme == "file"
    requires HasSuffix(parse(cfg.inputUrl).path, ".txt") && cfg.inputFileType == "JSONL"
    requires open(JsonlFile(parse(cfg.inputUrl).path)).Opened?
    requires |open(JsonlFile(parse(cfg.inputUrl).path)).lines| == 12
    requires forall line :: line in open(JsonlFile(parse(cfg.inputUrl).path)).lines ==> check(TrimSpace(line)).valid
    ensures ReadSucceeds(cfg, parse, open)
    ensures ValidationLog(open(Resolve(cfg, parse)).lines, check) == [Validated(12, 0)]
  {
    TextFileWithOverride(cfg, parse, open);
    var lines := open(JsonlFile(parse(cfg.inputUrl).path)).lines;
    assert forall i :: 0 <= i < 12 ==> lines[i] in lines;
    GoodSample(lines, check);
  }
}
