/**
 * `BasicValidate.ValidateLines`: the validation of the lines of one JSONL
 * stream. Every line is trimmed of its surrounding white space; a blank line
 * is skipped, any other line is handed to the record checker, and a line the
 * checker rejects with an error is counted in one of four buckets chosen by
 * the text of the error. At the end a report gives the non-zero buckets and
 * a summary of the total number of lines and of the bad ones.
 *
 * The record checker `record.Validate` lies outside the validator and is a
 * parameter here (a `Checker`). The specification of a scan is stated for
 * any per-line judgement (a `Judge`); the validator's own judgement of a
 * line under a checker is `Judgement(check)`.
 */
module Lines {
  import opened Wrappers
  import opened GoStrings

  // --------------------------------------------------------------------------
  // Judging one line
  // --------------------------------------------------------------------------

  /** The four defect buckets, in the order in which they are reported. */
  datatype Defect = NoRecordId | NoDataSource | Malformed | BadRecord

  /** Position of a defect kind in the report. */
  function Rank(d: Defect): nat {
    match d
    case NoRecordId => 0
    case NoDataSource => 1
    case Malformed => 2
    case BadRecord => 3
  }

  /** What `record.Validate` returns for one trimmed line: a verdict and an error that may be nil. */
  datatype CheckResult = CheckResult(valid: bool, err: Option<string>)

  type Checker = string -> CheckResult

  /** The texts searched for in a checker's error message. */
  const RecordIdText: string := "RECORD_ID"
  const DataSourceText: string := "DATA_SOURCE"
  const MalformedText: string := "not well formed"

  /**
   * The bucket of an error message, by first match on its text: the record
   * id text, then the data source text, then the malformed text, else the
   * bucket of unknown errors.
   */
  function Classify(msg: string): Defect {
    if Contains(msg, RecordIdText) then NoRecordId
    else if Contains(msg, DataSourceText) then NoDataSource
    else if Contains(msg, MalformedText) then Malformed
    else BadRecord
  }

  /**
   * Each bucket is chosen exactly when its text occurs in the message and
   * the text of no earlier bucket does.
   */
  lemma ClassifyFirstMatch(msg: string)
    ensures Classify(msg) == NoRecordId <==> Contains(msg, RecordIdText)
    ensures Classify(msg) == NoDataSource <==> !Contains(msg, RecordIdText) && Contains(msg, DataSourceText)
    ensures Classify(msg) == Malformed <==>
      !Contains(msg, RecordIdText) && !Contains(msg, DataSourceText) && Contains(msg, MalformedText)
    ensures Classify(msg) == BadRecord <==>
      !Contains(msg, RecordIdText) && !Contains(msg, DataSourceText) && !Contains(msg, MalformedText)
  {
  }

  /** A line that is empty once its surrounding white space is trimmed. */
  predicate IsBlank(line: string) {
    TrimSpace(line) == []
  }

  /**
   * The defect one line has, if any: the checker is given the trimmed line
   * unless it is empty, and a rejected line with an error falls in the
   * bucket of that error.
   */
  function Outcome(line: string, check: Checker): Option<Defect> {
    var str := TrimSpace(line);
    if |str| > 0 then
      var c := check(str);
      if !c.valid && c.err.Some? then Some(Classify(c.err.value)) else None
    else None
  }

  /**
   * A line has a defect exactly when it is not blank and the checker rejects
   * its trimmed text with a non-nil error; blank lines, accepted lines and
   * lines rejected with a nil error have none. A blank line never reaches
   * the checker: its outcome is the same whatever the checker.
   */
  lemma OutcomeCases(line: string, check: Checker, other: Checker)
    ensures Outcome(line, check).Some? <==>
      !IsBlank(line) && !check(TrimSpace(line)).valid && check(TrimSpace(line)).err.Some?
    ensures Outcome(line, check).Some? ==> Outcome(line, check).value == Classify(check(TrimSpace(line)).err.value)
    ensures IsBlank(line) ==> Outcome(line, check) == None == Outcome(line, other)
  {
  }

  /** A judgement of lines: the defect of each line, if any. */
  type Judge = string -> Option<Defect>

  /** The validator's judgement of lines under the checker `check`. */
  function Judgement(check: Checker): Judge {
    line => Outcome(line, check)
  }

  // --------------------------------------------------------------------------
  // Counting and reporting
  // --------------------------------------------------------------------------

  /**
   * The counters of one scan: `totalLines`, `noRecordID`, `noDataSource`,
   * `malformed` and `badRecord`.
   */
  datatype Tally = Tally(total: nat, noRecordId: nat, noDataSource: nat, malformed: nat, badRecord: nat)

  const Empty := Tally(0, 0, 0, 0, 0)

  /** The counter of one defect kind. */
  function Count(t: Tally, d: Defect): nat {
    match d
    case NoRecordId => t.noRecordId
    case NoDataSource => t.noDataSource
    case Malformed => t.malformed
    case BadRecord => t.badRecord
  }

  /** The number of bad lines: the sum of the four defect counters. */
  function Bad(t: Tally): nat {
    t.noRecordId + t.noDataSource + t.malformed + t.badRecord
  }

  /** Counter-wise sum of two tallies. */
  function Add(a: Tally, b: Tally): Tally {
    Tally(a.total + b.total, a.noRecordId + b.noRecordId, a.noDataSource + b.noDataSource,
          a.malformed + b.malformed, a.badRecord + b.badRecord)
  }

  /** The counters after one more line. */
  function Step(t: Tally, o: Option<Defect>): Tally {
    match o
    case None => t.(total := t.total + 1)
    case Some(NoRecordId) => t.(total := t.total + 1, noRecordId := t.noRecordId + 1)
    case Some(NoDataSource) => t.(total := t.total + 1, noDataSource := t.noDataSource + 1)
    case Some(Malformed) => t.(total := t.total + 1, malformed := t.malformed + 1)
    case Some(BadRecord) => t.(total := t.total + 1, badRecord := t.badRecord + 1)
  }

  /**
   * One more line raises the total by one and exactly the counter of its
   * defect, if it has one, by one; the bad count grows by one exactly when
   * the line has a defect.
   */
  lemma StepCountsOnce(t: Tally, o: Option<Defect>)
    ensures Step(t, o).total == t.total + 1
    ensures forall d :: Count(Step(t, o), d) == Count(t, d) + (if o == Some(d) then 1 else 0)
    ensures Bad(Step(t, o)) == Bad(t) + (if o.Some? then 1 else 0)
  {
  }

  /**
   * The counters after scanning `lines` from the start: every line counts in
   * the total, and at most one defect counter grows per line.
   */
  function Scan(lines: seq<string>, judge: Judge): (t: Tally)
    ensures t.total == |lines|
    ensures Bad(t) <= t.total
  {
    if lines == [] then Empty
    else Step(Scan(lines[..|lines| - 1], judge), judge(lines[|lines| - 1]))
  }

  /** The messages the validator writes. */
  datatype Message =
    | LineDefect(kind: Defect, line: nat)    // a rejected line, by its 1-based number
    | DefectCount(kind: Defect, count: nat)  // how many lines had this defect
    | Validated(total: nat, bad: nat)        // the summary: lines read, and how many were bad

  /** The message written for line number `n` with outcome `o`: one exactly when the line has a defect. */
  function LineMessage(o: Option<Defect>, n: nat): seq<Message> {
    match o
    case Some(d) => [LineDefect(d, n)]
    case None => []
  }

  /** The messages written while scanning: one per line with a defect, in order, with its line number. */
  function LineMessages(lines: seq<string>, judge: Judge): seq<Message> {
    if lines == [] then []
    else LineMessages(lines[..|lines| - 1], judge) + LineMessage(judge(lines[|lines| - 1]), |lines|)
  }

  /** The count message of one defect kind, present only when its counter is non-zero. */
  function CountMessage(t: Tally, d: Defect): seq<Message> {
    if Count(t, d) > 0 then [DefectCount(d, Count(t, d))] else []
  }

  /** The report written at the end of a scan: the count messages, then the summary. */
  function Report(t: Tally): seq<Message> {
    CountMessage(t, NoRecordId) + CountMessage(t, NoDataSource) + CountMessage(t, Malformed) +
    CountMessage(t, BadRecord) + [Validated(t.total, Bad(t))]
  }

  /**
   * The report ends with the one summary of the total and the bad lines;
   * everything before it is the count message of a defect kind whose counter
   * is non-zero, carrying that counter.
   */
  lemma ReportEndsInSummary(t: Tally)
    ensures var r := Report(t);
      && |r| >= 1 && r[|r| - 1] == Validated(t.total, Bad(t))
      && (forall i :: 0 <= i < |r| - 1 ==> r[i].DefectCount? && r[i].count == Count(t, r[i].kind) > 0)
  {
  }

  /** The report has a count message for exactly the defect kinds whose counter is non-zero. */
  lemma ReportListsNonZero(t: Tally, d: Defect)
    ensures Count(t, d) > 0 <==> DefectCount(d, Count(t, d)) in Report(t)
  {
    if DefectCount(d, Count(t, d)) in Report(t) {
      ReportEndsInSummary(t);
    }
  }

  /** The count messages come in the fixed order of their defect kinds. */
  lemma ReportInRankOrder(t: Tally)
    ensures var r := Report(t);
      forall i, j :: 0 <= i < j < |r| - 1 ==> r[i].DefectCount? && r[j].DefectCount? && Rank(r[i].kind) < Rank(r[j].kind)
  {
  }

  /** With no defect counted, the report is the summary alone. */
  lemma CleanReport(t: Tally)
    requires Bad(t) == 0
    ensures Report(t) == [Validated(t.total, 0)]
  {
  }

  /** Everything `ValidateLines` writes for the scanned `lines`. */
  function ValidationLog(lines: seq<string>, check: Checker): seq<Message> {
    LineMessages(lines, Judgement(check)) + Report(Scan(lines, Judgement(check)))
  }

  // --------------------------------------------------------------------------
  // The validator
  // --------------------------------------------------------------------------

  /**
   * `BasicValidate.ValidateLines`: scans `lines` (the lines the scanner
   * produced) one at a time with the counters as loop state, then writes the
   * report.
   */
  method ValidateLines(lines: seq<string>, check: Checker) returns (log: seq<Message>)
    ensures log == ValidationLog(lines, check)
  {
    ghost var judge := Judgement(check);
    var totalLines, noRecordId, noDataSource, malformed, badRecord := 0, 0, 0, 0, 0;
    log := [];
    while totalLines < |lines|
      invariant 0 <= totalLines <= |lines|
      invariant noRecordId == ScanUpTo(lines, totalLines, judge).noRecordId
      invariant noDataSource == ScanUpTo(lines, totalLines, judge).noDataSource
      invariant malformed == ScanUpTo(lines, totalLines, judge).malformed
      invariant badRecord == ScanUpTo(lines, totalLines, judge).badRecord
      invariant log == MessagesUpTo(lines, totalLines, judge)
    {
      var line := lines[totalLines];
      totalLines := totalLines + 1;
      ghost var o := Outcome(line, check);
      assert judge(line) == o;
      var str := TrimSpace(line);
      // ignore blank lines (a string has a positive byte length exactly when it is non-empty; see ByteLen)
      if |str| > 0 {
        var c := check(str);
        if !c.valid {
          if c.err.Some? {
            var e := c.err.value;
            if Contains(e, RecordIdText) {
              assert o == Some(NoRecordId);
              log := log + [LineDefect(NoRecordId, totalLines)];
              noRecordId := noRecordId + 1;
            } else if Contains(e, DataSourceText) {
              assert o == Some(NoDataSource);
              log := log + [LineDefect(NoDataSource, totalLines)];
              noDataSource := noDataSource + 1;
            } else if Contains(e, MalformedText) {
              assert o == Some(Malformed);
              log := log + [LineDefect(Malformed, totalLines)];
              malformed := malformed + 1;
            } else {
              assert o == Some(BadRecord);
              log := log + [LineDefect(BadRecord, totalLines)];
              badRecord := badRecord + 1;
            }
          }
        }
      }
    }
    UpToIsScan(lines, totalLines, judge);
    assert lines[..totalLines] == lines;
    var report := WriteReport(totalLines, noRecordId, noDataSource, malformed, badRecord);
    log := log + report;
  }

  /**
   * The end of `ValidateLines`: a count message for each non-zero counter,
   * in the fixed order, then the summary of the total and the sum of the
   * four counters.
   */
  method WriteReport(totalLines: nat, noRecordId: nat, noDataSource: nat, malformed: nat, badRecord: nat)
    returns (log: seq<Message>)
    ensures log == Report(Tally(totalLines, noRecordId, noDataSource, malformed, badRecord))
  {
    ghost var t := Tally(totalLines, noRecordId, noDataSource, malformed, badRecord);
    log := [];
    if noRecordId > 0 {
      log := log + [DefectCount(NoRecordId, noRecordId)];
    }
    assert log == CountMessage(t, NoRecordId);
    if noDataSource > 0 {
      log := log + [DefectCount(NoDataSource, noDataSource)];
    }
    assert log == CountMessage(t, NoRecordId) + CountMessage(t, NoDataSource);
    if malformed > 0 {
      log := log + [DefectCount(Malformed, malformed)];
    }
    assert log == CountMessage(t, NoRecordId) + CountMessage(t, NoDataSource) + CountMessage(t, Malformed);
    if badRecord > 0 {
      log := log + [DefectCount(BadRecord, badRecord)];
    }
    log := log + [Validated(totalLines, noRecordId + noDataSource + malformed + badRecord)];
  }

  /** `Scan` of the first `n` lines, counted by index: the form the loop of `ValidateLines` keeps. */
  function ScanUpTo(lines: seq<string>, n: nat, judge: Judge): (t: Tally)
    requires n <= |lines|
    ensures t.total == n
  {
    if n == 0 then Empty else Step(ScanUpTo(lines, n - 1, judge), judge(lines[n - 1]))
  }

  /** `LineMessages` of the first `n` lines, by index. */
  function MessagesUpTo(lines: seq<string>, n: nat, judge: Judge): seq<Message>
    requires n <= |lines|
  {
    if n == 0 then [] else MessagesUpTo(lines, n - 1, judge) + LineMessage(judge(lines[n - 1]), n)
  }

  /** Counting up to line `n` is scanning the first `n` lines. */
  lemma {:induction false} UpToIsScan(lines: seq<string>, n: nat, judge: Judge)
    requires n <= |lines|
    ensures ScanUpTo(lines, n, judge) == Scan(lines[..n], judge)
    ensures MessagesUpTo(lines, n, judge) == LineMessages(lines[..n], judge)
  {
    if n > 0 {
      UpToIsScan(lines, n - 1, judge);
      assert lines[..n][..n - 1] == lines[..n - 1];
    }
  }

  // --------------------------------------------------------------------------
  // Properties of a scan
  // --------------------------------------------------------------------------

  /** The last line of a non-empty input is the last step of its scan. */
  lemma ScanLast(lines: seq<string>, judge: Judge)
    requires lines != []
    ensures Scan(lines, judge) == Step(Scan(lines[..|lines| - 1], judge), judge(lines[|lines| - 1]))
    ensures LineMessages(lines, judge) ==
      LineMessages(lines[..|lines| - 1], judge) + LineMessage(judge(lines[|lines| - 1]), |lines|)
  {
  }

  /** One more line at the end of the input is one more step of its scan. */
  lemma ScanSnoc(before: seq<string>, line: string, judge: Judge)
    ensures Scan(before + [line], judge) == Step(Scan(before, judge), judge(line))
  {
    ScanLast(before + [line], judge);
    assert (before + [line])[..|before|] == before;
  }

  /** A step on the right of a sum is a step of the sum. */
  lemma AddStep(a: Tally, b: Tally, o: Option<Defect>)
    ensures Add(a, Step(b, o)) == Step(Add(a, b), o)
  {
  }

  /**
   * Scanning is compositional: the counters of two pieces of input scanned
   * one after the other are the sums of the counters of each piece.
   */
  lemma {:induction false} ScanAppend(xs: seq<string>, ys: seq<string>, judge: Judge)
    ensures Scan(xs + ys, judge) == Add(Scan(xs, judge), Scan(ys, judge))
    decreases |ys|
  {
    if ys == [] {
      assert xs + ys == xs;
    } else {
      var init, zs := ys[..|ys| - 1], xs + ys;
      var o := judge(ys[|ys| - 1]);
      ScanAppend(xs, init, judge);
      assert zs[..|zs| - 1] == xs + init;
      assert zs[|zs| - 1] == ys[|ys| - 1];
      ScanLast(zs, judge);
      AddStep(Scan(xs, judge), Scan(init, judge), o);
    }
  }

  /** Lines without a defect only count in the total and get no message. */
  lemma {:induction false} ScanWithoutDefects(lines: seq<string>, judge: Judge)
    requires forall i :: 0 <= i < |lines| ==> judge(lines[i]) == None
    ensures Scan(lines, judge) == Tally(|lines|, 0, 0, 0, 0)
    ensures LineMessages(lines, judge) == []
  {
    if lines != [] {
      ScanWithoutDefects(lines[..|lines| - 1], judge);
    }
  }

  /** Blank lines only count in the total: they are judged without the checker. */
  lemma ScanBlankLines(blanks: seq<string>, check: Checker)
    requires forall i :: 0 <= i < |blanks| ==> IsBlank(blanks[i])
    ensures Scan(blanks, Judgement(check)) == Tally(|blanks|, 0, 0, 0, 0)
  {
    forall i | 0 <= i < |blanks| ensures Judgement(check)(blanks[i]) == None {
      OutcomeCases(blanks[i], check, check);
    }
    ScanWithoutDefects(blanks, Judgement(check));
  }

  /**
   * Inserting blank lines anywhere in the input raises the total by their
   * number and changes no defect counter.
   */
  lemma InsertBlankLines(xs: seq<string>, blanks: seq<string>, ys: seq<string>, check: Checker)
    requires forall i :: 0 <= i < |blanks| ==> IsBlank(blanks[i])
    ensures Scan(xs + blanks + ys, Judgement(check)) ==
      Scan(xs + ys, Judgement(check)).(total := |xs| + |blanks| + |ys|)
  {
    ScanBlankLines(blanks, check);
    InsertNeutral(xs, blanks, ys, Judgement(check));
  }

  /** Inserting lines that count only in the total raises the total and changes nothing else. */
  lemma {:induction false} InsertNeutral(xs: seq<string>, mid: seq<string>, ys: seq<string>, judge: Judge)
    requires Scan(mid, judge) == Tally(|mid|, 0, 0, 0, 0)
    ensures Scan(xs + mid + ys, judge) == Scan(xs + ys, judge).(total := |xs| + |mid| + |ys|)
  {
    var a, b := Scan(xs, judge), Scan(ys, judge);
    assert Scan(xs + mid + ys, judge) == Add(Add(a, Scan(mid, judge)), b) by {
      ScanAppend(xs + mid, ys, judge);
      ScanAppend(xs, mid, judge);
    }
    assert Scan(xs + ys, judge) == Add(a, b) by { ScanAppend(xs, ys, judge); }
  }

  /** Two judgements that agree on every line give the same counters and messages. */
  lemma {:induction false} SameJudgement(lines: seq<string>, judge: Judge, other: Judge)
    requires forall i :: 0 <= i < |lines| ==> judge(lines[i]) == other(lines[i])
    ensures Scan(lines, judge) == Scan(lines, other)
    ensures LineMessages(lines, judge) == LineMessages(lines, other)
  {
    if lines != [] {
      SameJudgement(lines[..|lines| - 1], judge, other);
    }
  }

  /**
   * The checker is consulted only on the trimmed text of non-blank lines:
   * two checkers that agree there produce the same messages.
   */
  lemma ChecksOnlyTrimmedNonBlank(lines: seq<string>, check: Checker, other: Checker)
    requires forall i :: 0 <= i < |lines| && !IsBlank(lines[i]) ==> check(TrimSpace(lines[i])) == other(TrimSpace(lines[i]))
    ensures ValidationLog(lines, check) == ValidationLog(lines, other)
  {
    forall i | 0 <= i < |lines| ensures Judgement(check)(lines[i]) == Judgement(other)(lines[i]) {
      OutcomeCases(lines[i], check, other);
    }
    SameJudgement(lines, Judgement(check), Judgement(other));
  }

  /** Taking one occurrence of the same line out of two permutations leaves permutations. */
  lemma RemoveOne(xs: seq<string>, ys: seq<string>, i: nat)
    requires multiset(xs) == multiset(ys) && xs != [] && i < |ys| && ys[i] == xs[|xs| - 1]
    ensures multiset(xs[..|xs| - 1]) == multiset(ys[..i] + ys[i + 1..])
    ensures xs == xs[..|xs| - 1] + [ys[i]] && ys == ys[..i] + [ys[i]] + ys[i + 1..]
  {
    var x, rest, left, right := xs[|xs| - 1], xs[..|xs| - 1], ys[..i], ys[i + 1..];
    assert xs == rest + [x];
    assert ys == left + [x] + right;
    assert multiset(xs) == multiset(rest) + multiset{x};
    assert multiset(ys) == multiset(left) + multiset{x} + multiset(right);
    assert multiset(left + right) == multiset(left) + multiset(right);
    assert multiset(rest) == multiset(xs) - multiset{x};
    assert multiset(left + right) == multiset(ys) - multiset{x};
  }

  /** A line moved from the middle to the end of the input leaves the counters as they were. */
  lemma ScanMoveToEnd(left: seq<string>, x: string, right: seq<string>, judge: Judge)
    ensures Scan(left + [x] + right, judge) == Scan(left + right + [x], judge)
  {
    ScanAppend(left + [x], right, judge);
    ScanAppend(left, [x], judge);
    ScanAppend(left + right, [x], judge);
    ScanAppend(left, right, judge);
  }

  /** The counters do not depend on the order of the lines. */
  lemma {:induction false} ScanPermutation(xs: seq<string>, ys: seq<string>, judge: Judge)
    requires multiset(xs) == multiset(ys)
    ensures Scan(xs, judge) == Scan(ys, judge)
    decreases |xs|
  {
    if xs == [] {
      assert |ys| == |multiset(ys)| == 0;
    } else {
      var x, rest := xs[|xs| - 1], xs[..|xs| - 1];
      assert x in multiset(ys) by { assert x in multiset(xs); }
      var i :| 0 <= i < |ys| && ys[i] == x;
      var left, right := ys[..i], ys[i + 1..];
      RemoveOne(xs, ys, i);
      ScanPermutation(rest, left + right, judge);
      ScanMoveToEnd(left, x, right, judge);
      ScanSnoc(rest, x, judge);
      ScanSnoc(left + right, x, judge);
    }
  }

  /** The defect kinds of the per-line messages, in order. */
  function Kinds(msgs: seq<Message>): seq<Defect> {
    if msgs == [] then []
    else Kinds(msgs[..|msgs| - 1]) + (if msgs[|msgs| - 1].LineDefect? then [msgs[|msgs| - 1].kind] else [])
  }

  /** The kinds after one more message. */
  lemma KindsSnoc(msgs: seq<Message>, msg: Message)
    ensures Kinds(msgs + [msg]) == Kinds(msgs) + (if msg.LineDefect? then [msg.kind] else [])
  {
    assert (msgs + [msg])[..|msgs|] == msgs;
  }

  /** There are as many per-line messages as the bad count of the report. */
  lemma {:induction false} LineMessagesCount(lines: seq<string>, judge: Judge)
    ensures |LineMessages(lines, judge)| == Bad(Scan(lines, judge))
  {
    if lines != [] {
      LineMessagesCount(lines[..|lines| - 1], judge);
      ScanLast(lines, judge);
    }
  }

  /** There are as many per-line messages of a defect kind as that kind's counter. */
  lemma {:induction false} LineMessagesCountKind(lines: seq<string>, judge: Judge, d: Defect)
    ensures multiset(Kinds(LineMessages(lines, judge)))[d] == Count(Scan(lines, judge), d)
  {
    var n := |lines|;
    if n > 0 {
      var init := lines[..n - 1];
      var o := judge(lines[n - 1]);
      var m0, m := LineMessages(init, judge), LineMessages(lines, judge);
      LineMessagesCountKind(init, judge, d);
      ScanLast(lines, judge);
      if o.Some? {
        assert m == m0 + [LineDefect(o.value, n)];
        KindsSnoc(m0, LineDefect(o.value, n));
        assert multiset(Kinds(m)) == multiset(Kinds(m0)) + multiset{o.value};
      } else {
        assert m == m0;
      }
      StepCountsOnce(Scan(init, judge), o);
      assert Count(Scan(lines, judge), d) == Count(Scan(init, judge), d) + (if o == Some(d) then 1 else 0);
    }
  }

  /** The per-line messages are line-defect messages with line numbers in range, in increasing order. */
  lemma {:induction false} LineMessagesInOrder(lines: seq<string>, judge: Judge)
    ensures var m := LineMessages(lines, judge);
      && (forall k :: 0 <= k < |m| ==> m[k].LineDefect? && 1 <= m[k].line <= |lines|)
      && (forall k, l :: 0 <= k < l < |m| ==> m[k].line < m[l].line)
  {
    if lines != [] {
      LineMessagesInOrder(lines[..|lines| - 1], judge);
      ScanLast(lines, judge);
    }
  }

  /** `msg` names, by its 1-based number, a line of `lines` that has the message's defect. */
  predicate NamesDefect(lines: seq<string>, msg: Message, judge: Judge) {
    msg.LineDefect? && 1 <= msg.line <= |lines| && judge(lines[msg.line - 1]) == Some(msg.kind)
  }

  /** `LineMessagesNameDefects` for the messages up to line `n`. */
  lemma {:induction false} MessagesUpToNameDefects(lines: seq<string>, n: nat, judge: Judge)
    requires n <= |lines|
    ensures forall k :: 0 <= k < |MessagesUpTo(lines, n, judge)| ==>
      NamesDefect(lines, MessagesUpTo(lines, n, judge)[k], judge) && MessagesUpTo(lines, n, judge)[k].line <= n
  {
    if n > 0 {
      MessagesUpToNameDefects(lines, n - 1, judge);
      var m0, m := MessagesUpTo(lines, n - 1, judge), MessagesUpTo(lines, n, judge);
      var o := judge(lines[n - 1]);
      if o.Some? {
        assert m == m0 + [LineDefect(o.value, n)];
        assert NamesDefect(lines, LineDefect(o.value, n), judge);
      } else {
        assert m == m0;
      }
    }
  }

  /** Every per-line message names, by its 1-based number, a line that has the message's defect. */
  lemma LineMessagesNameDefects(lines: seq<string>, judge: Judge)
    ensures forall msg :: msg in LineMessages(lines, judge) ==> NamesDefect(lines, msg, judge)
  {
    UpToIsScan(lines, |lines|, judge);
    assert lines[..|lines|] == lines;
    MessagesUpToNameDefects(lines, |lines|, judge);
  }

  /** `DefectiveLinesReported` for the lines up to line `n`. */
  lemma {:induction false} MessagesUpToReportDefects(lines: seq<string>, n: nat, judge: Judge)
    requires n <= |lines|
    ensures forall i :: 0 <= i < n && judge(lines[i]).Some? ==>
      LineDefect(judge(lines[i]).value, i + 1) in MessagesUpTo(lines, n, judge)
  {
    if n > 0 {
      MessagesUpToReportDefects(lines, n - 1, judge);
    }
  }

  /** Every line that has a defect gets its per-line message. */
  lemma DefectiveLinesReported(lines: seq<string>, judge: Judge)
    ensures forall i :: 0 <= i < |lines| && judge(lines[i]).Some? ==>
      LineDefect(judge(lines[i]).value, i + 1) in LineMessages(lines, judge)
  {
    UpToIsScan(lines, |lines|, judge);
    assert lines[..|lines|] == lines;
    MessagesUpToReportDefects(lines, |lines|, judge);
  }

  /** A run of lines without a defect only raises the total and writes no message. */
  lemma {:induction false} CleanRun(lines: seq<string>, a: nat, b: nat, judge: Judge)
    requires a <= b <= |lines|
    requires forall i :: a <= i < b ==> judge(lines[i]) == None
    ensures ScanUpTo(lines, b, judge) == ScanUpTo(lines, a, judge).(total := b)
    ensures MessagesUpTo(lines, b, judge) == MessagesUpTo(lines, a, judge)
  {
    if a < b {
      CleanRun(lines, a, b - 1, judge);
    }
  }

  /**
   * When no line has a defect, for instance when the checker accepts every
   * line, the only message is the summary of the total with no bad line;
   * an empty input gives a summary of zero lines.
   */
  lemma CleanInput(lines: seq<string>, check: Checker)
    requires forall i :: 0 <= i < |lines| ==> Outcome(lines[i], check) == None
    ensures ValidationLog(lines, check) == [Validated(|lines|, 0)]
  {
    ScanWithoutDefects(lines, Judgement(check));
    CleanReport(Scan(lines, Judgement(check)));
  }
}
