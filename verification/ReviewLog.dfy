/** The review tool's append-only decision log, with crashes in the middle of an append. */
module ReviewLog {

  const NEWLINE := '\n'

  datatype ReadResult = Read(records: seq<string>) | Damaged

  // What the log format promises of a record's text: one line, not blank, that parses, and of which
  // no shorter part parses.
  ghost predicate IsRecord(parses: string -> bool, r: string) {
    && NEWLINE !in r && !Blank(r) && parses(r)
    && forall n :: 0 <= n < |r| ==> !parses(r[..n])
  }

  predicate Blank(line: string) { forall c :: c in line ==> c == ' ' || c == '\t' || c == '\r' }

  // `split("\n")`: always at least one line; the last has no newline after it.
  function SplitLines(text: string): (lines: seq<string>)
    ensures |lines| > 0
  {
    if text == [] then [[]]
    else if text[0] == NEWLINE then [[]] + SplitLines(text[1..])
    else var rest := SplitLines(text[1..]); [[text[0]] + rest[0]] + rest[1..]
  }

  // ----- what a log says -----

  predicate Unreadable(parses: string -> bool, line: string) { !Blank(line) && !parses(line) }

  // A line that does not parse has something after it.
  ghost predicate IsDamaged(parses: string -> bool, lines: seq<string>) {
    exists i, j :: 0 <= i < j < |lines| && Unreadable(parses, lines[i]) && !Blank(lines[j])
  }

  // The lines that parse, in order.
  function Parsed(parses: string -> bool, lines: seq<string>): seq<string> {
    if lines == [] then []
    else
      var last := lines[|lines| - 1];
      Parsed(parses, lines[..|lines| - 1]) + if !Blank(last) && parses(last) then [last] else []
  }

  ghost function Reading(parses: string -> bool, lines: seq<string>): ReadResult {
    if IsDamaged(parses, lines) then Damaged else Read(Parsed(parses, lines))
  }

  class Review {
    var log: string
    var torn: string

    constructor ()
      ensures log == "" && torn == ""
    {
      log, torn := "", "";
    }

    // `_read_log`: a line that does not parse is damage exactly when anything follows it.
    method ReadLog(parses: string -> bool) returns (result: ReadResult)
      ensures result.Damaged? <==> IsDamaged(parses, SplitLines(log))
      ensures !result.Damaged? ==> result == Read(Parsed(parses, SplitLines(log)))
    {
      var lines := SplitLines(log);
      var records := [];
      var position := 0;
      while position < |lines|
        invariant 0 <= position <= |lines|
        invariant records == Parsed(parses, lines[..position])
        invariant forall i, j :: 0 <= i < position && i < j < |lines| && Unreadable(parses, lines[i]) ==> Blank(lines[j])
      {
        var line := lines[position];
        assert lines[..position + 1] == lines[..position] + [line];
        if !Blank(line) {
          if parses(line) { records := records + [line]; }
          else if position != |lines| - 1 && exists i :: position < i < |lines| && !Blank(lines[i]) { return Damaged; }
        }
        position := position + 1;
      }
      assert lines[..position] == lines;
      result := Read(records);
    }

    // `rfind("\n") + 1`.
    method AfterLastNewline() returns (cut: nat)
      ensures cut <= |log| && NEWLINE !in log[cut..] && (cut > 0 ==> log[cut - 1] == NEWLINE)
    {
      cut := |log|;
      while cut > 0 && log[cut - 1] != NEWLINE
        invariant cut <= |log| && NEWLINE !in log[cut..]
      {
        assert log[cut - 1..] == [log[cut - 1]] + log[cut..];
        cut := cut - 1;
      }
    }

    // `_set_aside_torn_tail`: what has no newline is moved, not deleted.
    method SetAsideTornTail()
      modifies this
      ensures log <= old(log) && NEWLINE !in old(log)[|log|..]
      ensures log == "" || log[|log| - 1] == NEWLINE
      ensures torn == if log == old(log) then old(torn) else old(torn) + old(log)[|log|..] + [NEWLINE]
    {
      if log == "" || log[|log| - 1] == NEWLINE { return; }
      var cut := AfterLastNewline();
      torn := torn + log[cut..] + [NEWLINE];
      log := log[..cut];
    }

    // The append of `decide`, for a decision it accepted.
    method Append(record: string)
      modifies this
      ensures exists kept :: IsKept(old(log), kept) && log == kept + record + [NEWLINE]
    {
      ghost var before := log;
      SetAsideTornTail();
      assert IsKept(before, log);
      log := log + record + [NEWLINE];
    }
  }

  // What is left once a torn tail is set aside.
  ghost predicate IsKept(log: string, kept: string) {
    kept <= log && NEWLINE !in log[|kept|..] && (kept == "" || kept[|kept| - 1] == NEWLINE)
  }

  // ----- the log's shape -----

  function Written(records: seq<string>): string {
    if records == [] then "" else Written(records[..|records| - 1]) + records[|records| - 1] + [NEWLINE]
  }

  // Whole records, and at most one torn tail: a part of a record, perhaps all of it, without its
  // newline.
  ghost predicate IsTail(parses: string -> bool, tail: string) {
    tail == "" || exists r :: IsRecord(parses, r) && tail <= r
  }

  ghost predicate Shaped(parses: string -> bool, log: string, records: seq<string>, tail: string) {
    && (forall i :: 0 <= i < |records| ==> IsRecord(parses, records[i]))
    && IsTail(parses, tail) && log == Written(records) + tail
  }

  // One step of the tool: a decision is written, or a crash cuts one short after `cut` characters of
  // it, or before its torn predecessor was set aside.
  datatype Event = Decided(record: string) | Cut(record: string, cut: nat) | CutBefore

  ghost predicate Happened(parses: string -> bool, log: string, log': string, e: Event) {
    match e
    case Decided(r) => IsRecord(parses, r) && exists kept :: IsKept(log, kept) && log' == kept + r + [NEWLINE]
    case Cut(r, cut) => IsRecord(parses, r) && cut <= |r| && exists kept :: IsKept(log, kept) && log' == kept + r[..cut]
    case CutBefore => log' == log
  }

  // The decisions whose line got its newline.
  function Terminated(events: seq<Event>): seq<string> {
    if events == [] then []
    else
      var rest, last := Terminated(events[..|events| - 1]), events[|events| - 1];
      if last.Decided? then rest + [last.record] else rest
  }

  ghost predicate IsSession(parses: string -> bool, logs: seq<string>, events: seq<Event>) {
    && |logs| == |events| + 1 && logs[0] == ""
    && forall n {:trigger events[n]} :: 0 <= n < |events| ==> Happened(parses, logs[n], logs[n + 1], events[n])
  }

  lemma {:induction false} WrittenEnds(parses: string -> bool, records: seq<string>)
    requires forall i :: 0 <= i < |records| ==> IsRecord(parses, records[i])
    ensures Written(records) == "" || Written(records)[|Written(records)| - 1] == NEWLINE
  {}

  // Setting the tail aside leaves the whole records.
  lemma KeptIsWritten(parses: string -> bool, log: string, records: seq<string>, tail: string, kept: string)
    requires Shaped(parses, log, records, tail) && IsKept(log, kept)
    ensures kept == Written(records)
  {
    var whole := Written(records);
    WrittenEnds(parses, records);
    NoNewlineInTail(parses, tail);
    assert log[|whole|..] == tail;
    NotPast(log, whole, kept);
    NotPast(log, kept, whole);
    assert kept == log[..|kept|] && whole == log[..|whole|];
  }

  // Past a prefix without a newline after it, no other prefix ends in one.
  lemma NotPast(log: string, a: string, b: string)
    requires a <= log && b <= log && NEWLINE !in log[|a|..] && (b == "" || b[|b| - 1] == NEWLINE)
    ensures |b| <= |a|
  {
    forall i | |a| <= i < |log| ensures log[i] != NEWLINE { assert log[|a|..][i - |a|] == log[i]; }
    assert b != "" ==> b[|b| - 1] == log[|b| - 1];
  }

  lemma NoNewlineInTail(parses: string -> bool, tail: string)
    requires IsTail(parses, tail)
    ensures NEWLINE !in tail
  {
    if tail != "" {
      var r :| IsRecord(parses, r) && tail <= r;
      assert forall c :: c in tail ==> c in r;
    }
  }

  ghost function TailAfter(tail: string, e: Event): string {
    match e
    case Decided(_) => ""
    case Cut(r, cut) => if cut <= |r| then r[..cut] else ""
    case CutBefore => tail
  }

  lemma EventKeepsShape(parses: string -> bool, log: string, log': string, e: Event, records: seq<string>, tail: string)
    requires Shaped(parses, log, records, tail) && Happened(parses, log, log', e)
    ensures Shaped(parses, log', if e.Decided? then records + [e.record] else records, TailAfter(tail, e))
  {
    if e.Decided? {
      var kept :| IsKept(log, kept) && log' == kept + e.record + [NEWLINE];
      KeptIsWritten(parses, log, records, tail, kept);
      assert (records + [e.record])[..|records|] == records;
      assert Written(records + [e.record]) == Written(records) + e.record + [NEWLINE];
    } else if e.Cut? {
      var kept :| IsKept(log, kept) && log' == kept + e.record[..e.cut];
      KeptIsWritten(parses, log, records, tail, kept);
      assert e.record[..e.cut] <= e.record;
    }
  }

  lemma TerminatedNext(events: seq<Event>, e: Event)
    ensures Terminated(events + [e]) == if e.Decided? then Terminated(events) + [e.record] else Terminated(events)
  {
    assert (events + [e])[..|events|] == events;
  }

  // After any sequence of decisions and crashes the log is whole records plus at most one torn tail.
  lemma {:induction false} SessionKeepsShape(parses: string -> bool, logs: seq<string>, events: seq<Event>, n: nat) returns (tail: string)
    requires IsSession(parses, logs, events) && n < |logs|
    ensures Shaped(parses, logs[n], Terminated(events[..n]), tail)
    decreases n
  {
    if n == 0 {
      tail := "";
    } else {
      var before := SessionKeepsShape(parses, logs, events, n - 1);
      var e := events[n - 1];
      EventKeepsShape(parses, logs[n - 1], logs[n], e, Terminated(events[..n - 1]), before);
      TerminatedNext(events[..n - 1], e);
      assert events[..n] == events[..n - 1] + [e];
      tail := TailAfter(before, e);
    }
  }

  // ----- reading it back -----

  lemma {:induction false} SplitLine(line: string, rest: string)
    requires NEWLINE !in line
    ensures SplitLines(line + [NEWLINE] + rest) == [line] + SplitLines(rest)
    ensures SplitLines(line) == [line]
    decreases |line|
  {
    var text := line + [NEWLINE] + rest;
    if line == "" {
      assert text[1..] == rest;
    } else {
      SplitLine(line[1..], rest);
      assert text[1..] == line[1..] + [NEWLINE] + rest;
      assert [line[0]] + line[1..] == line;
    }
  }

  lemma Regroup(a: string, b: string, c: string, d: string)
    ensures a + b + c + d == a + (b + c + d)
  {}

  lemma Reassemble(records: seq<string>, lines: seq<string>)
    requires records != []
    ensures records[..|records| - 1] + ([records[|records| - 1]] + lines) == records + lines
  {}

  lemma {:induction false} SplitWritten(parses: string -> bool, records: seq<string>, rest: string)
    requires forall i :: 0 <= i < |records| ==> IsRecord(parses, records[i])
    ensures SplitLines(Written(records) + rest) == records + SplitLines(rest)
    decreases |records|
  {
    if records == [] {
      assert Written(records) + rest == rest;
    } else {
      var n := |records| - 1;
      var after := records[n] + [NEWLINE] + rest;
      Regroup(Written(records[..n]), records[n], [NEWLINE], rest);
      SplitWritten(parses, records[..n], after);
      SplitLine(records[n], rest);
      Reassemble(records, SplitLines(rest));
    }
  }

  lemma {:induction false} RecordsParse(parses: string -> bool, records: seq<string>)
    requires forall i :: 0 <= i < |records| ==> IsRecord(parses, records[i])
    ensures Parsed(parses, records) == records
    decreases |records|
  {
    if records != [] { RecordsParse(parses, records[..|records| - 1]); }
  }

  // Every line but the last parses, so nothing is damage; the last counts if it parses.
  lemma ReadsAll(parses: string -> bool, records: seq<string>, tail: string)
    requires forall i :: 0 <= i < |records| ==> IsRecord(parses, records[i])
    ensures Reading(parses, records + [tail]) == Read(records + if !Blank(tail) && parses(tail) then [tail] else [])
  {
    RecordsParse(parses, records);
    assert (records + [tail])[..|records|] == records;
  }

  lemma ShapedReads(parses: string -> bool, log: string, records: seq<string>, tail: string)
    requires Shaped(parses, log, records, tail)
    ensures Reading(parses, SplitLines(log)) == Read(records + if !Blank(tail) && parses(tail) then [tail] else [])
  {
    SplitWritten(parses, records, tail);
    NoNewlineInTail(parses, tail);
    SplitLine(tail, "");
    ReadsAll(parses, records, tail);
  }

  // The log never reads as damaged, and every decision whose line was ended is read, in order; one
  // more is read exactly when the crash lost nothing but the newline.
  lemma LogReadsBack(parses: string -> bool, logs: seq<string>, events: seq<Event>, n: nat) returns (tail: string)
    requires IsSession(parses, logs, events) && n < |logs|
    ensures Shaped(parses, logs[n], Terminated(events[..n]), tail)
    ensures Reading(parses, SplitLines(logs[n])) == Read(Terminated(events[..n]) + if IsRecord(parses, tail) then [tail] else [])
  {
    tail := SessionKeepsShape(parses, logs, events, n);
    ShapedReads(parses, logs[n], Terminated(events[..n]), tail);
    if tail != "" {
      var r :| IsRecord(parses, r) && tail <= r;
      assert tail == r[..|tail|];
      assert |tail| == |r| ==> tail == r;
    }
  }

  // Such a decision is read now and is gone after the next one: it was never ended.
  lemma UnendedDecisionVanishes(parses: string -> bool, records: seq<string>, whole: string, log: string, log': string, next: string)
    requires Shaped(parses, log, records, whole) && IsRecord(parses, whole) && Happened(parses, log, log', Decided(next))
    ensures Reading(parses, SplitLines(log)) == Read(records + [whole])
    ensures Reading(parses, SplitLines(log')) == Read(records + [next])
  {
    ShapedReads(parses, log, records, whole);
    EventKeepsShape(parses, log, log', Decided(next), records, whole);
    ShapedReads(parses, log', records + [next], "");
  }
}
