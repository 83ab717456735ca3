/** internal/provider/lambda/lambda.go: `monitorRemote` and the two functions that consume what a poll
    reads. A schedule of polls is an arbitrary sequence of read outcomes. */
module Monitor {
  import opened Wrappers
  import opened App
  import opened LogTail

  datatype LogPiece = Chunk(text: string) | ScannerError

  /** The text of the local log without the scanner's own complaints. */
  ghost function LogText(pieces: seq<LogPiece>): string {
    if pieces == [] then ""
    else
      LogText(pieces[..|pieces| - 1])
      + match pieces[|pieces| - 1] { case Chunk(text) => text case ScannerError => "" }
  }

  lemma {:induction false} LogTextAppend(pieces: seq<LogPiece>, p: LogPiece)
    ensures LogText(pieces + [p]) == LogText(pieces) + (match p { case Chunk(text) => text case ScannerError => "" })
  {
    assert (pieces + [p])[..|pieces|] == pieces;
  }

  /** What one poll consumes: the offset restarts when the file has shrunk. */
  function Consume(content: string, offset: nat): (string, nat) {
    var start := if offset > |content| then 0 else offset;
    CompleteContent(content, start)
  }

  /** The local files one job's log is followed into, and the structured lines seen so far. */
  class Follower {
    const redactLine: string -> string
    const structured: string -> bool
    var logFile: seq<LogPiece>
    var eventFile: seq<string>
    var seen: set<string>

    ghost predicate Valid()
      reads this
    {
      forall line :: line in seen <==> line in eventFile
    }

    constructor (redactLine: string -> string, structured: string -> bool)
      ensures Valid() && logFile == [] && eventFile == []
      ensures this.redactLine == redactLine && this.structured == structured
    {
      this.redactLine, this.structured := redactLine, structured;
      logFile, eventFile, seen := [], [], {};
    }

    /** The scanner loop both append methods share. */
    method EmitNew(newContent: string) returns (tooLong: bool)
      requires Valid()
      modifies this`eventFile, this`seen
      ensures Valid()
      ensures eventFile == Emit(old(eventFile), ScanLines(newContent).lines, structured)
      ensures tooLong == ScanLines(newContent).tooLong
    {
      var scanned := ScanLines(newContent);
      for i := 0 to |scanned.lines|
        invariant Valid()
        invariant Emit(eventFile, scanned.lines[i..], structured) == Emit(old(eventFile), scanned.lines, structured)
      {
        var line := scanned.lines[i];
        assert scanned.lines[i..][0] == line && scanned.lines[i..][1..] == scanned.lines[i + 1..];
        if structured(line) {
          if line in seen {
            continue;
          }
          seen := seen + {line};
          eventFile := eventFile + [line];
        }
      }
      tooLong := scanned.tooLong;
    }

    method AppendNewLogContent(content: string, offset: nat) returns (next: nat)
      requires Valid()
      modifies this
      ensures Valid() && next == Consume(content, offset).1
      ensures LogText(logFile) == old(LogText(logFile)) + RedactLines(Consume(content, offset).0, redactLine)
      ensures ScannerError in logFile <==> ScannerError in old(logFile) || ScanLines(Consume(content, offset).0).tooLong
      ensures eventFile == Emit(old(eventFile), ScanLines(Consume(content, offset).0).lines, structured)
    {
      var start := offset;
      if start > |content| {
        start := 0;
      }
      if start == |content| {
        return start;
      }
      var (newContent, nextOffset) := CompleteContent(content, start);
      if newContent == "" {
        return start;
      }
      var redacted := RedactedLogContent(newContent, redactLine);
      LogTextAppend(logFile, Chunk(redacted));
      logFile := logFile + [Chunk(redacted)];
      var tooLong := EmitNew(newContent);
      if tooLong {
        LogTextAppend(logFile, ScannerError);
        logFile := logFile + [ScannerError];
      }
      return nextOffset;
    }

    method AppendNewEventContent(content: string, offset: nat) returns (next: nat)
      requires Valid()
      modifies this`eventFile, this`seen
      ensures Valid() && next == Consume(content, offset).1
      ensures eventFile == Emit(old(eventFile), ScanLines(Consume(content, offset).0).lines, structured)
    {
      var start := offset;
      if start > |content| {
        start := 0;
      }
      if start == |content| {
        return start;
      }
      var (newContent, nextOffset) := CompleteContent(content, start);
      if newContent == "" {
        return start;
      }
      var _ := EmitNew(newContent);
      return nextOffset;
    }

    /** The local files stand for the whole lines of the last reads among the first `n` polls, and the
        offsets are the ends of these lines. */
    ghost predicate Follows(logs: seq<Option<string>>, events: seq<Option<string>>, n: nat, logOffset: nat, eventOffset: nat)
      requires n <= |logs| == |events|
      reads this
    {
      && logOffset == CompleteLength(LastRead(logs, n))
      && eventOffset == CompleteLength(LastRead(events, n))
      && LogText(logFile) == RedactLines(Complete(LastRead(logs, n)), redactLine)
      && (ScannerError in logFile <==> ScanLines(Complete(LastRead(logs, n))).tooLong)
      && eventFile == Emit([], Stream(logs, events, n), structured)
    }

    /** The two reads at the start of one round; a file that shrinks is read again from its start. */
    method ReadRound(poll: Poll, ghost logs: seq<Option<string>>, ghost events: seq<Option<string>>, ghost n: nat,
                     logOffset: nat, eventOffset: nat)
      returns (logOffset': nat, eventOffset': nat)
      requires n < |logs| == |events| && logs[n] == poll.log && events[n] == poll.events
      requires Valid() && (Growing(logs, events) ==> Follows(logs, events, n, logOffset, eventOffset))
      modifies this
      ensures Valid() && (Growing(logs, events) ==> Follows(logs, events, n + 1, logOffset', eventOffset'))
    {
      if Growing(logs, events) {
        StreamStep(logs, events, n, structured);
        ReadStep(logs, n, redactLine);
        ReadStep(events, n, redactLine);
      }
      logOffset', eventOffset' := logOffset, eventOffset;
      if poll.log.Some? {
        logOffset' := AppendNewLogContent(poll.log.value, logOffset);
      }
      if poll.events.Some? {
        eventOffset' := AppendNewEventContent(poll.events.value, eventOffset);
      }
    }

    /** Polls until the exit marker is there or the instance is lost. None: still polling when the
        schedule ends. `n` polls were made, the last of which decides. */
    method MonitorRemote(polls: seq<Poll>, lost: InstanceRead -> Option<ErrorKind>)
      returns (outcome: Option<Verdict>, n: nat)
      requires Valid() && logFile == [] && eventFile == []
      modifies this
      ensures Valid() && n <= |polls| && outcome == MonitorOutcome(polls, lost)
      ensures DecidedAfter(polls, lost, n, outcome)
      ensures Growing(LogReads(polls), EventReads(polls)) ==>
                && LogText(logFile) == RedactLines(Complete(LastRead(LogReads(polls), n)), redactLine)
                && (ScannerError in logFile <==> ScanLines(Complete(LastRead(LogReads(polls), n))).tooLong)
                && eventFile == Emit([], Stream(LogReads(polls), EventReads(polls), n), structured)
    {
      ghost var logs, events := LogReads(polls), EventReads(polls);
      var logOffset: nat, eventOffset: nat := 0, 0;
      n := 0;
      while n < |polls|
        invariant n <= |polls| && Valid()
        invariant Growing(logs, events) ==> Follows(logs, events, n, logOffset, eventOffset)
        invariant MonitorOutcome(polls, lost) == MonitorOutcome(polls[n..], lost)
        invariant Uneventful(polls, lost, n)
      {
        var poll := polls[n];
        logOffset, eventOffset := ReadRound(poll, logs, events, n, logOffset, eventOffset);
        OnePoll(polls, lost, n);
        n := n + 1;
        var verdict := PollVerdict(poll, lost);
        if verdict != Continue {
          return Some(verdict), n;
        }
      }
      return None, n;
    }
  }

  // ---------- Polls ----------

  /** The exit marker file: unreadable or blank, unparsable, or an exit code with its reason. */
  datatype Marker = NoMarker | InvalidMarker | Exit(code: int, reason: string)

  /** What the provider says about the instance: an error, or a status and an address. */
  datatype InstanceRead = ReadError(kind: ErrorKind) | Read(status: string, ip: string)

  /** One round of polling; `sleeps` is false when the wait before the next round is interrupted. */
  datatype Poll = Poll(log: Option<string>, events: Option<string>, marker: Marker, instance: InstanceRead, sleeps: bool)

  datatype Verdict = Continue | Exited(code: int, reason: string) | Lost(kind: ErrorKind)

  function PollVerdict(poll: Poll, lost: InstanceRead -> Option<ErrorKind>): Verdict {
    match poll.marker
    case Exit(code, reason) => Exited(code, reason)
    case InvalidMarker => Lost(RuntimeError)
    case NoMarker =>
      match lost(poll.instance)
      case Some(kind) => Lost(kind)
      case None => if poll.sleeps then Continue else Lost(NetworkError)
  }

  /** The verdict of the first poll that has one. */
  function MonitorOutcome(polls: seq<Poll>, lost: InstanceRead -> Option<ErrorKind>): (o: Option<Verdict>)
    ensures o.Some? ==> o.value != Continue
  {
    if polls == [] then None
    else
      var verdict := PollVerdict(polls[0], lost);
      if verdict != Continue then Some(verdict) else MonitorOutcome(polls[1..], lost)
  }

  lemma OnePoll(polls: seq<Poll>, lost: InstanceRead -> Option<ErrorKind>, n: nat)
    requires n < |polls|
    ensures var verdict := PollVerdict(polls[n], lost);
            MonitorOutcome(polls[n..], lost) == if verdict != Continue then Some(verdict) else MonitorOutcome(polls[n + 1..], lost)
  {
    assert polls[n..][0] == polls[n] && polls[n..][1..] == polls[n + 1..];
  }

  /** The first `n` polls find no exit marker and an instance that is not lost, and none of the waits
      after them is interrupted. */
  ghost predicate Uneventful(polls: seq<Poll>, lost: InstanceRead -> Option<ErrorKind>, n: nat) {
    && n <= |polls|
    && forall i :: 0 <= i < n ==> polls[i].marker.NoMarker? && lost(polls[i].instance).None? && polls[i].sleeps
  }

  /** The poll has an exit marker with this code and reason. */
  ghost predicate TellsExit(poll: Poll, code: int, reason: string) {
    poll.marker == Exit(code, reason)
  }

  /** The poll has an exit marker that cannot be read; or it has none, and the instance is lost, or the
      wait after it is interrupted. */
  ghost predicate TellsLoss(poll: Poll, lost: InstanceRead -> Option<ErrorKind>, kind: ErrorKind) {
    || (poll.marker.InvalidMarker? && kind == RuntimeError)
    || (poll.marker.NoMarker? && lost(poll.instance) == Some(kind))
    || (poll.marker.NoMarker? && lost(poll.instance).None? && !poll.sleeps && kind == NetworkError)
  }

  /** The outcome after `n` polls: none when all were uneventful, and otherwise what the last one tells. */
  ghost predicate DecidedAfter(polls: seq<Poll>, lost: InstanceRead -> Option<ErrorKind>, n: nat, outcome: Option<Verdict>) {
    match outcome
    case None => n == |polls| && Uneventful(polls, lost, n)
    case Some(Exited(code, reason)) => 0 < n <= |polls| && Uneventful(polls, lost, n - 1) && TellsExit(polls[n - 1], code, reason)
    case Some(Lost(kind)) => 0 < n <= |polls| && Uneventful(polls, lost, n - 1) && TellsLoss(polls[n - 1], lost, kind)
    case Some(Continue) => false
  }

  lemma OneDecision(polls: seq<Poll>, lost: InstanceRead -> Option<ErrorKind>, n: nat, n': nat, outcome: Option<Verdict>,
                    outcome': Option<Verdict>)
    requires DecidedAfter(polls, lost, n, outcome) && DecidedAfter(polls, lost, n', outcome')
    ensures n == n' && outcome == outcome'
  {
  }

  lemma {:induction false} OutcomeDecides(polls: seq<Poll>, lost: InstanceRead -> Option<ErrorKind>) returns (n: nat)
    ensures DecidedAfter(polls, lost, n, MonitorOutcome(polls, lost))
  {
    if polls == [] {
      n := 0;
    } else if PollVerdict(polls[0], lost) != Continue {
      n := 1;
    } else {
      n := OutcomeDecides(polls[1..], lost);
      n := n + 1;
    }
  }

  /** The job is found to have exited exactly when some poll has its exit marker and all polls before it
      are uneventful. */
  lemma ExitedExactly(polls: seq<Poll>, lost: InstanceRead -> Option<ErrorKind>, code: int, reason: string)
    ensures MonitorOutcome(polls, lost) == Some(Exited(code, reason)) <==>
            exists k :: 0 <= k < |polls| && Uneventful(polls, lost, k) && TellsExit(polls[k], code, reason)
  {
    var n := OutcomeDecides(polls, lost);
    if MonitorOutcome(polls, lost) == Some(Exited(code, reason)) {
      assert Uneventful(polls, lost, n - 1) && TellsExit(polls[n - 1], code, reason);
    }
    if k :| 0 <= k < |polls| && Uneventful(polls, lost, k) && TellsExit(polls[k], code, reason) {
      OneDecision(polls, lost, n, k + 1, MonitorOutcome(polls, lost), Some(Exited(code, reason)));
    }
  }

  /** The job is given up exactly when some poll tells a loss and all polls before it are uneventful. */
  lemma LostExactly(polls: seq<Poll>, lost: InstanceRead -> Option<ErrorKind>, kind: ErrorKind)
    ensures MonitorOutcome(polls, lost) == Some(Lost(kind)) <==>
            exists k :: 0 <= k < |polls| && Uneventful(polls, lost, k) && TellsLoss(polls[k], lost, kind)
  {
    var n := OutcomeDecides(polls, lost);
    if MonitorOutcome(polls, lost) == Some(Lost(kind)) {
      assert Uneventful(polls, lost, n - 1) && TellsLoss(polls[n - 1], lost, kind);
    }
    if k :| 0 <= k < |polls| && Uneventful(polls, lost, k) && TellsLoss(polls[k], lost, kind) {
      OneDecision(polls, lost, n, k + 1, MonitorOutcome(polls, lost), Some(Lost(kind)));
    }
  }

  ghost function LogReads(polls: seq<Poll>): (snaps: seq<Option<string>>)
    ensures |snaps| == |polls| && forall i :: 0 <= i < |polls| ==> snaps[i] == polls[i].log
  {
    seq(|polls|, i requires 0 <= i < |polls| => polls[i].log)
  }

  ghost function EventReads(polls: seq<Poll>): (snaps: seq<Option<string>>)
    ensures |snaps| == |polls| && forall i :: 0 <= i < |polls| ==> snaps[i] == polls[i].events
  {
    seq(|polls|, i requires 0 <= i < |polls| => polls[i].events)
  }

  /** Each successful read extends the earlier ones. */
  ghost predicate AppendOnly(snaps: seq<Option<string>>) {
    forall i, j :: 0 <= i < j < |snaps| && snaps[i].Some? && snaps[j].Some? ==> snaps[i].value <= snaps[j].value
  }

  ghost predicate Growing(logs: seq<Option<string>>, events: seq<Option<string>>) {
    AppendOnly(logs) && AppendOnly(events)
  }

  /** The last of the first `n` reads that succeeded; nothing when none did. */
  ghost function LastRead(snaps: seq<Option<string>>, n: nat): string
    requires n <= |snaps|
  {
    if n == 0 then "" else if snaps[n - 1].Some? then snaps[n - 1].value else LastRead(snaps, n - 1)
  }

  /** The whole lines that the `n`-th poll is the first to see. */
  ghost function NewLines(snaps: seq<Option<string>>, n: nat): string
    requires n < |snaps|
  {
    var before, after := CompleteLength(LastRead(snaps, n)), LastRead(snaps, n + 1);
    if before <= CompleteLength(after) then after[before..CompleteLength(after)] else ""
  }

  /** The lines scanned during the first `n` polls, in the order they are processed. */
  ghost function Stream(logs: seq<Option<string>>, events: seq<Option<string>>, n: nat): seq<string>
    requires n <= |logs| == |events|
  {
    if n == 0 then []
    else
      Stream(logs, events, n - 1) + ScanLines(NewLines(logs, n - 1)).lines + ScanLines(NewLines(events, n - 1)).lines
  }

  lemma {:induction false} StreamStep(logs: seq<Option<string>>, events: seq<Option<string>>, n: nat, structured: string -> bool)
    requires n < |logs| == |events|
    ensures Emit([], Stream(logs, events, n + 1), structured)
         == Emit(Emit(Emit([], Stream(logs, events, n), structured), ScanLines(NewLines(logs, n)).lines, structured),
                 ScanLines(NewLines(events, n)).lines, structured)
  {
    var s, a, b := Stream(logs, events, n), ScanLines(NewLines(logs, n)).lines, ScanLines(NewLines(events, n)).lines;
    EmitAppend([], s + a, b, structured);
    EmitAppend([], s, a, structured);
  }

  lemma {:induction false} LastReadGrows(snaps: seq<Option<string>>, n: nat)
    requires AppendOnly(snaps) && n < |snaps|
    ensures LastRead(snaps, n) <= LastRead(snaps, n + 1)
    ensures LastRead(snaps, n) == "" || exists i :: 0 <= i < n && snaps[i].Some? && snaps[i].value == LastRead(snaps, n)
  {
    if n > 0 {
      LastReadGrows(snaps, n - 1);
    }
  }

  lemma NewLinesExtend(snaps: seq<Option<string>>, n: nat)
    requires AppendOnly(snaps) && n < |snaps|
    ensures Complete(LastRead(snaps, n + 1)) == Complete(LastRead(snaps, n)) + NewLines(snaps, n)
  {
    LastReadGrows(snaps, n);
    CompleteLengthGrows(LastRead(snaps, n), LastRead(snaps, n + 1));
  }

  lemma ConsumeStep(snaps: seq<Option<string>>, n: nat)
    requires AppendOnly(snaps) && n < |snaps|
    ensures var before, after := LastRead(snaps, n), LastRead(snaps, n + 1);
            Consume(after, CompleteLength(before)) == (NewLines(snaps, n), CompleteLength(after))
  {
    var before, after := LastRead(snaps, n), LastRead(snaps, n + 1);
    LastReadGrows(snaps, n);
    CompleteLengthGrows(before, after);
    CompleteContentIs(after, CompleteLength(before));
  }

  /** One poll: what `Consume` yields, and how the whole-line prefix, its redaction and its scan grow. */
  lemma {:induction false} ReadStep(snaps: seq<Option<string>>, n: nat, redactLine: string -> string)
    requires AppendOnly(snaps) && n < |snaps|
    ensures var before, after := LastRead(snaps, n), LastRead(snaps, n + 1);
            && Consume(after, CompleteLength(before)) == (NewLines(snaps, n), CompleteLength(after))
            && RedactLines(Complete(after), redactLine)
               == RedactLines(Complete(before), redactLine) + RedactLines(NewLines(snaps, n), redactLine)
            && (ScanLines(Complete(after)).tooLong
                <==> ScanLines(Complete(before)).tooLong || ScanLines(NewLines(snaps, n)).tooLong)
            && (snaps[n].None? ==> before == after && NewLines(snaps, n) == "")
  {
    var before := LastRead(snaps, n);
    ConsumeStep(snaps, n);
    NewLinesExtend(snaps, n);
    RedactLinesSplit(Complete(before), NewLines(snaps, n), redactLine);
    ScanLinesSplit(Complete(before), NewLines(snaps, n));
  }

  // ---------- The events, independently of the schedule ----------

  /** The lines of `s`, without a trailing carriage return, however long they are. */
  ghost function AllLines(s: string): seq<string>
    decreases |s|
  {
    if s == "" then [] else [DropCR(s[..LineLength(s)])] + AllLines(AfterLine(s))
  }

  lemma {:induction false} ScannedAreLines(s: string)
    ensures ScanLines(s).lines <= AllLines(s)
    ensures !ScanLines(s).tooLong ==> ScanLines(s).lines == AllLines(s)
    decreases |s|
  {
    if s != "" {
      ScannedAreLines(AfterLine(s));
    }
  }

  lemma {:induction false} AllLinesSplit(a: string, b: string)
    requires WholeLines(a)
    ensures AllLines(a + b) == AllLines(a) + AllLines(b)
    decreases |a|
  {
    if a == "" {
      assert a + b == b;
    } else {
      LineOfConcat(a, b);
      AllLinesSplit(AfterLine(a), b);
      Prefixed([DropCR(a[..LineLength(a)])], AllLines(AfterLine(a)), AllLines(b));
    }
  }

  /** The whole lines consumed from one file during the first `n` polls. */
  ghost function ConsumedLines(snaps: seq<Option<string>>, n: nat): seq<string>
    requires n <= |snaps|
  {
    AllLines(Complete(LastRead(snaps, n)))
  }

  lemma {:induction false} ConsumedStep(snaps: seq<Option<string>>, n: nat)
    requires AppendOnly(snaps) && n < |snaps|
    ensures ConsumedLines(snaps, n + 1) == ConsumedLines(snaps, n) + AllLines(NewLines(snaps, n))
    ensures ScanLines(Complete(LastRead(snaps, n + 1))).tooLong
       <==> ScanLines(Complete(LastRead(snaps, n))).tooLong || ScanLines(NewLines(snaps, n)).tooLong
  {
    var before := LastRead(snaps, n);
    NewLinesExtend(snaps, n);
    AllLinesSplit(Complete(before), NewLines(snaps, n));
    ScanLinesSplit(Complete(before), NewLines(snaps, n));
  }

  lemma {:induction false} ScannedIn(s: string, x: string)
    ensures x in ScanLines(s).lines ==> x in AllLines(s)
    ensures !ScanLines(s).tooLong ==> (x in ScanLines(s).lines <==> x in AllLines(s))
  {
    ScannedAreLines(s);
  }

  lemma {:induction false} ConsumedIn(snaps: seq<Option<string>>, n: nat, x: string)
    requires AppendOnly(snaps) && n < |snaps|
    ensures x in ConsumedLines(snaps, n + 1) <==> x in ConsumedLines(snaps, n) || x in AllLines(NewLines(snaps, n))
    ensures x in ScanLines(NewLines(snaps, n)).lines ==> x in AllLines(NewLines(snaps, n))
    ensures !ScanLines(Complete(LastRead(snaps, n + 1))).tooLong ==>
              && !ScanLines(Complete(LastRead(snaps, n))).tooLong
              && (x in ScanLines(NewLines(snaps, n)).lines <==> x in AllLines(NewLines(snaps, n)))
  {
    ConsumedStep(snaps, n);
    ScannedIn(NewLines(snaps, n), x);
  }

  /** No scanned line was too long in the first `n` polls of one file. */
  ghost predicate Fits(snaps: seq<Option<string>>, n: nat)
    requires n <= |snaps|
  {
    !ScanLines(Complete(LastRead(snaps, n))).tooLong
  }

  lemma {:induction false} StreamIn(logs: seq<Option<string>>, events: seq<Option<string>>, n: nat, x: string)
    requires n < |logs| == |events|
    ensures x in Stream(logs, events, n + 1) <==>
            x in Stream(logs, events, n) || x in ScanLines(NewLines(logs, n)).lines || x in ScanLines(NewLines(events, n)).lines
  {
  }

  lemma {:induction false} StreamLine(logs: seq<Option<string>>, events: seq<Option<string>>, n: nat, x: string)
    requires n <= |logs| == |events| && AppendOnly(logs) && AppendOnly(events)
    ensures x in Stream(logs, events, n) ==> x in ConsumedLines(logs, n) || x in ConsumedLines(events, n)
    ensures Fits(logs, n) && Fits(events, n) ==>
              (x in ConsumedLines(logs, n) || x in ConsumedLines(events, n) ==> x in Stream(logs, events, n))
  {
    if n > 0 {
      var m := n - 1;
      StreamLine(logs, events, m, x);
      StreamIn(logs, events, m, x);
      ConsumedIn(logs, m, x);
      ConsumedIn(events, m, x);
    }
  }

  /** Main result on events: whatever the schedule, no line is emitted twice and every emitted line is a
      structured line of one of the consumed prefixes; when no line is too long for the scanner, every
      such line is emitted. */
  lemma EventsAreDistinctStructuredLines(logs: seq<Option<string>>, events: seq<Option<string>>, n: nat, structured: string -> bool)
    requires n <= |logs| == |events| && AppendOnly(logs) && AppendOnly(events)
    ensures var emitted := Emit([], Stream(logs, events, n), structured);
            && NoRepeats(emitted)
            && (forall x :: x in emitted ==> structured(x) && (x in ConsumedLines(logs, n) || x in ConsumedLines(events, n)))
            && (Fits(logs, n) && Fits(events, n) ==>
                  forall x :: structured(x) && (x in ConsumedLines(logs, n) || x in ConsumedLines(events, n)) ==> x in emitted)
  {
    EmitIs([], Stream(logs, events, n), structured);
    forall x { StreamLine(logs, events, n, x); }
  }

  lemma {:induction false} ScannedLineFits(s: string, x: string)
    requires x in ScanLines(s).lines
    ensures |x| < MAX_TOKEN
    decreases |s|
  {
    if x != DropCR(s[..LineLength(s)]) {
      ScannedLineFits(AfterLine(s), x);
    }
  }

  lemma {:induction false} StreamLineFits(logs: seq<Option<string>>, events: seq<Option<string>>, n: nat, x: string)
    requires n <= |logs| == |events| && x in Stream(logs, events, n)
    ensures |x| < MAX_TOKEN
  {
    var m := n - 1;
    StreamIn(logs, events, m, x);
    if x in Stream(logs, events, m) {
      StreamLineFits(logs, events, m, x);
      return;
    }
    if x in ScanLines(NewLines(logs, m)).lines {
      ScannedLineFits(NewLines(logs, m), x);
      return;
    }
    ScannedLineFits(NewLines(events, m), x);
  }

  /** All structured lines of the consumed prefixes are emitted. */
  ghost predicate AllEmitted(logs: seq<Option<string>>, events: seq<Option<string>>, n: nat, structured: string -> bool)
    requires n <= |logs| == |events|
  {
    forall x :: structured(x) && (x in ConsumedLines(logs, n) || x in ConsumedLines(events, n)) ==>
      x in Emit([], Stream(logs, events, n), structured)
  }

  /** A line whose text does not fit the scanner is never emitted, whatever the schedule. */
  lemma LongLineIsLost(logs: seq<Option<string>>, events: seq<Option<string>>, n: nat, structured: string -> bool, x: string)
    requires n <= |logs| == |events| && |x| >= MAX_TOKEN
    ensures x !in Emit([], Stream(logs, events, n), structured)
  {
    EmitIs([], Stream(logs, events, n), structured);
    if x in Stream(logs, events, n) {
      StreamLineFits(logs, events, n, x);
    }
  }

  // ---------- The worst schedule is one read ----------

  /** Scanning two parts one after the other loses no line that scanning both at once keeps. */
  lemma {:induction false} PartsKeepLines(a: string, b: string, x: string)
    requires WholeLines(a) && x in ScanLines(a + b).lines
    ensures x in ScanLines(a).lines || x in ScanLines(b).lines
    decreases |a|
  {
    if a == "" {
      assert a + b == b;
      return;
    }
    ScanStep(a, b);
    ScanStep(a, "");
    LineOfConcat(a, "");
    assert a + "" == a && AfterLine(a) + "" == AfterLine(a);
    if x != DropCR(a[..LineLength(a)]) {
      PartsKeepLines(AfterLine(a), b, x);
    }
  }

  lemma {:induction false} StreamKeepsLines(logs: seq<Option<string>>, events: seq<Option<string>>, n: nat, snaps: seq<Option<string>>,
                                            x: string)
    requires n <= |logs| == |events| && (snaps == logs || snaps == events) && AppendOnly(snaps)
    requires x in ScanLines(Complete(LastRead(snaps, n))).lines
    ensures x in Stream(logs, events, n)
  {
    if n == 0 {
      return;
    }
    var m := n - 1;
    StreamIn(logs, events, m, x);
    OneMorePoll(snaps, m, x);
    if x in ScanLines(Complete(LastRead(snaps, m))).lines {
      StreamKeepsLines(logs, events, m, snaps, x);
    }
  }

  lemma OneMorePoll(snaps: seq<Option<string>>, n: nat, x: string)
    requires AppendOnly(snaps) && n < |snaps| && x in ScanLines(Complete(LastRead(snaps, n + 1))).lines
    ensures x in ScanLines(Complete(LastRead(snaps, n))).lines || x in ScanLines(NewLines(snaps, n)).lines
  {
    NewLinesExtend(snaps, n);
    PartsKeepLines(Complete(LastRead(snaps, n)), NewLines(snaps, n), x);
  }

  /** Reads of the two files, each file growing, that end with `log` and `ev`. */
  ghost predicate ReadsOf(logs: seq<Option<string>>, events: seq<Option<string>>, log: string, ev: string) {
    && |logs| == |events| && AppendOnly(logs) && AppendOnly(events)
    && LastRead(logs, |logs|) == log && LastRead(events, |events|) == ev
  }

  /** Every structured line of the two files is scanned when each file is read at once. */
  ghost predicate OneReadSuffices(log: string, ev: string, structured: string -> bool) {
    forall x :: structured(x) && (x in AllLines(Complete(log)) || x in AllLines(Complete(ev))) ==>
      x in ScanLines(Complete(log)).lines || x in ScanLines(Complete(ev)).lines
  }

  lemma OneReadIsWorst(logs: seq<Option<string>>, events: seq<Option<string>>, log: string, ev: string, structured: string -> bool)
    requires ReadsOf(logs, events, log, ev) && OneReadSuffices(log, ev, structured)
    ensures AllEmitted(logs, events, |logs|, structured)
  {
    var n := |logs|;
    EmitIs([], Stream(logs, events, n), structured);
    forall x | structured(x) && (x in ConsumedLines(logs, n) || x in ConsumedLines(events, n)) ensures x in Stream(logs, events, n) {
      if x in ScanLines(Complete(log)).lines {
        StreamKeepsLines(logs, events, n, logs, x);
      } else {
        StreamKeepsLines(logs, events, n, events, x);
      }
    }
  }

  lemma OneReadShows(log: string, ev: string, structured: string -> bool)
    requires AllEmitted([Some(log)], [Some(ev)], 1, structured)
    ensures OneReadSuffices(log, ev, structured)
  {
    var logs, events := [Some(log)], [Some(ev)];
    EmitIs([], Stream(logs, events, 1), structured);
    FirstRead(logs, log);
    FirstRead(events, ev);
    forall x | structured(x) && (x in AllLines(Complete(log)) || x in AllLines(Complete(ev)))
      ensures x in ScanLines(Complete(log)).lines || x in ScanLines(Complete(ev)).lines
    {
      StreamIn(logs, events, 0, x);
    }
  }

  lemma FirstRead(snaps: seq<Option<string>>, content: string)
    requires snaps == [Some(content)]
    ensures NewLines(snaps, 0) == Complete(content) && LastRead(snaps, 1) == content
  {
    NewLinesExtend(snaps, 0);
  }

  /** Exactly for which files the events are complete whatever the schedule of reads: when every
      structured line is among the lines that the scanner keeps of one of the two files read at once,
      those before the first line that does not fit. */
  lemma EventsCompleteExactly(log: string, ev: string, structured: string -> bool)
    ensures (forall logs, events :: ReadsOf(logs, events, log, ev) ==> AllEmitted(logs, events, |logs|, structured))
       <==> OneReadSuffices(log, ev, structured)
  {
    if OneReadSuffices(log, ev, structured) {
      forall logs, events | ReadsOf(logs, events, log, ev) ensures AllEmitted(logs, events, |logs|, structured) {
        OneReadIsWorst(logs, events, log, ev, structured);
      }
    }
    if forall logs, events :: ReadsOf(logs, events, log, ev) ==> AllEmitted(logs, events, |logs|, structured) {
      assert ReadsOf([Some(log)], [Some(ev)], log, ev);
      OneReadShows(log, ev, structured);
    }
  }

  lemma {:induction false} OneLine(line: string, rest: string)
    requires forall i :: 0 <= i < |line| ==> line[i] != '\n'
    ensures LineLength(line + "\n" + rest) == |line|
    ensures AfterLine(line + "\n" + rest) == rest
    ensures (line + "\n" + rest)[..|line|] == line
  {
    FirstLineUnique(line + "\n" + rest, |line|);
  }

  /** What the scanner makes of a line: its text without a carriage return at its end; and a line of 16 MiB or
      more ends the scan. */
  lemma {:induction false} NextLineScanned(line: string, rest: string)
    requires forall i :: 0 <= i < |line| ==> line[i] != '\n'
    ensures |line| >= 16777216 ==> ScanLines(line + "\n" + rest) == Scanned([], true)
    ensures |line| < 16777216 && (line == "" || line[|line| - 1] != '\r') ==>
              ScanLines(line + "\n" + rest) == Scanned([line] + ScanLines(rest).lines, ScanLines(rest).tooLong)
    ensures 0 < |line| < 16777216 && line[|line| - 1] == '\r' ==>
              ScanLines(line + "\n" + rest) == Scanned([line[..|line| - 1]] + ScanLines(rest).lines, ScanLines(rest).tooLong)
  {
    OneLine(line, rest);
  }

  lemma {:induction false} QuietEvents(logs: seq<Option<string>>, events: seq<Option<string>>, n: nat)
    requires n < |logs| == |events| && events[n].None?
    requires WholeLines(LastRead(logs, n)) && WholeLines(LastRead(logs, n + 1)) && LastRead(logs, n) <= LastRead(logs, n + 1)
    ensures Stream(logs, events, n + 1)
         == Stream(logs, events, n) + ScanLines(LastRead(logs, n + 1)[|LastRead(logs, n)|..]).lines
  {
    var before, after := LastRead(logs, n), LastRead(logs, n + 1);
    CompleteLengthUnique(before, |before|);
    CompleteLengthUnique(after, |after|);
    assert NewLines(logs, n) == after[|before|..];
    assert NewLines(events, n) == "";
  }

  /** A long line and an event line, read in one poll. */
  ghost function AtOnce(long: string, event: string): seq<Option<string>> {
    [Some(long + "\n" + (event + "\n"))]
  }

  /** The same two lines, the long one read before the other is there. */
  ghost function OneByOne(long: string, event: string): seq<Option<string>> {
    [Some(long + "\n"), Some(long + "\n" + (event + "\n"))]
  }

  /** With a line too long for the scanner, the emitted events do depend on the schedule: the event
      after it is lost when both arrive in one poll, and emitted when they arrive in two. */
  lemma LongLineLosesEvent(long: string, event: string, structured: string -> bool)
    requires |long| >= MAX_TOKEN > |event|
    requires forall i :: 0 <= i < |long| ==> long[i] != '\n'
    requires forall i :: 0 <= i < |event| ==> event[i] != '\n'
    requires DropCR(event) == event && structured(event)
    ensures Emit([], Stream(AtOnce(long, event), [None], 1), structured) == []
    ensures Emit([], Stream(OneByOne(long, event), [None, None], 2), structured) == [event]
  {
    OnePollLoses(long, event);
    TwoPollsKeep(long, event);
    EmitOne(event, structured);
  }

  lemma {:induction false} EmitOne(event: string, structured: string -> bool)
    requires structured(event)
    ensures Emit([], [event], structured) == [event]
  {
    assert Emit([event], [event][1..], structured) == [event];
  }

  lemma {:induction false} OnePollLoses(long: string, event: string)
    requires |long| >= MAX_TOKEN && forall i :: 0 <= i < |long| ==> long[i] != '\n'
    ensures Stream(AtOnce(long, event), [None], 1) == []
  {
    ScanLong(long, event + "\n");
    FirstPoll(AtOnce(long, event), [None], long + "\n" + (event + "\n"));
  }

  lemma {:induction false} TwoPollsKeep(long: string, event: string)
    requires |long| >= MAX_TOKEN > |event|
    requires forall i :: 0 <= i < |long| ==> long[i] != '\n'
    requires forall i :: 0 <= i < |event| ==> event[i] != '\n'
    ensures Stream(OneByOne(long, event), [None, None], 2) == [DropCR(event)]
  {
    var first, second := long + "\n", event + "\n";
    ScanLong(long, "");
    assert first + "" == first;
    ScanShort(event);
    FirstPoll(OneByOne(long, event), [None, None], first);
    SecondPoll(OneByOne(long, event), [None, None], first, second);
  }

  lemma {:induction false} ScanLong(long: string, rest: string)
    requires |long| >= MAX_TOKEN && forall i :: 0 <= i < |long| ==> long[i] != '\n'
    ensures ScanLines(long + "\n" + rest) == Scanned([], true)
  {
    OneLine(long, rest);
  }

  lemma {:induction false} ScanShort(event: string)
    requires |event| < MAX_TOKEN && forall i :: 0 <= i < |event| ==> event[i] != '\n'
    ensures ScanLines(event + "\n") == Scanned([DropCR(event)], false)
  {
    OneLine(event, "");
    assert event + "\n" + "" == event + "\n";
  }

  lemma {:induction false} FirstPoll(logs: seq<Option<string>>, events: seq<Option<string>>, first: string)
    requires |logs| == |events| >= 1 && logs[0] == Some(first) && events[0].None? && WholeLines(first)
    ensures Stream(logs, events, 1) == ScanLines(first).lines
  {
    assert LastRead(logs, 0) == "" && LastRead(logs, 1) == first;
    QuietEvents(logs, events, 0);
    assert first[0..] == first;
  }

  lemma {:induction false} SecondPoll(logs: seq<Option<string>>, events: seq<Option<string>>, first: string, second: string)
    requires |logs| == |events| >= 2 && logs[0] == Some(first) && logs[1] == Some(first + second) && events[1].None?
    requires WholeLines(first) && WholeLines(first + second)
    ensures Stream(logs, events, 2) == Stream(logs, events, 1) + ScanLines(second).lines
  {
    assert LastRead(logs, 1) == first && LastRead(logs, 2) == first + second;
    QuietEvents(logs, events, 1);
    assert (first + second)[|first|..] == second;
  }
}
