/** The line dispatch and the backup run of main.go: decode the envelope of
    each line, act on its message kind, and sequence the repository probe,
    the backup and the report for one location.

    Logging is not modelled; `sendResult` is reduced to the arguments it is
    called with (a `Report`). */
module Backup {
  import opened Results
  import opened Deser
  import opened Invoke

  /** unmarshalThen: decode a line, panic on a decode error, otherwise pass
      the decoded value and the line on to `andThen`. `log.Panic` formats its
      operands with fmt.Sprint, which puts no space after a string operand. */
  function UnmarshalThen<T, R>(unmarshaller: Line -> Result<T>, andThen: (T, Line) -> Call<R>): (f: Line -> Call<R>)
    ensures forall line :: unmarshaller(line).Err? ==> f(line) == Panic("when unmarshalling" + unmarshaller(line).error)
    ensures forall line :: unmarshaller(line).Ok? ==> f(line) == andThen(unmarshaller(line).value, line)
  {
    line =>
      match unmarshaller(line)
      case Err(e) => Panic("when unmarshalling" + e)
      case Ok(v) => andThen(v, line)
  }

  /** A decode error aborts before `andThen` is called: the outcome does not
      depend on `andThen` at all. Otherwise the outcome is `andThen` on the decoded
      value and the same line. */
  lemma UnmarshalThenCases<T, R>(unmarshaller: Line -> Result<T>, andThen: (T, Line) -> Call<R>,
                                 other: (T, Line) -> Call<R>, line: Line)
    ensures unmarshaller(line).Err? ==>
      UnmarshalThen(unmarshaller, andThen)(line) == UnmarshalThen(unmarshaller, other)(line) ==
      Panic("when unmarshalling" + unmarshaller(line).error)
    ensures unmarshaller(line).Ok? ==>
      UnmarshalThen(unmarshaller, andThen)(line) == andThen(unmarshaller(line).value, line)
  {
  }

  /** actionUntypedMessage: dispatch on the message kind of the envelope `m`,
      decoding `rest` again under that kind. */
  function ActionUntypedMessage(codec: Codec, m: UntypedMessage, rest: Line): (c: Call<Option<SummaryMessage>>)
    // a non-nil pointer exactly for a summary that decodes, holding that record
    ensures (c.Return? && c.value.Some?) <==> (m.messageType == "summary" && codec.summary(rest).Ok?)
    ensures c.Return? && c.value.Some? ==> c.value.value == codec.summary(rest).value
    // a panic exactly when a status or summary payload does not decode, with the decoder's error
    ensures c.Panic? <==>
      (m.messageType == "status" && codec.status(rest).Err?) ||
      (m.messageType == "summary" && codec.summary(rest).Err?)
    ensures c.Panic? && m.messageType == "status" ==> c.reason == codec.status(rest).error
    ensures c.Panic? && m.messageType == "summary" ==> c.reason == codec.summary(rest).error
    // status lines and unknown kinds return nil
    ensures m.messageType != "summary" && c.Return? ==> c.value == None
    ensures m.messageType != "status" && m.messageType != "summary" ==> c == Return(None)
  {
    match m.messageType
    case "status" =>
      (match codec.status(rest)
       case Err(e) => Panic(e)
       case Ok(_) => Return(None))
    case "summary" =>
      (match codec.summary(rest)
       case Err(e) => Panic(e)
       case Ok(summary) => Return(Some(summary)))
    case _ => Return(None)
  }

  /** consume: the probe's transformer, which discards every line. */
  function Consume(line: Line): (c: Call<Option<string>>)
    ensures c == Return(Some("unused"))
  {
    Return(Some("unused"))
  }

  /** The transformer of the backup invocation:
      unmarshalThen(UnmarshalUntypedMessage, actionUntypedMessage). */
  function BackupTransformer(codec: Codec): (f: Line -> Call<Option<SummaryMessage>>)
    // an envelope that does not decode aborts before any dispatch
    ensures forall line :: codec.untyped(line).Err? ==>
      f(line) == Panic("when unmarshalling" + codec.untyped(line).error)
    // otherwise the line is dispatched on its own envelope, and the payload decoded from the same line
    ensures forall line :: codec.untyped(line).Ok? ==>
      f(line) == ActionUntypedMessage(codec, codec.untyped(line).value, line)
  {
    UnmarshalThen(codec.untyped, (m, rest) => ActionUntypedMessage(codec, m, rest))
  }

  /** A line the backup transformer handles without panicking: its envelope
      decodes, and a status or summary payload decodes under its kind. */
  predicate WellFormed(codec: Codec, line: Line)
  {
    codec.untyped(line).Ok? &&
    (codec.untyped(line).value.messageType == "status" ==> codec.status(line).Ok?) &&
    (codec.untyped(line).value.messageType == "summary" ==> codec.summary(line).Ok?)
  }

  /** A line that is a decodable summary, holding `s`. */
  predicate IsSummary(codec: Codec, line: Line, s: SummaryMessage)
  {
    codec.untyped(line).Ok? && codec.untyped(line).value.messageType == "summary" &&
    codec.summary(line) == Ok(s)
  }

  /** One line through the backup transformer: it panics exactly on a line
      that is not well formed; otherwise it returns a summary exactly for a
      summary line and nil for every other kind. */
  lemma BackupTransformerOnLine(codec: Codec, line: Line)
    ensures BackupTransformer(codec)(line).Return? <==> WellFormed(codec, line)
    ensures codec.untyped(line).Err? ==>
      BackupTransformer(codec)(line) == Panic("when unmarshalling" + codec.untyped(line).error)
    ensures WellFormed(codec, line) ==>
      BackupTransformer(codec)(line) ==
        if codec.untyped(line).value.messageType == "summary"
        then Return(Some(codec.summary(line).value)) else Return(None)
  {
    if codec.untyped(line).Ok? {
      var m := codec.untyped(line).value;
      assert BackupTransformer(codec)(line) == ActionUntypedMessage(codec, m, line);
    }
  }

  /** A cleanly exiting backup of well-formed lines returns without error,
      and returns a summary exactly when the LAST line is a summary line, that
      line's record. Earlier summaries do not survive a later line. */
  lemma {:induction false} BackupResultIsLastLine(codec: Codec, p: Process)
    requires p.startError.None? && p.scanError.None? && p.exitError.None?
    requires forall k :: 0 <= k < |p.stdout| ==> WellFormed(codec, p.stdout[k])
    ensures Invoked(BackupTransformer(codec), p).Done?
    ensures Invoked(BackupTransformer(codec), p).err.None?
    ensures Invoked(BackupTransformer(codec), p).result.Some? <==>
      p.stdout != [] && codec.untyped(p.stdout[|p.stdout| - 1]).Ok? &&
      codec.untyped(p.stdout[|p.stdout| - 1]).value.messageType == "summary"
    ensures Invoked(BackupTransformer(codec), p).result.Some? ==>
      IsSummary(codec, p.stdout[|p.stdout| - 1], Invoked(BackupTransformer(codec), p).result.value)
  {
    var t := BackupTransformer(codec);
    forall k | 0 <= k < |p.stdout| ensures t(p.stdout[k]).Return? {
      BackupTransformerOnLine(codec, p.stdout[k]);
    }
    SuccessIsLastLine(t, p);
    if p.stdout != [] {
      BackupTransformerOnLine(codec, p.stdout[|p.stdout| - 1]);
    }
  }

  /** A stream of status lines only, exiting cleanly, yields no summary. */
  lemma StatusOnlyYieldsNoSummary(codec: Codec, p: Process)
    requires p.startError.None? && p.scanError.None? && p.exitError.None?
    requires forall k :: 0 <= k < |p.stdout| ==>
      WellFormed(codec, p.stdout[k]) && codec.untyped(p.stdout[k]).value.messageType == "status"
    ensures Invoked(BackupTransformer(codec), p) == Done(None, None)
  {
    BackupResultIsLastLine(codec, p);
  }

  /** A clean stream whose last line is well formed but not a summary yields
      nil, whatever came before: a status line or a line of unknown kind after
      a summary erases that summary. */
  lemma SummaryLostAfterLaterLine(codec: Codec, p: Process)
    requires p.startError.None? && p.scanError.None? && p.exitError.None?
    requires forall k :: 0 <= k < |p.stdout| ==> WellFormed(codec, p.stdout[k])
    requires p.stdout != [] && codec.untyped(p.stdout[|p.stdout| - 1]).Ok? &&
             codec.untyped(p.stdout[|p.stdout| - 1]).value.messageType != "summary"
    ensures Invoked(BackupTransformer(codec), p) == Done(None, None)
  {
    BackupResultIsLastLine(codec, p);
  }

  /** The first line that is not well formed aborts the backup invocation
      with a panic: "when unmarshalling" and the envelope error when the
      envelope does not decode, otherwise the payload decoder's error. */
  lemma MalformedLineAborts(codec: Codec, p: Process, j: nat)
    requires p.startError.None?
    requires j < |p.stdout| && !WellFormed(codec, p.stdout[j])
    requires forall k :: 0 <= k < j ==> WellFormed(codec, p.stdout[k])
    ensures Invoked(BackupTransformer(codec), p) == Panicked(BackupTransformer(codec)(p.stdout[j]).reason)
    ensures codec.untyped(p.stdout[j]).Err? ==>
      Invoked(BackupTransformer(codec), p) == Panicked("when unmarshalling" + codec.untyped(p.stdout[j]).error)
    ensures codec.untyped(p.stdout[j]).Ok? && codec.untyped(p.stdout[j]).value.messageType == "summary" ==>
      Invoked(BackupTransformer(codec), p) == Panicked(codec.summary(p.stdout[j]).error)
    ensures codec.untyped(p.stdout[j]).Ok? && codec.untyped(p.stdout[j]).value.messageType == "status" ==>
      Invoked(BackupTransformer(codec), p) == Panicked(codec.status(p.stdout[j]).error)
  {
    var t := BackupTransformer(codec);
    forall k | 0 <= k < j ensures t(p.stdout[k]).Return? {
      BackupTransformerOnLine(codec, p.stdout[k]);
    }
    BackupTransformerOnLine(codec, p.stdout[j]);
    ScanStopsAtFirstPanic(t, p.stdout, None, j);
    if codec.untyped(p.stdout[j]).Ok? {
      var m := codec.untyped(p.stdout[j]).value;
      assert t(p.stdout[j]) == ActionUntypedMessage(codec, m, p.stdout[j]);
    }
  }

  /** The probe never panics; on success its result is nil for an empty
      output and a pointer to "unused" otherwise. */
  lemma ProbeOutcome(p: Process)
    ensures !Invoked(Consume, p).Panicked?
    ensures Invoked(Consume, p).Done? && Invoked(Consume, p).err.None? ==>
      Invoked(Consume, p).result == if p.stdout == [] then None else Some("unused")
  {
    SuccessIsLastLine(Consume, p);
    if p.startError.None? {
      ScanReturnsLast(Consume, p.stdout, None);
    }
  }

  /** The name of the backup tool. */
  const Restic := "restic"

  /** The arguments of the repository probe, `restic cat config`. */
  const ProbeArgs := ["cat", "config"]

  /** The arguments sendResult is called with (the captured log text aside). */
  datatype Report = Report(success: bool, summary: Option<SummaryMessage>)

  /** How doBackup ends for one location. */
  datatype BackupEnd =
    // the probe returned an error: doBackup returns, nothing is reported
    | ProbeRejected(err: string)
    // sendResult(logs, true, summary) is called and doBackup returns
    | Reported(report: Report)
    // a panic is recovered: sendResult(logs, false, nil), then os.Exit(1)
    | PanicReported(reason: string, report: Report)
    // log.Fatal inside invokeCommand: the program exits, nothing is reported
    | FatalExit(reason: string)

  /** The argument list of the backup invocation: `backup <location>`,
      followed by `--exclude <ignore>` exactly when `ignore` is set. */
  function BackupArgs(location: string, ignore: string): (args: seq<string>)
    ensures |args| >= 2 && args[0] == "backup" && args[1] == location
    ensures ignore != "" <==> |args| == 4
    ensures ignore == "" <==> |args| == 2
    ensures ignore != "" ==> args[2] == "--exclude" && args[3] == ignore
  {
    ["backup", location] + (if ignore != "" then ["--exclude", ignore] else [])
  }

  /** doBackup for `location`, with `ignore` the value of AUTORESTIC_IGNORE.
      `ran` lists the argument lists restic is invoked with, in order. */
  method DoBackup(codec: Codec, location: string, ignore: string, system: Spawner)
    returns (end: BackupEnd, ghost ran: seq<seq<string>>)
    // the probe always runs first; the backup runs only after a clean probe
    ensures var probe := Invoked(Consume, system(Restic, ProbeArgs + ["--json"]));
      ran == if probe.Done? && probe.err.None? then [ProbeArgs, BackupArgs(location, ignore)] else [ProbeArgs]
    // a probe that does not return cleanly ends the unit: an error is not reported
    ensures var probe := Invoked(Consume, system(Restic, ProbeArgs + ["--json"]));
      (probe.Fatal? ==> end == FatalExit(probe.reason)) &&
      (probe.Panicked? ==> end == PanicReported(probe.reason, Report(false, None))) &&
      (probe.Done? && probe.err.Some? ==> end == ProbeRejected(probe.err.value))
    // after a clean probe: the backup's error is discarded and its result is reported as a success
    ensures var probe := Invoked(Consume, system(Restic, ProbeArgs + ["--json"]));
      var backup := Invoked(BackupTransformer(codec), system(Restic, BackupArgs(location, ignore) + ["--json"]));
      probe.Done? && probe.err.None? ==>
        (backup.Fatal? ==> end == FatalExit(backup.reason)) &&
        (backup.Panicked? ==> end == PanicReported(backup.reason, Report(false, None))) &&
        (backup.Done? ==> end == Reported(Report(true, backup.result)))
    // sendResult is called with success = true only on a normal return, and then always
    ensures end.Reported? ==> end.report.success
    ensures end.PanicReported? ==> end.report == Report(false, None)
  {
    ran := [ProbeArgs];
    var probe, _ := InvokeCommand(Consume, Restic, ProbeArgs, system);
    match probe
    case Fatal(reason) =>
      end := FatalExit(reason);
      return;
    case Panicked(reason) =>
      end := PanicReported(reason, Report(false, None));
      return;
    case Done(_, err) =>
      if err.Some? {
        end := ProbeRejected(err.value);
        return;
      }

    var args := ["backup", location];
    if ignore != "" {
      args := args + ["--exclude"];
      args := args + [ignore];
    }
    assert args == BackupArgs(location, ignore);
    ran := ran + [args];
    var backup, _ := InvokeCommand(BackupTransformer(codec), Restic, args, system);
    match backup
    case Fatal(reason) =>
      end := FatalExit(reason);
    case Panicked(reason) =>
      end := PanicReported(reason, Report(false, None));
    case Done(summary, _) =>
      end := Reported(Report(true, summary));
  }
}
