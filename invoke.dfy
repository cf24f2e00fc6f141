/** The stream supervisor of invoke.go: run a command with `--json`
    appended, feed each standard-output line to a transformer, keep the value
    of the latest call, and turn a failed exit into an error built from the
    captured standard error.

    The operating system is not modelled: what a run of a command reports
    (start errors, the lines it prints, the scanner's error, its standard
    error text, its exit error) is a `Process` value that a `Spawner` gives
    for a command line. */
module Invoke {
  import opened Results
  import opened Deser

  /** What one run of a subprocess reports to invokeCommand. */
  datatype Process = Process(
    // error from StdoutPipe, StderrPipe or Start, if one of them failed
    startError: Option<string>,
    // the lines bufio.Scanner yields, in arrival order
    stdout: seq<Line>,
    // scanner.Err() once the scan loop ends
    scanError: Option<string>,
    // what io.Copy put into the standard error buffer
    stderr: string,
    // whether io.Copy reported an error
    stderrCopyFailed: bool,
    // the text of the error command.Wait returned, None on a zero exit
    exitError: Option<string>)

  /** The subprocess a command name and an argument list start. */
  type Spawner = (string, seq<string>) -> Process

  /** How a call of invokeCommand ends. */
  datatype Invocation<R> =
    // returned normally: Go's `(*R, error)` pair
    | Done(result: Option<R>, err: Option<string>)
    // a transformer panic unwound through invokeCommand
    | Panicked(reason: string)
    // log.Fatal: the program exits with this error text
    | Fatal(reason: string)

  /** The value the scan loop leaves in `lastTransformer` after feeding
      `lines` to `transformer`, starting from `last`; a panic of the
      transformer ends the loop. */
  function Scan<R>(transformer: Line -> Call<Option<R>>, lines: seq<Line>, last: Option<R>): (c: Call<Option<R>>)
    // no line: the initial value survives
    ensures lines == [] ==> c == Return(last)
    // a value at the end of a non-empty stream is the value of the call on its last line
    ensures c.Return? && lines != [] ==> transformer(lines[|lines| - 1]) == c
    // a panic is the panic of the call on some line
    ensures c.Panic? ==> exists j :: 0 <= j < |lines| && transformer(lines[j]) == c
    decreases |lines|
  {
    if lines == [] then Return(last)
    else match transformer(lines[0])
      case Panic(reason) => Panic(reason)
      case Return(v) => Scan(transformer, lines[1..], v)
  }

  /** The outcome of invokeCommand on a subprocess that reports `p`. */
  function Invoked<R>(transformer: Line -> Call<Option<R>>, p: Process): (r: Invocation<R>)
    // a start error is fatal before any line is read
    ensures p.startError.Some? ==> r == Fatal(p.startError.value)
    // a normal return needs a clean start and a clean scan
    ensures r.Done? ==> p.startError.None? && p.scanError.None?
    // an error comes only from a failed exit, and carries no result
    ensures r.Done? && r.err.Some? ==>
      r.result == None && p.exitError.Some? && r.err.value == p.stderr + ", " + p.exitError.value
    // a zero exit returns no error
    ensures r.Done? && r.err.None? ==> p.exitError.None?
  {
    if p.startError.Some? then Fatal(p.startError.value)
    else match Scan(transformer, p.stdout, None)
      case Panic(reason) => Panicked(reason)
      case Return(last) =>
        if p.scanError.Some? then Fatal(p.scanError.value)
        else if p.exitError.Some? then Done(None, Some(p.stderr + ", " + p.exitError.value))
        else Done(last, None)
  }

  /** invokeCommand. `fed` is the sequence of lines handed to the transformer,
      in call order. */
  method InvokeCommand<R>(transformer: Line -> Call<Option<R>>, cmd: string, args: seq<string>, system: Spawner)
    returns (out: Invocation<R>, ghost fed: seq<Line>)
    ensures out == Invoked(transformer, system(cmd, args + ["--json"]))
    ensures var p := system(cmd, args + ["--json"]);
      if p.startError.Some? then fed == []
      else if out.Panicked? then
        0 < |fed| <= |p.stdout| && fed == p.stdout[..|fed|] &&
        transformer(fed[|fed| - 1]) == Panic(out.reason) &&
        forall k :: 0 <= k < |fed| - 1 ==> transformer(fed[k]).Return?
      else fed == p.stdout
  {
    var p := system(cmd, args + ["--json"]);
    fed := [];
    if p.startError.Some? {
      out := Fatal(p.startError.value);
      return;
    }
    var lastTransformer: Option<R> := None;
    var i := 0;
    while i < |p.stdout|
      invariant 0 <= i <= |p.stdout|
      invariant fed == p.stdout[..i]
      invariant forall k :: 0 <= k < i ==> transformer(p.stdout[k]).Return?
      invariant i == 0 ==> lastTransformer == None
      invariant i > 0 ==> transformer(p.stdout[i - 1]) == Return(lastTransformer)
      invariant Scan(transformer, p.stdout, None) == Scan(transformer, p.stdout[i..], lastTransformer)
    {
      var line := p.stdout[i];
      fed := fed + [line];
      assert p.stdout[i..][0] == line && p.stdout[i..][1..] == p.stdout[i + 1..];
      var c := transformer(line);
      if c.Panic? {
        out := Panicked(c.reason);
        return;
      }
      lastTransformer := c.value;
      i := i + 1;
    }
    assert p.stdout[i..] == [];
    if p.scanError.Some? {
      out := Fatal(p.scanError.value);
      return;
    }
    // io.Copy into the buffer: a failed copy only logs a warning
    var buf := p.stderr;
    if p.exitError.Some? {
      out := Done(None, Some(buf + ", " + p.exitError.value));
      return;
    }
    out := Done(lastTransformer, None);
  }

  /** When no call panics, the loop ends holding the value of the call on the
      last line, whatever that value is, and `last` only when there were no
      lines. */
  lemma {:induction false} ScanReturnsLast<R>(transformer: Line -> Call<Option<R>>, lines: seq<Line>, last: Option<R>)
    requires forall k :: 0 <= k < |lines| ==> transformer(lines[k]).Return?
    ensures Scan(transformer, lines, last) ==
      Return(if lines == [] then last else transformer(lines[|lines| - 1]).value)
    decreases |lines|
  {
    if lines != [] {
      ScanReturnsLast(transformer, lines[1..], transformer(lines[0]).value);
    }
  }

  /** The first panicking call ends the loop with that panic. */
  lemma {:induction false} ScanStopsAtFirstPanic<R>(transformer: Line -> Call<Option<R>>, lines: seq<Line>, last: Option<R>, j: nat)
    requires j < |lines| && transformer(lines[j]).Panic?
    requires forall k :: 0 <= k < j ==> transformer(lines[k]).Return?
    ensures Scan(transformer, lines, last) == transformer(lines[j])
    decreases j
  {
    if j > 0 {
      ScanStopsAtFirstPanic(transformer, lines[1..], transformer(lines[0]).value, j - 1);
    }
  }

  /** A panic out of the loop is the panic of some call on a line all of whose
      predecessors returned. */
  lemma {:induction false} ScanPanicHasCause<R>(transformer: Line -> Call<Option<R>>, lines: seq<Line>, last: Option<R>)
    requires Scan(transformer, lines, last).Panic?
    ensures exists j :: 0 <= j < |lines| && transformer(lines[j]) == Scan(transformer, lines, last) &&
                        (forall k :: 0 <= k < j ==> transformer(lines[k]).Return?)
    decreases |lines|
  {
    if transformer(lines[0]).Return? {
      var rest := lines[1..];
      ScanPanicHasCause(transformer, rest, transformer(lines[0]).value);
      var j :| 0 <= j < |rest| && transformer(rest[j]) == Scan(transformer, rest, transformer(lines[0]).value) &&
               (forall k :: 0 <= k < j ==> transformer(rest[k]).Return?);
      assert transformer(lines[j + 1]) == Scan(transformer, lines, last);
      assert forall k :: 0 <= k < j + 1 ==> transformer(lines[k]).Return? by {
        forall k | 0 <= k < j + 1 ensures transformer(lines[k]).Return? {
          if k > 0 { assert lines[k] == rest[k - 1]; }
        }
      }
    } else {
      assert transformer(lines[0]) == Scan(transformer, lines, last);
    }
  }

  /** A normal return without error happens exactly on a zero exit after a
      clean start, a scan loop without panic and no scanner error; its result
      is nil for an empty stream and otherwise the transformer's value on the
      last line, even when that value is nil. */
  lemma SuccessIsLastLine<R>(transformer: Line -> Call<Option<R>>, p: Process)
    ensures Invoked(transformer, p).Done? && Invoked(transformer, p).err.None? <==>
      p.startError.None? && p.scanError.None? && p.exitError.None? &&
      forall k :: 0 <= k < |p.stdout| ==> transformer(p.stdout[k]).Return?
    ensures Invoked(transformer, p).Done? && Invoked(transformer, p).err.None? ==>
      Invoked(transformer, p).result ==
        if p.stdout == [] then None else transformer(p.stdout[|p.stdout| - 1]).value
  {
    if p.startError.None? {
      if forall k :: 0 <= k < |p.stdout| ==> transformer(p.stdout[k]).Return? {
        ScanReturnsLast(transformer, p.stdout, None);
      } else {
        var j :| 0 <= j < |p.stdout| && !transformer(p.stdout[j]).Return?;
        FirstPanicIndex(transformer, p.stdout, j);
      }
    }
  }

  /** Some line panics when some line does not return: the lowest such index. */
  lemma {:induction false} FirstPanicIndex<R>(transformer: Line -> Call<Option<R>>, lines: seq<Line>, j: nat)
    requires j < |lines| && transformer(lines[j]).Panic?
    ensures Scan(transformer, lines, None).Panic?
    decreases j
  {
    if forall k :: 0 <= k < j ==> transformer(lines[k]).Return? {
      ScanStopsAtFirstPanic(transformer, lines, None, j);
    } else {
      var i :| 0 <= i < j && !transformer(lines[i]).Return?;
      FirstPanicIndex(transformer, lines, i);
    }
  }

  /** An error is returned exactly when the subprocess exits with failure
      after a clean start and scan; the result is then nil and the error text
      is the captured standard error, a comma and a space, and the exit
      error. */
  lemma FailureDiscardsResult<R>(transformer: Line -> Call<Option<R>>, p: Process)
    ensures Invoked(transformer, p).Done? && Invoked(transformer, p).err.Some? <==>
      p.startError.None? && p.scanError.None? && p.exitError.Some? &&
      forall k :: 0 <= k < |p.stdout| ==> transformer(p.stdout[k]).Return?
    ensures Invoked(transformer, p).Done? && Invoked(transformer, p).err.Some? ==>
      Invoked(transformer, p).result == None &&
      Invoked(transformer, p).err.value == p.stderr + ", " + p.exitError.value
  {
    if p.startError.None? {
      if forall k :: 0 <= k < |p.stdout| ==> transformer(p.stdout[k]).Return? {
        ScanReturnsLast(transformer, p.stdout, None);
      } else {
        var j :| 0 <= j < |p.stdout| && !transformer(p.stdout[j]).Return?;
        FirstPanicIndex(transformer, p.stdout, j);
      }
    }
  }

  /** Pipe, start and scanner errors end the program through log.Fatal with
      that error's text; they are never returned as an error value. A start
      error wins over everything, a scanner error only counts when no line
      panicked. */
  lemma FatalCases<R>(transformer: Line -> Call<Option<R>>, p: Process)
    ensures Invoked(transformer, p).Fatal? <==>
      p.startError.Some? || (Scan(transformer, p.stdout, None).Return? && p.scanError.Some?)
    ensures p.startError.Some? ==> Invoked(transformer, p) == Fatal(p.startError.value)
    ensures p.startError.None? && Scan(transformer, p.stdout, None).Return? && p.scanError.Some? ==>
      Invoked(transformer, p) == Fatal(p.scanError.value)
  {
  }

  /** Whether copying standard error failed changes neither the result nor
      the error. */
  lemma StderrCopyFailureIgnored<R>(transformer: Line -> Call<Option<R>>, p: Process, failed: bool)
    ensures Invoked(transformer, p.(stderrCopyFailed := failed)) == Invoked(transformer, p)
  {
  }
}
