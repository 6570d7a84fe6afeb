/**
  The sniffer context: where packets are read from (a tshark process or a JSON
  source file), the tshark command line, and the optional output file.

  Parameter lookups, process creation, pipes and file opening are not modelled;
  each is an answer in an `Environment` given to GetContext.
 */
module BleContext {
  import opened Wrappers

  datatype Error =
    | AlreadyStarted(moduleName: string)   // the host's "already started" error
    | Failure(cause: string)               // an error returned by the host or the operating system

  /** What the context's reader reads from. */
  datatype ReaderSource = TSharkOutput | SourceFile(path: string)

  /** A process to run: program path and arguments. */
  datatype Command = Command(path: string, args: seq<string>)

  /** The value of every field of a SnifferContext; `None` plays Go's nil. */
  datatype ContextState = ContextState(
    reader: Option<ReaderSource>,
    tsharkProc: Option<Command>,
    tsharkRunning: bool,
    interface: string,
    source: string,
    pcapFile: string,
    dumpLocal: bool,
    verbose: bool,
    filter: string,
    expression: string,
    compiled: Option<string>,
    output: string,
    outputFile: Option<string>)

  /** One `StringParam` answer: an error and a value, which Go returns together. */
  datatype ParamResult = ParamResult(err: Option<Error>, value: string)

  /** The answers GetContext receives: five parameter lookups, then the outcome
      (`None` for success) of the stdout pipe, the process start, opening the
      source file and creating the output file. */
  datatype Environment = Environment(
    sourceParam: ParamResult,
    tsharkParam: ParamResult,
    interfaceParam: ParamResult,
    pcapParam: ParamResult,
    outputParam: ParamResult,
    pipe: Option<Error>,
    start: Option<Error>,
    open: Option<Error>,
    create: Option<Error>)

  /** Every string empty, every flag false, every handle nil. */
  predicate Blank(c: ContextState) {
    && c.reader == None && c.tsharkProc == None && c.compiled == None && c.outputFile == None
    && !c.tsharkRunning && !c.dumpLocal && !c.verbose
    && c.interface == "" && c.source == "" && c.pcapFile == ""
    && c.filter == "" && c.expression == "" && c.output == ""
  }

  function DefaultContext(): (c: ContextState)
    ensures Blank(c)
  {
    ContextState(None, None, false, "", "", "", false, false, "", "", None, "", None)
  }

  /** tshark's arguments: live capture on the interface, or replay of the pcap file when one is named. */
  function TSharkArgs(interface: string, pcapFile: string): seq<string> {
    if pcapFile == "" then ["-i", interface, "-T", "json"] else ["-T", "json", "-r", pcapFile]
  }

  /** The output step shared by both sources. */
  function WithOutput(env: Environment, c: ContextState): (Option<Error>, ContextState) {
    var c := c.(output := env.outputParam.value);
    if env.outputParam.err.Some? then (env.outputParam.err, c)
    else if c.output == "" then (None, c)
    else if env.create.Some? then (env.create, c)
    else (None, c.(outputFile := Some(c.output)))
  }

  /** The error and the (possibly partly filled) context GetContext returns. */
  function ContextFor(env: Environment): (Option<Error>, ContextState) {
    var c := DefaultContext().(source := env.sourceParam.value);
    if env.sourceParam.err.Some? then (env.sourceParam.err, c)
    else if c.source == "" then
      if env.tsharkParam.err.Some? then (env.tsharkParam.err, c)
      else
        var c := c.(interface := env.interfaceParam.value);
        if env.interfaceParam.err.Some? then (env.interfaceParam.err, c)
        else
          var c := c.(pcapFile := env.pcapParam.value);
          if env.pcapParam.err.Some? then (env.pcapParam.err, c)
          else
            var c := c.(tsharkProc := Some(Command(env.tsharkParam.value, TSharkArgs(c.interface, c.pcapFile))));
            if env.pipe.Some? then (env.pipe, c)
            else if env.start.Some? then (env.start, c)
            else WithOutput(env, c.(tsharkRunning := true, reader := Some(TSharkOutput)))
    else if env.open.Some? then (env.open, c)
    else WithOutput(env, c.(reader := Some(SourceFile(c.source))))
  }

  /** The relations between fields that every context GetContext returns keeps. */
  predicate Consistent(c: ContextState) {
    && (c.tsharkRunning ==> c.source == "" && c.tsharkProc.Some?)
    && (c.tsharkProc.Some? ==> c.source == "" && c.tsharkProc.value.args == TSharkArgs(c.interface, c.pcapFile))
    && (c.source != "" ==> c.interface == "" && c.pcapFile == "")
    && (c.reader == Some(TSharkOutput) ==> c.tsharkRunning)
    && (c.reader.Some? && c.reader.value.SourceFile? ==> c.reader.value.path == c.source != "")
    && (c.outputFile.Some? ==> c.output != "" && c.outputFile == Some(c.output))
    && !c.dumpLocal && !c.verbose && c.filter == "" && c.expression == "" && c.compiled == None
  }

  /** Every context GetContext returns, on success or on error, is consistent. */
  lemma ContextForConsistent(env: Environment)
    ensures Consistent(ContextFor(env).1)
  {
  }

  /** No source and no pcap file: tshark captures live on the interface, as JSON. */
  lemma LiveCaptureArgs(env: Environment)
    requires env.sourceParam == ParamResult(None, "")
    requires env.tsharkParam.err == None && env.interfaceParam.err == None
    requires env.pcapParam == ParamResult(None, "")
    ensures ContextFor(env).1.tsharkProc
            == Some(Command(env.tsharkParam.value, ["-i", env.interfaceParam.value, "-T", "json"]))
  {
  }

  /** No source but a pcap file: tshark replays the file, as JSON. */
  lemma PcapReplayArgs(env: Environment)
    requires env.sourceParam == ParamResult(None, "")
    requires env.tsharkParam.err == None && env.interfaceParam.err == None
    requires env.pcapParam.err == None && env.pcapParam.value != ""
    ensures ContextFor(env).1.tsharkProc
            == Some(Command(env.tsharkParam.value, ["-T", "json", "-r", env.pcapParam.value]))
  {
  }

  /** A source file wins: no tshark, no interface, no pcap file; the reader reads the file once it opens. */
  lemma SourceWins(env: Environment)
    requires env.sourceParam.value != ""
    ensures var c := ContextFor(env).1;
            && c.tsharkProc == None && !c.tsharkRunning
            && c.interface == "" && c.pcapFile == ""
            && (env.sourceParam.err == None && env.open == None ==> c.reader == Some(SourceFile(env.sourceParam.value)))
  {
  }

  /** tshark counts as running exactly when every step up to and including its start succeeded. */
  lemma TSharkRunningIff(env: Environment)
    ensures ContextFor(env).1.tsharkRunning
            <==> && env.sourceParam == ParamResult(None, "")
                 && env.tsharkParam.err == None && env.interfaceParam.err == None && env.pcapParam.err == None
                 && env.pipe == None && env.start == None
  {
  }

  /** Whether the source and reader steps succeed. */
  predicate ReaderReady(env: Environment) {
    && env.sourceParam.err == None
    && if env.sourceParam.value == "" then
         env.tsharkParam.err == None && env.interfaceParam.err == None && env.pcapParam.err == None
         && env.pipe == None && env.start == None
       else env.open == None
  }

  /** An output file exists exactly when an output name is given and every step succeeded;
      without an output name the create outcome plays no part. */
  lemma OutputFileIff(env: Environment)
    ensures var (err, c) := ContextFor(env);
            && (c.outputFile.Some? <==> ReaderReady(env) && env.outputParam.err == None
                                        && env.outputParam.value != "" && env.create == None)
            && (c.outputFile.Some? ==> err == None && c.outputFile == Some(env.outputParam.value))
  {
  }

  /** The outcomes of the steps GetContext takes, in the order it takes them: the
      source lookup; then either the tshark, interface and pcap lookups, the pipe and
      the process start, or opening the source file; then the output lookup, and
      creating the output file when an output name is given. */
  function StepOutcomes(env: Environment): seq<Option<Error>> {
    var reading :=
      if env.sourceParam.value == "" then
        [env.tsharkParam.err, env.interfaceParam.err, env.pcapParam.err, env.pipe, env.start]
      else [env.open];
    [env.sourceParam.err] + reading + [env.outputParam.err]
    + (if env.outputParam.value != "" then [env.create] else [])
  }

  /** The first failure in a sequence of outcomes, or none. */
  function FirstError(outcomes: seq<Option<Error>>): Option<Error> {
    if outcomes == [] then None
    else if outcomes[0].Some? then outcomes[0]
    else FirstError(outcomes[1..])
  }

  /** FirstError is none exactly when every outcome succeeded, and otherwise the
      failure at a position before which every outcome succeeded. */
  lemma {:induction false} FirstErrorIsFirst(outcomes: seq<Option<Error>>)
    ensures FirstError(outcomes) == None <==> forall i :: 0 <= i < |outcomes| ==> outcomes[i] == None
    ensures FirstError(outcomes) != None ==>
              exists i :: 0 <= i < |outcomes| && outcomes[i] == FirstError(outcomes)
                          && forall j :: 0 <= j < i ==> outcomes[j] == None
    decreases |outcomes|
  {
    if outcomes != [] && outcomes[0].None? {
      var rest := outcomes[1..];
      FirstErrorIsFirst(rest);
      assert forall i :: 1 <= i < |outcomes| ==> outcomes[i] == rest[i - 1];
      if FirstError(rest) != None {
        var k :| 0 <= k < |rest| && rest[k] == FirstError(rest) && forall j :: 0 <= j < k ==> rest[j] == None;
        assert outcomes[k + 1] == FirstError(outcomes);
        assert forall j :: 0 <= j < k + 1 ==> outcomes[j] == None by {
          forall j | 0 <= j < k + 1
            ensures outcomes[j] == None
          {
            if j > 0 { assert outcomes[j] == rest[j - 1]; }
          }
        }
      }
    } else if outcomes != [] {
      assert outcomes[0] == FirstError(outcomes);
    }
  }

  /** The first failure of a step followed by more steps. */
  lemma FirstErrorCons(x: Option<Error>, xs: seq<Option<Error>>)
    ensures FirstError([x] + xs) == if x.Some? then x else FirstError(xs)
  {
    assert ([x] + xs)[1..] == xs;
  }

  /** The output step fails with the first failure of its own outcomes, whatever the context. */
  lemma WithOutputError(env: Environment)
    ensures forall c :: (WithOutput(env, c).0
                         == FirstError([env.outputParam.err] + (if env.outputParam.value != "" then [env.create] else [])))
  {
    FirstErrorCons(env.outputParam.err, if env.outputParam.value != "" then [env.create] else []);
    FirstErrorCons(env.create, []);
    assert [env.create] == [env.create] + [];
  }

  /** GetContext returns the error of the first step that fails on the path it
      takes, and no error exactly when every step on that path succeeds. */
  lemma ContextForErrors(env: Environment)
    ensures ContextFor(env).0 == FirstError(StepOutcomes(env))
    ensures ContextFor(env).0 == None <==> ReaderReady(env) && env.outputParam.err == None
                                           && (env.outputParam.value != "" ==> env.create == None)
  {
    var out := [env.outputParam.err] + (if env.outputParam.value != "" then [env.create] else []);
    WithOutputError(env);
    if env.sourceParam.value == "" {
      assert StepOutcomes(env) == [env.sourceParam.err] + ([env.tsharkParam.err] + ([env.interfaceParam.err]
                                  + ([env.pcapParam.err] + ([env.pipe] + ([env.start] + out)))));
      FirstErrorCons(env.start, out);
      FirstErrorCons(env.pipe, [env.start] + out);
      FirstErrorCons(env.pcapParam.err, [env.pipe] + ([env.start] + out));
      FirstErrorCons(env.interfaceParam.err, [env.pcapParam.err] + ([env.pipe] + ([env.start] + out)));
      FirstErrorCons(env.tsharkParam.err, [env.interfaceParam.err] + ([env.pcapParam.err] + ([env.pipe] + ([env.start] + out))));
      FirstErrorCons(env.sourceParam.err, [env.tsharkParam.err] + ([env.interfaceParam.err]
                                          + ([env.pcapParam.err] + ([env.pipe] + ([env.start] + out)))));
    } else {
      assert StepOutcomes(env) == [env.sourceParam.err] + ([env.open] + out);
      FirstErrorCons(env.open, out);
      FirstErrorCons(env.sourceParam.err, [env.open] + out);
    }
  }

  /** The state after Close: the output file handle is dropped; nothing else changes,
      in particular tshark still counts as running. */
  function Closed(c: ContextState): ContextState {
    c.(outputFile := None)
  }

  /** What Close does outside the context: kill tshark, close the output file. */
  datatype CloseEffects = CloseEffects(killAttempted: bool, outputClosed: bool)

  /** Close keeps a context consistent, is idempotent, and clears nothing but the output file. */
  lemma ClosedProperties(c: ContextState)
    requires Consistent(c)
    ensures Consistent(Closed(c))
    ensures Closed(Closed(c)) == Closed(c)
    ensures Closed(c).outputFile == None && Closed(c).tsharkRunning == c.tsharkRunning
    ensures Closed(c).(outputFile := c.outputFile) == c
  {
  }

  class SnifferContext {
    var reader: Option<ReaderSource>
    var tsharkProc: Option<Command>
    var tsharkRunning: bool
    var interface: string
    var source: string
    var pcapFile: string
    var dumpLocal: bool
    var verbose: bool
    var filter: string
    var expression: string
    var compiled: Option<string>
    var output: string
    var outputFile: Option<string>

    function State(): ContextState
      reads this
    {
      ContextState(reader, tsharkProc, tsharkRunning, interface, source, pcapFile,
                   dumpLocal, verbose, filter, expression, compiled, output, outputFile)
    }

    /** NewSnifferContext: every field blank. */
    constructor ()
      ensures State() == DefaultContext()
    {
      reader, tsharkProc, tsharkRunning := None, None, false;
      interface, source, pcapFile := "", "", "";
      dumpLocal, verbose := false, false;
      filter, expression, compiled := "", "", None;
      output, outputFile := "", None;
    }

    /** Kill tshark if it is running, close and forget the output file. */
    method Close() returns (effects: CloseEffects)
      modifies this
      ensures State() == Closed(old(State()))
      ensures effects == CloseEffects(old(tsharkRunning), old(outputFile).Some?)
    {
      effects := CloseEffects(false, false);
      if tsharkRunning {
        effects := effects.(killAttempted := true);
      }
      if outputFile.Some? {
        effects := effects.(outputClosed := true);
        outputFile := None;
      }
    }
  }

  /** Build a context step by step, returning the first error together with the
      context filled so far. */
  method GetContext(env: Environment) returns (err: Option<Error>, ctx: SnifferContext)
    ensures fresh(ctx)
    ensures (err, ctx.State()) == ContextFor(env)
  {
    ctx := new SnifferContext();
    err, ctx.source := env.sourceParam.err, env.sourceParam.value;
    if err.Some? {
      return;
    }

    if ctx.source == "" {
      var tshark := env.tsharkParam;
      if tshark.err.Some? {
        err := tshark.err;
        return;
      }
      err, ctx.interface := env.interfaceParam.err, env.interfaceParam.value;
      if err.Some? {
        return;
      }
      err, ctx.pcapFile := env.pcapParam.err, env.pcapParam.value;
      if err.Some? {
        return;
      }
      if ctx.pcapFile == "" {
        ctx.tsharkProc := Some(Command(tshark.value, ["-i", ctx.interface, "-T", "json"]));
      } else {
        ctx.tsharkProc := Some(Command(tshark.value, ["-T", "json", "-r", ctx.pcapFile]));
      }
      err := env.pipe;
      if err.Some? {
        return;
      }
      err := env.start;
      if err.Some? {
        return;
      } else {
        ctx.tsharkRunning := true;
      }
      ctx.reader := Some(TSharkOutput);
    } else {
      err := env.open;
      if err.Some? {
        return;
      }
      ctx.reader := Some(SourceFile(ctx.source));
    }

    err, ctx.output := env.outputParam.err, env.outputParam.value;
    if err.Some? {
      return;
    } else if ctx.output != "" {
      // os.Create returns a nil file together with its error
      err := env.create;
      ctx.outputFile := if err.None? then Some(ctx.output) else None;
      if err.Some? {
        return;
      }
    }
    err := None;
  }
}
