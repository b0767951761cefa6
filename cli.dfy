/**
 * Command dispatch of `main`: check the argument count, route to `modify`
 * or `transcribe`, or exit with status 1 before any processing runs.
 * `argv[0]` is the program name, as in `sys.argv`.
 */
module Cli {
  import opened Wrappers
  import opened Naming
  import opened Recognition
  import opened Transcriber

  const ModifyCommand: string := "modify"
  const TranscribeCommand: string := "transcribe"

  /** The exit status of every misuse. */
  const MisuseStatus: int := 1

  /** What `main` does with a command line. */
  datatype Outcome =
    | Usage                                  // fewer than two arguments: usage text
    | ArityError(command: string)            // known command, wrong argument count
    | UnknownCommand(command: string)
    | ModifyCall(path: string, speedText: string, volumeText: string)
    | TranscribeCall(path: string, language: string)
  {
    /** Whether one of the two commands runs. */
    predicate Invokes() {
      ModifyCall? || TranscribeCall?
    }
  }

  /** `main`, up to the call it makes. Speed and volume are passed on unparsed. */
  function Dispatch(argv: seq<string>): (o: Outcome)
    ensures o.Usage? <==> |argv| < 3
    ensures o.ModifyCall? <==> |argv| == 5 && argv[1] == ModifyCommand
    ensures o.TranscribeCall? <==> |argv| == 4 && argv[1] == TranscribeCommand
    ensures o.UnknownCommand? <==> |argv| >= 3 && argv[1] != ModifyCommand && argv[1] != TranscribeCommand
    ensures o.Invokes() ==> o.path == argv[2]
  {
    if |argv| < 3 then Usage
    else
      var command, path := argv[1], argv[2];
      if command == ModifyCommand then
        if |argv| != 5 then ArityError(command) else ModifyCall(path, argv[3], argv[4])
      else if command == TranscribeCommand then
        if |argv| != 4 then ArityError(command) else TranscribeCall(path, argv[3])
      else UnknownCommand(command)
  }

  /**
   * The exit status `main` itself sets with `sys.exit`: 1 for every misuse;
   * None when a command runs, and the status is then that of the command
   * (0 when it returns, 1 from the interpreter when it raises).
   */
  function ExitStatus(o: Outcome): (status: Option<int>)
    ensures status.Some? <==> !o.Invokes()
    ensures status.Some? ==> status.value == MisuseStatus
  {
    if o.Invokes() then None else Some(MisuseStatus)
  }

  /**
   * The file a command targets: Some exactly when a command is invoked.
   * Whether it is written depends on the command; Run says when.
   */
  function OutputFile(o: Outcome): (file: Option<string>)
    ensures file.Some? <==> o.Invokes()
    ensures file.Some? ==> Sep !in file.value
  {
    match o
    case ModifyCall(path, _, _) => Some(ModifiedName(path))
    case TranscribeCall(path, _) => Some(TranscriptionLogName(path))
    case _ => None
  }

  /** The exit status of an uncaught exception in the interpreter. */
  const UncaughtStatus: int := 1

  /**
   * One invocation end to end, for the parts modelled: dispatch, then the
   * command. `audio` is the input file's frames and `models` the model
   * directories present. Returns the process exit status and the file
   * written. A file is written exactly when a command runs and, for
   * `transcribe`, its model directory exists; it is then the file
   * OutputFile names, and the status is 0.
   */
  method Run(argv: seq<string>, audio: seq<Frame>, models: map<string, Recognizer>)
    returns (status: int, written: Option<string>)
    ensures written.Some? ==> written == OutputFile(Dispatch(argv))
    ensures written.None? <==>
      !Dispatch(argv).Invokes() || (Dispatch(argv).TranscribeCall? && ModelDir(Dispatch(argv).language) !in models)
    ensures status == if written.Some? then 0 else 1
    ensures !Dispatch(argv).Invokes() ==> Some(status) == ExitStatus(Dispatch(argv))
  {
    var o := Dispatch(argv);
    match o
    case ModifyCall(path, _, _) =>
      status, written := 0, Some(ModifiedName(path));
    case TranscribeCall(path, language) =>
      var modelDir, log := TranscribeAudio(path, language, audio, models);
      if log.Some? {
        status, written := 0, Some(log.value.logFile);
      } else {
        status, written := UncaughtStatus, None;
      }
    case _ =>
      status, written := MisuseStatus, None;
  }

  /** The canonical command line of a call: the inverse of Dispatch on calls. */
  function CommandLine(program: string, o: Outcome): (argv: seq<string>)
    requires o.Invokes()
  {
    match o
    case ModifyCall(path, speed, volume) => [program, ModifyCommand, path, speed, volume]
    case TranscribeCall(path, language) => [program, TranscribeCommand, path, language]
  }

  /**
   * Dispatch and CommandLine are inverse: every call is reached from its
   * command line whatever the program name, and a command line that leads
   * to a call is that call's command line, so no argument is dropped or
   * ignored.
   */
  lemma DispatchCommandLine(program: string, o: Outcome, argv: seq<string>)
    requires o.Invokes()
    ensures Dispatch(CommandLine(program, o)) == o
    ensures Dispatch(argv).Invokes() ==> CommandLine(argv[0], Dispatch(argv)) == argv
  {
    if Dispatch(argv).Invokes() {
      assert argv == if |argv| == 5 then [argv[0], argv[1], argv[2], argv[3], argv[4]]
                     else [argv[0], argv[1], argv[2], argv[3]];
    }
  }

  /** Fewer than three entries: usage, exit 1, no command runs, nothing written. */
  lemma TooFewArguments(argv: seq<string>)
    requires |argv| < 3
    ensures Dispatch(argv) == Usage
    ensures ExitStatus(Dispatch(argv)) == Some(MisuseStatus)
    ensures OutputFile(Dispatch(argv)) == None
  {
  }

  /** `modify` runs exactly when there are five entries; otherwise exit 1 and nothing written. */
  lemma ModifyArity(argv: seq<string>)
    requires |argv| >= 3 && argv[1] == ModifyCommand
    ensures Dispatch(argv).Invokes() <==> |argv| == 5
    ensures |argv| == 5 ==> Dispatch(argv) == ModifyCall(argv[2], argv[3], argv[4])
    ensures |argv| == 5 ==> OutputFile(Dispatch(argv)) == Some(ModifiedName(argv[2]))
    ensures |argv| != 5 ==> ExitStatus(Dispatch(argv)) == Some(MisuseStatus) && OutputFile(Dispatch(argv)) == None
  {
  }

  /** `transcribe` runs exactly when there are four entries; otherwise exit 1 and nothing written. */
  lemma TranscribeArity(argv: seq<string>)
    requires |argv| >= 3 && argv[1] == TranscribeCommand
    ensures Dispatch(argv).Invokes() <==> |argv| == 4
    ensures |argv| == 4 ==> Dispatch(argv) == TranscribeCall(argv[2], argv[3])
    ensures |argv| == 4 ==> OutputFile(Dispatch(argv)) == Some(TranscriptionLogName(argv[2]))
    ensures |argv| != 4 ==> ExitStatus(Dispatch(argv)) == Some(MisuseStatus) && OutputFile(Dispatch(argv)) == None
  {
  }

  /** Any other command, with at least three entries, exits 1 whatever follows it. */
  lemma UnknownCommandExits(argv: seq<string>)
    requires |argv| >= 3 && argv[1] != ModifyCommand && argv[1] != TranscribeCommand
    ensures Dispatch(argv) == UnknownCommand(argv[1])
    ensures ExitStatus(Dispatch(argv)) == Some(MisuseStatus) && OutputFile(Dispatch(argv)) == None
  {
  }

  /** The two sample invocations. */
  lemma SampleInvocations()
    ensures Dispatch(["app.py", "modify", "sample-3s.wav", "2.0", "-5"]) == ModifyCall("sample-3s.wav", "2.0", "-5")
    ensures Dispatch(["app.py", "transcribe", "sample-3s.wav", "ru"]) == TranscribeCall("sample-3s.wav", "ru")
    ensures Dispatch(["app.py", "transcribe", "sample-3s.wav"]) == ArityError("transcribe")
    ensures Dispatch(["app.py", "modify"]) == Usage
  {
  }
}
