/** The command-line entry point: four positional arguments after the program name, handed on to
    `process`. `os.Args` is the sequence `args`, with the program name at index 0. */
module Cli {
  import opened RegistryUrl
  import opened Pipeline

  const Usage := "Usage: soci-wrapper REPOSITORY_NAME IMAGE_DIGEST AWS_REGION AWS_ACCOUNT"

  /** How the program ends: the usage line and `os.Exit(1)`; a runtime panic (an index out of
      range); or a run of `process`, whose result `main` discards. */
  datatype Exit =
    | UsageError(output: string, status: int)
    | Panicked(status: int)
    | Ran(report: Report, trace: seq<Step>)

  /** The process exit status: a Go panic exits with 2, a return from `main` with 0. */
  function ExitStatus(e: Exit): (status: int) {
    match e
    case UsageError(_, code) => code
    case Panicked(code) => code
    case Ran(_, _) => 0
  }

  /** The program name and the four arguments are all present. */
  predicate HasAllArguments(args: seq<string>) {
    |args| >= 5
  }

  /** The guard of `main` as written: it lets through any `args` with at least four entries. */
  predicate PassesGuardAsWritten(args: seq<string>) {
    !(|args| < 4)
  }

  /** The guard as written is one short: exactly the argument lists with three arguments after
      the program name pass it without holding all four arguments. */
  lemma GuardAsWrittenOneShort(args: seq<string>)
    ensures PassesGuardAsWritten(args) && !HasAllArguments(args) <==> |args| == 4
  {
  }

  /** A concrete argument list that the guard as written lets through although the account is
      missing, so that reading `os.Args[4]` is out of range. */
  lemma GuardAsWrittenCounterexample()
    ensures exists args :: PassesGuardAsWritten(args) && !HasAllArguments(args)
  {
    var args := ["soci-wrapper", "my-repo", "sha256:0123", "us-west-2"];
    assert PassesGuardAsWritten(args) && !HasAllArguments(args);
  }

  /** `main` as written: the guard `len(os.Args) < 4`, then `os.Args[1]` to `os.Args[4]`. With
      exactly four entries the last read panics. */
  method MainAsWritten(w: World, args: seq<string>) returns (e: Exit)
    ensures |args| < 4 <==> e == UsageError(Usage, 1)
    ensures |args| == 4 <==> e.Panicked?
    ensures e.Panicked? ==> ExitStatus(e) == 2
    ensures |args| >= 5 <==> e.Ran?
    ensures e.Ran? ==> RunShape(w, args[1], args[2], BuildEcrRegistryUrl(args[3], args[4]), e.trace)
  {
    if |args| < 4 {
      return UsageError(Usage, 1);
    }
    if |args| <= 4 {
      // os.Args[4] is out of range
      return Panicked(2);
    }
    var report, trace := Process(w, args[1], args[2], args[3], args[4]);
    e := Ran(report, trace);
  }

  /** `main` with the guard it evidently intends, `len(os.Args) < 5`: a short argument list gets
      the usage line and status 1 without any call, never a panic; otherwise `process` runs on the
      four arguments and the program exits with status 0, whatever `process` reports. */
  method Run(w: World, args: seq<string>) returns (e: Exit)
    ensures !HasAllArguments(args) <==> e == UsageError(Usage, 1)
    ensures !e.Panicked?
    ensures ExitStatus(e) == 0 <==> HasAllArguments(args)
    ensures HasAllArguments(args) ==> e.Ran?
    ensures e.Ran? ==>
              && HasAllArguments(args)
              && RunShape(w, args[1], args[2], BuildEcrRegistryUrl(args[3], args[4]), e.trace)
              && Classified(w, e.report, e.trace)
              && CleansUp(w, e.trace)
              && HandsOn(w, args[1], args[2], e.trace)
  {
    if |args| < 5 {
      return UsageError(Usage, 1);
    }
    var report, trace := Process(w, args[1], args[2], args[3], args[4]);
    e := Ran(report, trace);
  }
}
