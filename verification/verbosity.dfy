/** The command line's verbosity flags and the logging level they select.
    `-v` and `-q` are counted flags in one mutually exclusive group; each
    counts for at most two steps away from WARNING. */
module Verbosity {
  import opened Exceptions

  const Critical := 50
  const Error := 40
  const Warning := 30
  const Info := 20
  const Debug := 10

  /** The level table, from the quietest to the most verbose. */
  const LogLevels: seq<int> := [Critical, Error, Warning, Info, Debug]

  function Min2(n: nat): nat {
    if n <= 2 then n else 2
  }

  /** The position in `LogLevels` for `verbose` counted `-v` flags and
      `quiet` counted `-q` flags. */
  function LogIndex(verbose: nat, quiet: nat): (i: int)
    ensures 0 <= i < |LogLevels|
    ensures verbose == quiet ==> i == 2
    ensures quiet == 0 ==> i >= 2
    ensures verbose == 0 ==> i <= 2
  {
    2 + Min2(verbose) - Min2(quiet)
  }

  /** The level logging is configured with, or `None` when both flags were
      given, which the argument parser refuses before any logging is set up. */
  function LogLevel(verbose: nat, quiet: nat): (level: Option<int>)
    ensures level.None? <==> verbose > 0 && quiet > 0
    ensures level.Some? ==> level.value in LogLevels
  {
    if verbose > 0 && quiet > 0 then None
    else Some(LogLevels[LogIndex(verbose, quiet)])
  }

  /** Each accepted flag combination and the level it selects. */
  lemma LevelTable(verbose: nat, quiet: nat)
    ensures verbose == 0 && quiet == 0 ==> LogLevel(verbose, quiet) == Some(Warning)
    ensures verbose == 1 && quiet == 0 ==> LogLevel(verbose, quiet) == Some(Info)
    ensures verbose >= 2 && quiet == 0 ==> LogLevel(verbose, quiet) == Some(Debug)
    ensures verbose == 0 && quiet == 1 ==> LogLevel(verbose, quiet) == Some(Error)
    ensures verbose == 0 && quiet >= 2 ==> LogLevel(verbose, quiet) == Some(Critical)
  {
  }

  /** One more `-v` never raises the level, and one more `-q` never lowers it. */
  lemma LevelMonotone(verbose: nat, quiet: nat)
    requires verbose == 0 || quiet == 0
    ensures quiet == 0 ==> LogLevel(verbose + 1, 0).value <= LogLevel(verbose, 0).value
    ensures verbose == 0 ==> LogLevel(0, quiet + 1).value >= LogLevel(0, quiet).value
  {
  }
}
