/**
 * Command-line checks of the two Go clients: the enumerated flag validators,
 * the check for a flag name written without its dashes, and the scan of the
 * raw arguments for answer-only mode.
 *
 * A failed validation in ValidateFlags ends the process with log.Fatalf; the
 * model returns the message it prints instead. A flag set is given by the
 * set of its flag names, and what parsing the arguments gives is an input.
 */
module Flags {
  import opened Common

  const MatchStrengthError := "Error: Invalid match strength selected. Choose either 'high', 'mid', or 'low'."

  /** The accepted match strengths. */
  const MatchStrengths: set<string> := {"high", "mid", "low"}

  /** The modes each client accepts: only the current client knows answer-only. */
  function Modes(variant: Variant): set<string>
  {
    if variant == Current then {"chat", "pure-chat", "default", "answer-only"}
    else {"chat", "pure-chat", "default"}
  }

  function ModeError(variant: Variant): string
  {
    if variant == Current then "Error: Invalid mode selected. Choose either chat, pure-chat, answer-only, or default."
    else "Error: Invalid mode selected. Choose either chat, pure-chat, or default."
  }

  /** The mode test of each client, spelt as the chain of comparisons the client makes. */
  predicate ModeAccepted(variant: Variant, mode: string)
  {
    mode == "chat" || mode == "pure-chat" || mode == "default" || (variant == Current && mode == "answer-only")
  }

  lemma ModeAcceptedIsModes(variant: Variant, mode: string)
    ensures ModeAccepted(variant, mode) <==> mode in Modes(variant)
  {
  }

  lemma MatchStrengthChain(matchStrength: string)
    ensures (matchStrength != "high" && matchStrength != "mid" && matchStrength != "low") <==> matchStrength !in MatchStrengths
  {
  }

  /** ValidateFlags: the match strength is checked first, then the mode; the result is the fatal message, if any. */
  function ValidateFlags(variant: Variant, matchStrength: string, mode: string): (r: Option<string>)
    ensures r.None? <==> matchStrength in MatchStrengths && mode in Modes(variant)
    ensures matchStrength !in MatchStrengths ==> r == Some(MatchStrengthError)
    ensures matchStrength in MatchStrengths && mode !in Modes(variant) ==> r == Some(ModeError(variant))
  {
    ModeAcceptedIsModes(variant, mode);
    MatchStrengthChain(matchStrength);
    if matchStrength != "high" && matchStrength != "mid" && matchStrength != "low" then Some(MatchStrengthError)
    else if !ModeAccepted(variant, mode) then Some(ModeError(variant))
    else None
  }

  /** The older client rejects answer-only mode, which the current one accepts; otherwise they agree. */
  lemma AnswerOnlyOnlyCurrent(matchStrength: string, mode: string)
    requires matchStrength in MatchStrengths
    ensures ValidateFlags(Current, matchStrength, "answer-only").None?
    ensures ValidateFlags(Older, matchStrength, "answer-only") == Some(ModeError(Older))
    ensures mode != "answer-only" ==>
              (ValidateFlags(Current, matchStrength, mode).None? <==> ValidateFlags(Older, matchStrength, mode).None?)
  {
  }

  const AmplifyLevels: set<string> := {"off", "low", "mid", "high"}

  /** ValidateAmplifyFlag: only the four amplification levels pass. */
  function ValidateAmplifyFlag(value: string): (r: Option<string>)
    ensures r.None? <==> value in AmplifyLevels
    ensures r.Some? ==> r.value == "invalid value for --amplify: '" + value + "'. Must be one of: off, low, mid, high"
  {
    var validValues := map["off" := true, "low" := true, "mid" := true, "high" := true];
    if !(value in validValues && validValues[value]) then
      Some("invalid value for --amplify: '" + value + "'. Must be one of: off, low, mid, high")
    else None
  }

  /** ValidateDepthFlag: the depth must be a positive integer. */
  function ValidateDepthFlag(value: int): (r: Option<string>)
    ensures r.None? <==> value >= 1
    ensures r.Some? ==> r.value == "invalid value for --depth: " + IntToString(value) + ". Must be a positive integer"
  {
    if value <= 0 then Some("invalid value for --depth: " + IntToString(value) + ". Must be a positive integer")
    else None
  }

  // ---------------------------------------------------------------------------
  // Flag names written without dashes

  /** An argument without a leading dash that is the name of a defined flag. */
  predicate IsBareFlag(arg: string, flagNames: set<string>)
  {
    !HasPrefix(arg, "-") && arg in flagNames
  }

  function BareFlagError(arg: string): string
  {
    "invalid flag format: '" + arg + "'. Did you mean '--" + arg + "'?"
  }

  /** Whether some flag name among the given ones equals the argument (flag.FlagSet.VisitAll). */
  method FlagExists(arg: string, flagNames: set<string>) returns (exists_: bool)
    ensures exists_ <==> arg in flagNames
  {
    exists_ := false;
    var rest := flagNames;
    while rest != {}
      invariant rest <= flagNames
      invariant exists_ <==> arg in flagNames - rest
      decreases |rest|
    {
      var name :| name in rest;
      if name == arg {
        exists_ := true;
      }
      rest := rest - {name};
    }
  }

  /**
   * ValidateArgFormat: the first argument that is a flag name without its
   * dashes is reported with a suggestion; when there is none, the result is
   * what parsing the arguments gives.
   */
  method ValidateArgFormat(flagNames: set<string>, args: seq<string>, parsed: Option<string>) returns (err: Option<string>)
    ensures (forall k :: 0 <= k < |args| ==> !IsBareFlag(args[k], flagNames)) ==> err == parsed
    ensures forall k :: 0 <= k < |args| && IsBareFlag(args[k], flagNames) &&
                        (forall j :: 0 <= j < k ==> !IsBareFlag(args[j], flagNames)) ==>
              err == Some(BareFlagError(args[k]))
  {
    var i := 0;
    while i < |args|
      invariant 0 <= i <= |args|
      invariant forall j :: 0 <= j < i ==> !IsBareFlag(args[j], flagNames)
    {
      var arg := args[i];
      if HasPrefix(arg, "-") {
        i := i + 1;
        continue;
      }
      var flagExists := FlagExists(arg, flagNames);
      if flagExists {
        return Some(BareFlagError(arg));
      }
      i := i + 1;
    }
    return parsed;
  }

  // ---------------------------------------------------------------------------
  // Answer-only mode from the raw arguments

  /** Argument i selects answer-only mode: `--mode answer-only`, or an argument starting with `--mode=answer-only`. */
  predicate AnswerOnlyAt(args: seq<string>, i: int)
  {
    0 <= i < |args| &&
    ((args[i] == "--mode" && i + 1 < |args| && args[i + 1] == "answer-only") || HasPrefix(args[i], "--mode=answer-only"))
  }

  /** IsAnswerOnlyMode: scans the arguments for a selection of answer-only mode. */
  method IsAnswerOnlyMode(args: seq<string>) returns (r: bool)
    ensures r <==> exists i :: AnswerOnlyAt(args, i)
  {
    var i := 0;
    while i < |args|
      invariant 0 <= i <= |args|
      invariant forall j :: 0 <= j < i ==> !AnswerOnlyAt(args, j)
    {
      var arg := args[i];
      if arg == "--mode" && i + 1 < |args| && args[i + 1] == "answer-only" {
        assert AnswerOnlyAt(args, i);
        return true;
      }
      if HasPrefix(arg, "--mode=answer-only") {
        assert AnswerOnlyAt(args, i);
        return true;
      }
      i := i + 1;
    }
    return false;
  }

  /**
   * The scan looks at spellings, not at parsed flags: a longer value that
   * starts with answer-only counts, while the single-dash `-mode answer-only`
   * that the flag package also accepts does not.
   */
  lemma AnswerOnlySpellings()
    ensures AnswerOnlyAt(["mct", "--mode=answer-only-x"], 1)
    ensures !exists i :: AnswerOnlyAt(["mct", "-mode", "answer-only"], i)
    ensures !exists i :: AnswerOnlyAt(["mct", "--mode"], i)
  {
    var a := ["mct", "-mode", "answer-only"];
    assert !HasPrefix(a[0], "--mode=answer-only");
    assert !HasPrefix(a[1], "--mode=answer-only");
    assert !HasPrefix(a[2], "--mode=answer-only");
    var b := ["mct", "--mode"];
    assert !HasPrefix(b[0], "--mode=answer-only");
    assert !HasPrefix(b[1], "--mode=answer-only");
    assert HasPrefix("--mode=answer-only-x", "--mode=answer-only") by {
      assert "--mode=answer-only-x"[..18] == "--mode=answer-only";
    }
  }
}
