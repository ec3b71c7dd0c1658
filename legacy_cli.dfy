/**
 * The original single-file command-line client: how it separates flags from
 * prompt words, the choices it validates, where the prompt comes from, the
 * keys it requires in the server's reply, and the markdown it saves.
 *
 * The flag package's parsing of the flag arguments, git, the environment,
 * the HTTP exchange and the temporary directory are inputs; each log.Fatal
 * becomes the message it prints.
 */
module LegacyCli {
  import opened Common
  import Flags
  import PromptCli

  // ---------------------------------------------------------------------------
  // Separating flags from prompt words

  predicate IsFlag(arg: string)
  {
    HasPrefix(arg, "-")
  }

  /** How many arguments one step of the partition takes: a flag and its value, or one argument. */
  function Taken(args: seq<string>): (n: nat)
    requires args != []
    ensures 1 <= n <= |args|
    ensures n == 2 <==> IsFlag(args[0]) && |args| >= 2 && !IsFlag(args[1])
  {
    if IsFlag(args[0]) && |args| >= 2 && !IsFlag(args[1]) then 2 else 1
  }

  /**
   * The flag arguments and the prompt words of an argument list: a flag
   * takes the next argument with it unless that one is a flag too; every
   * other argument is a prompt word. Both keep their order.
   */
  function Partition(args: seq<string>): (seq<string>, seq<string>)
    decreases |args|
  {
    if args == [] then ([], [])
    else
      var n := Taken(args);
      var rest := Partition(args[n..]);
      if IsFlag(args[0]) then (args[..n] + rest.0, rest.1) else (rest.0, args[..n] + rest.1)
  }

  /**
   * The loop invariant of PartitionArgs, with `goal` standing for the whole
   * partition, survives one step: the `n` arguments the partition takes at
   * `i` are appended to the flags when the first is a flag, else to the
   * prompt words.
   */
  lemma PartitionLoopStep(args: seq<string>, i: nat, n: nat, flags: seq<string>, parts: seq<string>,
                          newFlags: seq<string>, newParts: seq<string>, goal: (seq<string>, seq<string>))
    requires i < |args| && n == Taken(args[i..])
    requires flags + Partition(args[i..]).0 == goal.0
    requires parts + Partition(args[i..]).1 == goal.1
    requires newFlags == if IsFlag(args[i]) then flags + args[i..i + n] else flags
    requires newParts == if IsFlag(args[i]) then parts else parts + args[i..i + n]
    ensures i + n <= |args|
    ensures newFlags + Partition(args[i + n..]).0 == goal.0
    ensures newParts + Partition(args[i + n..]).1 == goal.1
  {
    var rest := args[i..];
    var after := Partition(args[i + n..]);
    if IsFlag(args[i]) {
      assert Partition(rest) == (args[i..i + n] + after.0, after.1) by {
        assert rest[n..] == args[i + n..] && rest[..n] == args[i..i + n];
      }
      Assoc(flags, args[i..i + n], after.0);
    } else {
      assert Partition(rest) == (after.0, args[i..i + n] + after.1) by {
        assert rest[n..] == args[i + n..] && rest[..n] == args[i..i + n];
      }
      Assoc(parts, args[i..i + n], after.1);
    }
  }

  /** The partition loop, advancing past a flag's value as well as the flag. */
  method PartitionArgs(args: seq<string>) returns (flagArgs: seq<string>, promptParts: seq<string>)
    ensures (flagArgs, promptParts) == Partition(args)
  {
    flagArgs, promptParts := [], [];
    var i := 0;
    assert args[0..] == args;
    while i < |args|
      invariant 0 <= i <= |args|
      invariant flagArgs + Partition(args[i..]).0 == Partition(args).0
      invariant promptParts + Partition(args[i..]).1 == Partition(args).1
    {
      ghost var start, n := i, Taken(args[i..]);
      ghost var flagsBefore, partsBefore := flagArgs, promptParts;
      if IsFlag(args[i]) {
        flagArgs := flagArgs + [args[i]];
        if i + 1 < |args| && !IsFlag(args[i + 1]) {
          flagArgs := flagArgs + [args[i + 1]];
          i := i + 1;
          assert args[start..start + 2] == [args[start], args[start + 1]];
        } else {
          assert args[start..start + 1] == [args[start]];
        }
      } else {
        promptParts := promptParts + [args[i]];
        assert args[start..start + 1] == [args[start]];
      }
      i := i + 1;
      PartitionLoopStep(args, start, n, flagsBefore, partsBefore, flagArgs, promptParts, Partition(args));
    }
    assert args[i..] == [];
    assert flagArgs + [] == flagArgs && promptParts + [] == promptParts;
  }

  /** Every argument lands on exactly one side. */
  lemma {:induction false} PartitionKeepsAll(args: seq<string>)
    ensures multiset(Partition(args).0) + multiset(Partition(args).1) == multiset(args)
  {
    if args != [] {
      var n := Taken(args);
      PartitionKeepsAll(args[n..]);
      assert args == args[..n] + args[n..];
      var rest := Partition(args[n..]);
      assert multiset(args) == multiset(args[..n]) + multiset(args[n..]);
      if IsFlag(args[0]) {
        assert multiset(args[..n] + rest.0) == multiset(args[..n]) + multiset(rest.0);
      } else {
        assert multiset(args[..n] + rest.1) == multiset(args[..n]) + multiset(rest.1);
      }
    }
  }

  /** Prompt words never start with a dash, and every argument that does is passed to the flag parser. */
  lemma {:induction false} PartitionSides(args: seq<string>)
    ensures forall w :: w in Partition(args).1 ==> !IsFlag(w)
    ensures forall a :: a in args && IsFlag(a) ==> a in Partition(args).0
  {
    if args != [] {
      var n := Taken(args);
      PartitionSides(args[n..]);
      assert args == args[..n] + args[n..];
      assert forall a :: a in args ==> a in args[..n] || a in args[n..];
      assert n == 2 ==> !IsFlag(args[1]);
    }
  }

  /**
   * The word right after a flag is taken as the flag's value, even when the
   * flag already carries one (`--mode=super word`): it is not a prompt word.
   */
  lemma WordAfterFlagSwallowed(flag: string, word: string, rest: seq<string>)
    requires IsFlag(flag) && !IsFlag(word)
    ensures Partition([flag, word] + rest) == ([flag, word] + Partition(rest).0, Partition(rest).1)
  {
    var args := [flag, word] + rest;
    assert args[2..] == rest;
  }

  /** An argument that does not start with a dash, when not taken as a flag's value, is a prompt word. */
  lemma LeadingWordIsPrompt(word: string, rest: seq<string>)
    requires !IsFlag(word)
    ensures Partition([word] + rest) == (Partition(rest).0, [word] + Partition(rest).1)
  {
    var args := [word] + rest;
    assert args[1..] == rest && args[..1] == [word];
  }

  lemma PartitionExample()
    ensures Partition(["--mode=super", "explain", "this"]) == (["--mode=super", "explain"], ["this"])
    ensures Partition(["explain", "--model", "gpt-4o", "this"]) == (["--model", "gpt-4o"], ["explain", "this"])
  {
    assert "this"[..1] == "t" && "explain"[..1] == "e" && "gpt-4o"[..1] == "g";
    assert "--mode=super"[..1] == "-" && "--model"[..1] == "-";
    LeadingWordIsPrompt("this", []);
    assert ["this"] + [] == ["this"];
    WordAfterFlagSwallowed("--mode=super", "explain", ["this"]);
    WordAfterFlagSwallowed("--model", "gpt-4o", ["this"]);
    LeadingWordIsPrompt("explain", ["--model", "gpt-4o"] + ["this"]);
    assert ["--mode=super", "explain", "this"] == ["--mode=super", "explain"] + ["this"];
    assert ["explain", "--model", "gpt-4o", "this"] == ["explain"] + (["--model", "gpt-4o"] + ["this"]);
    assert Partition([]) == ([], []);
    var last := Partition(["this"]);
    assert last == ([], ["this"]);
    assert Partition(["--mode=super", "explain"] + ["this"]) == (["--mode=super", "explain"] + [], ["this"]);
    assert Partition(["--model", "gpt-4o"] + ["this"]) == (["--model", "gpt-4o"] + [], ["this"]);
    assert ["--mode=super", "explain"] + [] == ["--mode=super", "explain"];
    assert ["--model", "gpt-4o"] + [] == ["--model", "gpt-4o"];
    assert ["explain"] + ["this"] == ["explain", "this"];
  }



  // ---------------------------------------------------------------------------
  // Validated choices

  const Models: set<string> := {"gpt-4o", "gpt-4o-mini"}
  const LegacyModes: set<string> := {"content", "commit", "super"}

  const ModelError := "Error: Invalid model selected. Choose either 'gpt-4o' or 'gpt-4o-mini'."
  const LegacyModeError := "Error: Invalid mode selected. Choose either 'content', 'commit', or 'super'."

  /** The model is checked first, then the match strength, then the mode. */
  function ValidateChoices(model: string, matchStrength: string, mode: string): (r: Option<string>)
    ensures r.None? <==> model in Models && matchStrength in Flags.MatchStrengths && mode in LegacyModes
    ensures model !in Models ==> r == Some(ModelError)
    ensures model in Models && matchStrength !in Flags.MatchStrengths ==> r == Some(Flags.MatchStrengthError)
    ensures model in Models && matchStrength in Flags.MatchStrengths && mode !in LegacyModes ==>
              r == Some(LegacyModeError)
  {
    if model != "gpt-4o" && model != "gpt-4o-mini" then Some(ModelError)
    else if matchStrength != "high" && matchStrength != "mid" && matchStrength != "low" then Some(Flags.MatchStrengthError)
    else if mode != "content" && mode != "commit" && mode != "super" then Some(LegacyModeError)
    else None
  }

  /** The defaults of the flags pass validation. */
  lemma DefaultsValid()
    ensures ValidateChoices("gpt-4o-mini", "mid", "commit").None?
  {
  }

  // ---------------------------------------------------------------------------
  // The reply

  /** The decoded JSON reply: the string under each key, when there is one; a path that is not a string is None. */
  datatype LegacyReply = LegacyReply(openai: Option<string>, machtiani: Option<string>, paths: Option<seq<Option<string>>>)

  /** How the HTTP exchange ended. */
  datatype Exchange = PostFailed(e: string) | ReadFailed(e: string) | BadJson(e: string) | Decoded(reply: LegacyReply)

  /** The retrieved paths as strings, when every one of them is a string. */
  function PathStrings(items: seq<Option<string>>): (r: Option<seq<string>>)
    ensures r.Some? <==> forall k :: 0 <= k < |items| ==> items[k].Some?
    ensures r.Some? ==> |r.value| == |items| && forall k :: 0 <= k < |items| ==> r.value[k] == items[k].value
  {
    if items == [] then Some([])
    else
      var rest := PathStrings(items[1..]);
      if items[0].None? || rest.None? then
        assert items[0].None? || exists k :: 1 <= k < |items| && items[k].None? by {
          if items[0].Some? {
            var k :| 0 <= k < |items[1..]| && items[1..][k].None?;
            assert items[k + 1].None?;
          }
        }
        None
      else Some([items[0].value] + rest.value)
  }

  /** The conversion loop: stops at the first path that is not a string. */
  method ConvertPaths(items: seq<Option<string>>) returns (r: Option<seq<string>>)
    ensures r == PathStrings(items)
  {
    var filePaths: seq<string> := [];
    for i := 0 to |items|
      invariant |filePaths| == i && forall k :: 0 <= k < i ==> items[k].Some? && filePaths[k] == items[k].value
    {
      if items[i].None? {
        return None;
      }
      filePaths := filePaths + [items[i].value];
    }
    assert filePaths == PathStrings(items).value;
    return Some(filePaths);
  }

  const NoFilesFound := "no files found"

  /**
   * The response text and the retrieved paths of an exchange. A missing
   * openai_response is fatal, with the machtiani message when it says no
   * files were found; a missing path list, or a path that is not a string,
   * is fatal too.
   */
  function ReplyFields(exchange: Exchange): (r: Result<(string, seq<string>)>)
    ensures r.Success? <==> exchange.Decoded? && exchange.reply.openai.Some? && exchange.reply.paths.Some? &&
                            PathStrings(exchange.reply.paths.value).Some?
    ensures r.Success? ==> r.value == (exchange.reply.openai.value, PathStrings(exchange.reply.paths.value).value)
    ensures exchange.Decoded? && exchange.reply.openai.None? ==>
              r.error == if exchange.reply.machtiani == Some(NoFilesFound) then "Fatal error: " + NoFilesFound
                         else "Error: openai_response key missing and no fatal machtiani condition met"
  {
    match exchange
    case PostFailed(e) => Failure("Error making API call: " + e)
    case ReadFailed(e) => Failure("Error reading response body: " + e)
    case BadJson(e) => Failure("Error parsing JSON response: " + e)
    case Decoded(reply) =>
      if reply.openai.None? then
        if reply.machtiani.Some? && reply.machtiani.value == NoFilesFound then Failure("Fatal error: " + NoFilesFound)
        else Failure("Error: openai_response key missing and no fatal machtiani condition met")
      else if reply.paths.None? then Failure("Error: retrieved_file_paths key missing or invalid")
      else
        var paths := PathStrings(reply.paths.value);
        if paths.None? then Failure("Error: invalid file path in retrieved_file_paths")
        else Success((reply.openai.value, paths.value))
  }

  // ---------------------------------------------------------------------------
  // The saved markdown

  /** The retrieved files, one "- path" line each. */
  function FileLines(paths: seq<string>): string
  {
    ListLines("- ", "", paths)
  }

  /** The prompt (under "# User" unless it came from a markdown file), the response, and the retrieved files. */
  function LegacyMarkdown(prompt: string, response: string, paths: seq<string>, markdownFlag: string): string
  {
    (if markdownFlag != "" then prompt + "\n\n# Assistant\n\n" + response
     else "# User\n\n" + prompt + "\n\n# Assistant\n\n" + response) +
    (if paths == [] then "" else "\n\n# Retrieved Files\n\n" + FileLines(paths))
  }

  /** The markdown assembly, growing the text one retrieved file at a time. */
  method BuildMarkdown(prompt: string, response: string, paths: seq<string>, markdownFlag: string)
    returns (markdown: string)
    ensures markdown == LegacyMarkdown(prompt, response, paths, markdownFlag)
  {
    if markdownFlag != "" {
      markdown := prompt + "\n\n# Assistant\n\n" + response;
    } else {
      markdown := "# User\n\n" + prompt + "\n\n# Assistant\n\n" + response;
    }
    if |paths| > 0 {
      markdown := markdown + "\n\n# Retrieved Files\n\n";
      ghost var start := markdown;
      for i := 0 to |paths|
        invariant markdown == start + FileLines(paths[..i])
      {
        assert paths[..i + 1] == paths[..i] + [paths[i]];
        ListLinesSnoc("- ", "", paths[..i], paths[i]);
        markdown := markdown + (ListLine("- ", "", paths[i]) + "\n");
      }
      assert paths[..|paths|] == paths;
    }
  }

  /** Each retrieved file is listed on a line of its own, in order. */
  lemma FileLinesSplit(paths: seq<string>)
    requires forall k :: 0 <= k < |paths| ==> '\n' !in paths[k]
    ensures Split(FileLines(paths), '\n') == seq(|paths|, k requires 0 <= k < |paths| => "- " + paths[k]) + [""]
  {
    ListLinesSplit("- ", "", paths);
    forall k | 0 <= k < |paths| ensures ListLine("- ", "", paths[k]) == "- " + paths[k] {
      assert "- " + paths[k] + "" == "- " + paths[k];
    }
    assert seq(|paths|, k requires 0 <= k < |paths| => ListLine("- ", "", paths[k])) ==
           seq(|paths|, k requires 0 <= k < |paths| => "- " + paths[k]);
  }

  // ---------------------------------------------------------------------------
  // The whole run

  /** The values of the five flags after parsing. */
  datatype LegacyFlags = LegacyFlags(markdown: string, project: string, model: string, matchStrength: string, mode: string)

  /** What git, the file system, the environment and the server answer during one run. */
  datatype LegacyWorld = LegacyWorld(
    gitProject: Result<string>,
    markdownFile: Result<string>,
    apiKey: string,
    exchange: Exchange,
    tempDir: Result<string>,
    write: Option<string>)

  const MissingKeyError: string := "Error: OPENAI_API_KEY environment variable is not set."

  /** What the request is made of once every check before it has passed. */
  datatype Request = Request(prompt: string, project: string, model: string, matchStrength: string, mode: string)

  /**
   * The checks before the request, in order: the project (from git when the
   * flag is empty), the model, the match strength, the mode, the prompt, and
   * the API key.
   */
  function Prepare(promptParts: seq<string>, flags: LegacyFlags, w: LegacyWorld): (r: Result<Request>)
    ensures r.Success? ==> ValidateChoices(flags.model, flags.matchStrength, flags.mode).None? && w.apiKey != ""
    ensures r.Success? ==> (flags.project != "" || w.gitProject.Success?) &&
                           r.value.project == (if flags.project == "" then w.gitProject.value else flags.project)
    ensures r.Success? ==> PromptCli.SourcePrompt(promptParts, flags.markdown, w.markdownFile).Success? &&
                           r.value.prompt == PromptCli.SourcePrompt(promptParts, flags.markdown, w.markdownFile).value
    ensures flags.project == "" && w.gitProject.Failure? ==> r == Failure("Error getting project name: " + w.gitProject.error)
    ensures (flags.project != "" || w.gitProject.Success?) && ValidateChoices(flags.model, flags.matchStrength, flags.mode).Some? ==>
              r == Failure(ValidateChoices(flags.model, flags.matchStrength, flags.mode).value)
    ensures (flags.project != "" || w.gitProject.Success?) && ValidateChoices(flags.model, flags.matchStrength, flags.mode).None?
            && PromptCli.SourcePrompt(promptParts, flags.markdown, w.markdownFile).Failure? ==>
              r == Failure(PromptCli.SourcePrompt(promptParts, flags.markdown, w.markdownFile).error)
    ensures (flags.project != "" || w.gitProject.Success?) && ValidateChoices(flags.model, flags.matchStrength, flags.mode).None?
            && PromptCli.SourcePrompt(promptParts, flags.markdown, w.markdownFile).Success? && w.apiKey == "" ==>
              r == Failure(MissingKeyError)
    // All four checks passing is enough.
    ensures (flags.project != "" || w.gitProject.Success?) && ValidateChoices(flags.model, flags.matchStrength, flags.mode).None?
            && PromptCli.SourcePrompt(promptParts, flags.markdown, w.markdownFile).Success? && w.apiKey != "" ==>
              r.Success?
  {
    var project := if flags.project == "" then w.gitProject else Success(flags.project);
    if project.Failure? then Failure("Error getting project name: " + project.error)
    else
      var invalid := ValidateChoices(flags.model, flags.matchStrength, flags.mode);
      if invalid.Some? then Failure(invalid.value)
      else
        var prompt := PromptCli.SourcePrompt(promptParts, flags.markdown, w.markdownFile);
        if prompt.Failure? then Failure(prompt.error)
        else if w.apiKey == "" then Failure(MissingKeyError)
        else Success(Request(prompt.value, project.value, flags.model, flags.matchStrength, flags.mode))
  }

  /**
   * main: partition the arguments, parse the flags (an input), prepare the
   * request, read the reply and save the markdown under response.md in the
   * temporary directory. The result is the fatal message, or the saved path
   * and content.
   */
  method Run(args: seq<string>, parsed: Result<LegacyFlags>, w: LegacyWorld)
    returns (err: Option<string>, saved: Option<(string, string)>)
    ensures err.None? <==> saved.Some?
    ensures parsed.Failure? ==> err == Some("Error parsing flags: " + parsed.error)
    ensures parsed.Success? && Prepare(Partition(args).1, parsed.value, w).Failure? ==>
              err == Some(Prepare(Partition(args).1, parsed.value, w).error)
    ensures parsed.Success? && Prepare(Partition(args).1, parsed.value, w).Success? && ReplyFields(w.exchange).Failure? ==>
              err == Some(ReplyFields(w.exchange).error)
    ensures parsed.Success? && Prepare(Partition(args).1, parsed.value, w).Success? && ReplyFields(w.exchange).Success? ==>
              err == if w.tempDir.Failure? then Some("Error creating temporary directory: " + w.tempDir.error)
                     else if w.write.Some? then Some("Error writing to temporary file: " + w.write.value)
                     else None
    ensures saved.Some? ==>
              parsed.Success? && Prepare(Partition(args).1, parsed.value, w).Success? &&
              ReplyFields(w.exchange).Success? && w.tempDir.Success? && w.write.None? &&
              saved.value == (w.tempDir.value + "/response.md",
                              LegacyMarkdown(Prepare(Partition(args).1, parsed.value, w).value.prompt,
                                             ReplyFields(w.exchange).value.0, ReplyFields(w.exchange).value.1,
                                             parsed.value.markdown))
  {
    var flagArgs, promptParts := PartitionArgs(args);
    if parsed.Failure? {
      return Some("Error parsing flags: " + parsed.error), None;
    }
    var flags := parsed.value;
    var request := Prepare(promptParts, flags, w);
    if request.Failure? {
      return Some(request.error), None;
    }
    var fields := ReplyFields(w.exchange);
    if fields.Failure? {
      return Some(fields.error), None;
    }
    if w.tempDir.Failure? {
      return Some("Error creating temporary directory: " + w.tempDir.error), None;
    }
    var tempFile := w.tempDir.value + "/response.md";
    var markdown := BuildMarkdown(request.value.prompt, fields.value.0, fields.value.1, flags.markdown);
    if w.write.Some? {
      return Some("Error writing to temporary file: " + w.write.value), None;
    }
    return None, Some((tempFile, markdown));
  }
}
