/**
 * The prompt command of the older machtiani client: the separators it
 * prints, where the prompt comes from, the name the response is saved under
 * (extensions stripped from the --file name, or a generated name), the
 * generate-filename request and its reply, the markdown assembly, the
 * truncated prompt of the verbose output, and the order of the side effects
 * of one prompt, in which patches and new files are written only in the
 * default mode.
 *
 * Reading files, the HTTP calls and the writes are inputs or steps of a
 * trace; what they printed is not modelled.
 */
module PromptCli {
  import opened Common

  // ---------------------------------------------------------------------------
  // createSeparator

  /** A line of sixty '=' characters. */
  const SeparatorLine: string := RepeatChar('=', 60)

  function CreateSeparator(message: string): (r: string)
  {
    if message == "" then "\n" + SeparatorLine + "\n"
    else "\n" + SeparatorLine + "\n" + message + "\n" + SeparatorLine + "\n"
  }

  /**
   * Read as lines, a separator is a blank line, the sixty '=' line, then the
   * message between a second '=' line and the end when there is a message.
   */
  lemma SeparatorLines(message: string)
    requires '\n' !in message
    ensures |SeparatorLine| == 60 && forall i :: 0 <= i < 60 ==> SeparatorLine[i] == '='
    ensures message == "" ==> Split(CreateSeparator(message), '\n') == ["", SeparatorLine, ""]
    ensures message != "" ==>
              Split(CreateSeparator(message), '\n') == ["", SeparatorLine, message, SeparatorLine, ""]
  {
    var line := SeparatorLine;
    assert '\n' !in line by {
      forall i | 0 <= i < |line| ensures line[i] != '\n' {
        assert line[i] == '=';
      }
    }
    FramedLines(line, message);
  }

  /** The line structure of a separator built around any line without a line break. */
  lemma FramedLines(line: string, message: string)
    requires '\n' !in line && '\n' !in message
    ensures Split("\n" + line + "\n", '\n') == ["", line, ""]
    ensures message != "" ==>
              Split("\n" + line + "\n" + message + "\n" + line + "\n", '\n') == ["", line, message, line, ""]
  {
    JoinFramed(line, message);
    SplitJoin(["", line, ""], '\n');
    SplitJoin(["", line, message, line, ""], '\n');
  }

  lemma JoinFramed(line: string, message: string)
    ensures Join(["", line, ""], '\n') == "\n" + line + "\n"
    ensures Join(["", line, message, line, ""], '\n') == "\n" + line + "\n" + message + "\n" + line + "\n"
  {
    var nl := '\n';
    var tail := [line, ""];
    assert Join(tail, nl) == line + [nl];
    assert Join([""] + tail, nl) == [nl] + (line + [nl]);
    assert ["", line, ""] == [""] + tail;
    var p3 := [message] + tail;
    assert Join(p3, nl) == message + [nl] + (line + [nl]);
    var p4 := [line] + p3;
    assert Join(p4, nl) == line + [nl] + (message + [nl] + (line + [nl]));
    assert ["", line, message, line, ""] == [""] + p4;
    assert Join([""] + p4, nl) == [nl] + (line + [nl] + (message + [nl] + (line + [nl])));
  }

  // ---------------------------------------------------------------------------
  // Where the prompt comes from

  const NoPromptError := "Error: No prompt provided. Please provide either a prompt or a markdown file."

  /**
   * The prompt of handlePrompt: the non-flag arguments joined by spaces, or
   * the content of the --file when one is named; reading that file failing,
   * or an empty joined prompt without a file, is fatal.
   */
  function SourcePrompt(promptParts: seq<string>, fileFlag: string, fileContent: Result<string>): (r: Result<string>)
    ensures fileFlag != "" ==> r == (if fileContent.Success? then Success(fileContent.value)
                                      else Failure("Error reading markdown file: " + fileContent.error))
    ensures fileFlag == "" ==> (r.Success? <==> !(promptParts == [] || promptParts == [""]))
    ensures fileFlag == "" && r.Success? ==> r.value == Join(promptParts, ' ') && r.value != ""
    ensures fileFlag == "" && r.Failure? ==> r.error == NoPromptError
  {
    JoinEmpty(promptParts);
    var prompt := Join(promptParts, ' ');
    if fileFlag != "" then
      if fileContent.Success? then Success(fileContent.value)
      else Failure("Error reading markdown file: " + fileContent.error)
    else if prompt == "" then Failure(NoPromptError)
    else Success(prompt)
  }

  /** A space-joined prompt is empty only without words or with one empty word: two empty words give a space. */
  lemma JoinEmpty(parts: seq<string>)
    ensures Join(parts, ' ') == "" <==> parts == [] || parts == [""]
  {
    if |parts| >= 2 {
      assert |Join(parts, ' ')| >= 1;
    } else if |parts| == 1 {
      assert parts == [parts[0]];
    }
  }

  // ---------------------------------------------------------------------------
  // The name the response is saved under

  /** Go's path.Ext: from the final dot of the last slash-separated element on, or "" when it has no dot. */
  function Ext(p: string): (r: string)
    ensures r != [] ==> HasSuffix(p, r) && r[0] == '.' && '.' !in r[1..] && '/' !in r
    ensures '/' !in p ==> (r == [] <==> '.' !in p)
  {
    if p == [] then []
    else
      var c := p[|p| - 1];
      if c == '/' then []
      else if c == '.' then "."
      else
        var init := p[..|p| - 1];
        var e := Ext(init);
        assert p == init + [c];
        if e == [] then []
        else
          assert p[|p| - |e| - 1..] == init[|init| - |e|..] + [c];
          assert (e + [c])[1..] == e[1..] + [c];
          e + [c]
  }

  /** p without its trailing slashes. */
  function TrimTrailingSlashes(p: string): (r: string)
    ensures HasPrefix(p, r) && (r == [] || r[|r| - 1] != '/')
  {
    if p != [] && p[|p| - 1] == '/' then TrimTrailingSlashes(p[..|p| - 1]) else p
  }

  /** What follows the last slash of p. */
  function AfterLastSlash(p: string): (r: string)
    ensures '/' !in r && HasSuffix(p, r)
    ensures p != [] && p[|p| - 1] != '/' ==> r != []
    ensures '/' !in p ==> r == p
  {
    if p == [] || p[|p| - 1] == '/' then []
    else
      var init := p[..|p| - 1];
      var r := AfterLastSlash(init) + [p[|p| - 1]];
      assert p[|p| - |r|..] == init[|init| - |r| + 1..] + [p[|p| - 1]];
      r
  }

  /** Go's path.Base: "." for the empty path, "/" for a path of slashes, else the last element. */
  function Base(p: string): (r: string)
    ensures r != [] && (r == "/" || '/' !in r)
    ensures p == "" ==> r == "."
    ensures p != "" && '/' !in p ==> r == p
  {
    if p == "" then "."
    else
      var t := AfterLastSlash(TrimTrailingSlashes(p));
      if t == "" then "/" else t
  }

  /** The part of s before its first dot. */
  function BeforeFirstDot(s: string): (r: string)
    ensures HasPrefix(s, r) && '.' !in r
    ensures r != s ==> s[|r|] == '.'
  {
    match IndexOfChar(s, '.', 0)
    case None => s
    case Some(i) => s[..i]
  }

  /**
   * The extension-stripping loop: removes one extension at a time until the
   * name has none. On a name without slashes it keeps what precedes the first
   * dot, so every extension goes; a name without an extension is kept.
   */
  method StripExtensions(name: string) returns (filename: string)
    ensures HasPrefix(name, filename) && Ext(filename) == ""
    ensures Ext(name) == "" ==> filename == name
    ensures '/' !in name ==> filename == BeforeFirstDot(name)
  {
    filename := name;
    var ext := Ext(filename);
    ghost var stem := BeforeFirstDot(name);
    while ext != ""
      invariant HasPrefix(name, filename) && ext == Ext(filename)
      invariant '/' !in name ==> HasPrefix(filename, stem)
      invariant Ext(name) == "" ==> filename == name
      decreases |filename|
    {
      var cut := |filename| - |ext|;
      assert filename[cut] == '.';
      if '/' !in name {
        assert name[cut] == '.';
        assert forall j :: 0 <= j < |stem| ==> name[j] == stem[j] && stem[j] != '.';
      }
      filename := TrimSuffix(filename, ext);
      assert filename == name[..cut];
      ext := Ext(filename);
    }
    if '/' !in name {
      assert forall j :: 0 <= j < |filename| ==> filename[j] == name[j] && filename[j] != '.';
      assert stem != name ==> name[|stem|] == '.';
    }
  }

  /** What stripping the extensions of the --file's base name leaves. */
  function Stem(fileFlag: string): (r: string)
    ensures r != "."
  {
    var b := Base(fileFlag);
    if b == "/" then "/" else BeforeFirstDot(b)
  }

  /** A plain file name is its own base name, so its stem is what precedes its first dot. */
  lemma StemOfPlainName(name: string)
    requires name != "" && '/' !in name
    ensures Stem(name) == BeforeFirstDot(name)
  {
  }

  lemma StemExamples()
    ensures Stem("") == ""
    ensures BeforeFirstDot("a.tar.gz") == "a"
    ensures BeforeFirstDot(".bashrc") == ""
    ensures BeforeFirstDot("README") == "README"
  {
    assert IndexOfChar("a.tar.gz", '.', 0) == Some(1);
    assert IndexOfChar(".bashrc", '.', 0) == Some(0);
    assert '.' !in "README";
  }

  const FallbackFilename := "machtiani-response"

  // ---------------------------------------------------------------------------
  // generateFilename

  /** The configuration values generateFilename reads. */
  datatype FilenameConfig = FilenameConfig(modelBaseURLOther: string, modelAPIKeyOther: string,
                                           gatewayHostKey: string, gatewayHostValue: string)

  /** The reply of the generate-filename endpoint: status, body (or the read error) and the decoded filename field (or the decoding error). */
  datatype FilenameReply = FilenameReply(status: int, body: Result<string>, decoded: Result<string>)

  /**
   * The query of the generate-filename request: the context always, each
   * optional key or URL only when it is non-empty, and nothing else.
   */
  method FilenameQuery(context: string, apiKey: string, baseUrl: string, config: FilenameConfig)
    returns (params: seq<(string, string)>)
    ensures |params| >= 1 && params[0] == ("context", context)
    ensures ("llm_model_api_key", apiKey) in params <==> apiKey != ""
    ensures ("llm_model_base_url", baseUrl) in params <==> baseUrl != ""
    ensures ("llm_model_base_url_other", config.modelBaseURLOther) in params <==> config.modelBaseURLOther != ""
    ensures ("llm_model_api_key_other", config.modelAPIKeyOther) in params <==> config.modelAPIKeyOther != ""
    ensures forall k :: 1 <= k < |params| ==> params[k].1 != ""
    ensures forall p :: p in params ==>
              p in [("context", context), ("llm_model_api_key", apiKey), ("llm_model_base_url", baseUrl),
                    ("llm_model_base_url_other", config.modelBaseURLOther),
                    ("llm_model_api_key_other", config.modelAPIKeyOther)]
  {
    params := [("context", context)];
    if apiKey != "" {
      params := params + [("llm_model_api_key", apiKey)];
    }
    if baseUrl != "" {
      params := params + [("llm_model_base_url", baseUrl)];
    }
    if config.modelBaseURLOther != "" {
      params := params + [("llm_model_base_url_other", config.modelBaseURLOther)];
    }
    if config.modelAPIKeyOther != "" {
      params := params + [("llm_model_api_key_other", config.modelAPIKeyOther)];
    }
  }

  /** The gateway header: the configured key when both are set, the default key when only the value is, else none. */
  function GatewayHeader(config: FilenameConfig): (h: Option<(string, string)>)
    ensures h.Some? <==> config.gatewayHostValue != ""
    ensures h.Some? ==> h.value.1 == config.gatewayHostValue &&
                        h.value.0 == (if config.gatewayHostKey != "" then config.gatewayHostKey else "X-RapidAPI-Key")
  {
    if config.gatewayHostValue != "" && config.gatewayHostKey != "" then Some((config.gatewayHostKey, config.gatewayHostValue))
    else if config.gatewayHostValue != "" then Some(("X-RapidAPI-Key", config.gatewayHostValue))
    else None
  }

  /**
   * What generateFilename returns for a loaded configuration (or its error),
   * the endpoint and the outcome of the call: a name only from a successful,
   * readable, decodable 200 reply whose filename is non-empty.
   */
  function GenerateFilename(config: Result<FilenameConfig>, endpoint: string, call: Result<FilenameReply>): (r: Result<string>)
    ensures r.Success? <==> config.Success? && endpoint != "" && call.Success? && call.value.status == 200 &&
                            call.value.body.Success? && call.value.decoded.Success? && call.value.decoded.value != ""
    ensures r.Success? ==> r.value == call.value.decoded.value && r.value != ""
    ensures config.Failure? ==> r.error == "error loading config: " + config.error
    ensures config.Success? && endpoint == "" ==> r.error == "MACHTIANI_URL environment variable is not set"
    ensures config.Success? && endpoint != "" && call.Success? && call.value.status == 200 && call.value.body.Success? &&
            call.value.decoded.Success? && call.value.decoded.value == "" ==>
              r.error == "generate-filename endpoint returned an empty filename"
  {
    if config.Failure? then Failure("error loading config: " + config.error)
    else if endpoint == "" then Failure("MACHTIANI_URL environment variable is not set")
    else if call.Failure? then Failure("failed to call generate-filename endpoint: " + call.error)
    else
      var reply := call.value;
      if reply.status != 200 then
        if reply.body.Failure? then
          Failure("generate-filename endpoint returned status " + IntToString(reply.status) +
                  ". Failed to read response body: " + reply.body.error)
        else Failure("generate-filename endpoint returned status " + IntToString(reply.status) + ": " + reply.body.value)
      else if reply.body.Failure? then
        Failure("failed to read response body from generate-filename endpoint: " + reply.body.error)
      else if reply.decoded.Failure? then
        Failure("failed to decode response from generate-filename endpoint: " + reply.decoded.error)
      else if reply.decoded.value == "" then Failure("generate-filename endpoint returned an empty filename")
      else Success(reply.decoded.value)
  }

  // ---------------------------------------------------------------------------
  // createMarkdownContent

  /** The retrieved paths, one "- `path`" line each. */
  function PathLines(paths: seq<string>): string
  {
    ListLines("- `", "`", paths)
  }

  /** The markdown before the retrieved paths: the file's content or the prompt under "# User", then the response. */
  function MarkdownHead(prompt: string, response: string, fileFlag: string, reread: Result<string>): string
  {
    if fileFlag != "" && reread.Success? then reread.value + "\n\n# Assistant\n\n" + response
    else "# User\n\n" + prompt + "\n\n# Assistant\n\n" + response
  }

  function MarkdownContent(prompt: string, response: string, paths: seq<string>, fileFlag: string,
                           reread: Result<string>): string
  {
    MarkdownHead(prompt, response, fileFlag, reread) +
    (if paths == [] then "" else "\n\n# Retrieved File Paths\n\n" + PathLines(paths))
  }

  /** createMarkdownContent, with the outcome of re-reading the --file as an input. */
  method CreateMarkdownContent(prompt: string, response: string, paths: seq<string>, fileFlag: string,
                               reread: Result<string>) returns (markdown: string)
    ensures markdown == MarkdownContent(prompt, response, paths, fileFlag, reread)
  {
    if fileFlag != "" {
      if reread.Failure? {
        markdown := "# User\n\n" + prompt + "\n\n# Assistant\n\n" + response;
      } else {
        markdown := reread.value + "\n\n# Assistant\n\n" + response;
      }
    } else {
      markdown := "# User\n\n" + prompt + "\n\n# Assistant\n\n" + response;
    }
    if |paths| > 0 {
      markdown := AppendPathLines(markdown + "\n\n# Retrieved File Paths\n\n", paths);
    }
  }

  /** The loop that appends one "- `path`" line per retrieved path. */
  method AppendPathLines(start: string, paths: seq<string>) returns (markdown: string)
    ensures markdown == start + PathLines(paths)
  {
    markdown := start;
    for i := 0 to |paths|
      invariant markdown == start + PathLines(paths[..i])
    {
      assert paths[..i + 1] == paths[..i] + [paths[i]];
      ListLinesSnoc("- `", "`", paths[..i], paths[i]);
      markdown := markdown + (ListLine("- `", "`", paths[i]) + "\n");
    }
    assert paths[..|paths|] == paths;
  }

  /** Each retrieved path sits on a line of its own, in backticks, in order, and the list ends with a newline. */
  lemma PathLinesSplit(paths: seq<string>)
    requires forall k :: 0 <= k < |paths| ==> '\n' !in paths[k]
    ensures Split(PathLines(paths), '\n') == seq(|paths|, k requires 0 <= k < |paths| => "- `" + paths[k] + "`") + [""]
  {
    ListLinesSplit("- `", "`", paths);
    assert seq(|paths|, k requires 0 <= k < |paths| => ListLine("- `", "`", paths[k])) ==
           seq(|paths|, k requires 0 <= k < |paths| => "- `" + paths[k] + "`");
  }

  // ---------------------------------------------------------------------------
  // Verbose output

  const MaxPromptLen := 200

  /** The prompt shown in the verbose output: at most 200 characters, then "..." when it was longer. */
  function TruncatedPrompt(prompt: string): (r: string)
    ensures |prompt| <= MaxPromptLen ==> r == prompt
    ensures |prompt| > MaxPromptLen ==> |r| == MaxPromptLen + 3 && HasPrefix(prompt, r[..MaxPromptLen]) &&
                                        HasSuffix(r, "...")
  {
    if |prompt| > MaxPromptLen then prompt[..MaxPromptLen] + "..." else prompt
  }

  // ---------------------------------------------------------------------------
  // handlePrompt

  /** The side effects of one prompt, in order. */
  datatype Step =
    | ShowVerbose(prompt: string)
    | CallApi(prompt: string, mode: string)
    | WritePatches
    | ApplyPatches
    | WriteNewFiles
    | GenerateName
    | SaveResponse(filename: string, content: string)

  /** What the file system and the services answer during one prompt. */
  datatype PromptWorld = PromptWorld(
    fileContent: Result<string>,
    api: Result<string>,
    patchWrite: Option<string>,
    nameConfig: Result<FilenameConfig>,
    endpoint: string,
    nameCall: Result<FilenameReply>)

  /** The verbose output, shown unless the mode is answer-only. */
  function VerboseSteps(verbose: bool, mode: string, prompt: string): seq<Step>
  {
    if verbose && mode != "answer-only" then [ShowVerbose(TruncatedPrompt(prompt))] else []
  }

  /** In the default mode: patches written, then applied when writing worked, then new files written. */
  function WriteSteps(mode: string, patchWrite: Option<string>): seq<Step>
  {
    if mode != "default" then []
    else if patchWrite.None? then [WritePatches, ApplyPatches, WriteNewFiles]
    else [WritePatches, WriteNewFiles]
  }

  /** The generated name, or the fallback when generating it fails. */
  function GeneratedName(w: PromptWorld): string
  {
    var g := GenerateFilename(w.nameConfig, w.endpoint, w.nameCall);
    if g.Success? then g.value else FallbackFilename
  }

  /** Outside answer-only mode the response is saved under the stem of --file, or under a generated name. */
  function SaveSteps(mode: string, fileFlag: string, response: string, w: PromptWorld): seq<Step>
  {
    if mode == "answer-only" then []
    else if Stem(fileFlag) != "" then [SaveResponse(Stem(fileFlag), response)]
    else [GenerateName, SaveResponse(GeneratedName(w), response)]
  }

  /** The side effects of a prompt whose API call succeeded. */
  function PromptTrace(verbose: bool, mode: string, prompt: string, fileFlag: string, response: string,
                       w: PromptWorld): seq<Step>
  {
    VerboseSteps(verbose, mode, prompt) + [CallApi(prompt, mode)] + WriteSteps(mode, w.patchWrite) +
    SaveSteps(mode, fileFlag, response, w)
  }

  /** The writes of the default mode. */
  method DefaultModeWrites(patchWrite: Option<string>) returns (steps: seq<Step>)
    ensures steps == WriteSteps("default", patchWrite)
  {
    steps := [WritePatches];
    if patchWrite.None? {
      steps := steps + [ApplyPatches];
    }
    steps := steps + [WriteNewFiles];
  }

  /** The name the response is saved under: the --file's stem, or a generated name, or the fallback. */
  method ResponseFilename(fileFlag: string, w: PromptWorld) returns (filename: string, generated: bool)
    ensures filename != ""
    ensures generated <==> Stem(fileFlag) == ""
    ensures filename == if generated then GeneratedName(w) else Stem(fileFlag)
  {
    var b := Base(fileFlag);
    filename := StripExtensions(b);
    generated := false;
    if filename == "" || filename == "." {
      generated := true;
      var g := GenerateFilename(w.nameConfig, w.endpoint, w.nameCall);
      if g.Failure? {
        filename := FallbackFilename;
      } else {
        filename := g.value;
      }
    }
  }

  /**
   * handlePrompt from the parsed flags on: the prompt, the verbose output,
   * the API call, the default-mode writes and the saved response. The result
   * is the fatal message, if any, and the side effects in order.
   */
  method HandlePrompt(promptParts: seq<string>, fileFlag: string, mode: string, verbose: bool, w: PromptWorld)
    returns (err: Option<string>, steps: seq<Step>)
    ensures var p := SourcePrompt(promptParts, fileFlag, w.fileContent);
            if p.Failure? then err == Some(p.error) && steps == []
            else if w.api.Failure? then
              err == Some("Error making API call: " + w.api.error) &&
              steps == VerboseSteps(verbose, mode, p.value) + [CallApi(p.value, mode)]
            else err.None? && steps == PromptTrace(verbose, mode, p.value, fileFlag, w.api.value, w)
  {
    var p := SourcePrompt(promptParts, fileFlag, w.fileContent);
    if p.Failure? {
      return Some(p.error), [];
    }
    var prompt := p.value;
    var shown: seq<Step> := [];
    if verbose && mode != "answer-only" {
      shown := [ShowVerbose(TruncatedPrompt(prompt))];
    }
    steps := shown + [CallApi(prompt, mode)];
    if w.api.Failure? {
      return Some("Error making API call: " + w.api.error), steps;
    }
    var writes: seq<Step> := [];
    if mode == "default" {
      writes := DefaultModeWrites(w.patchWrite);
    }
    var saves: seq<Step> := [];
    var isAnswerOnly := mode == "answer-only";
    if !isAnswerOnly {
      var filename, generated := ResponseFilename(fileFlag, w);
      if generated {
        saves := [GenerateName];
      }
      saves := saves + [SaveResponse(filename, w.api.value)];
    }
    assert shown == VerboseSteps(verbose, mode, prompt);
    assert writes == WriteSteps(mode, w.patchWrite);
    assert saves == SaveSteps(mode, fileFlag, w.api.value, w);
    steps := steps + writes + saves;
    err := None;
  }

  lemma PromptTraceMembers(verbose: bool, mode: string, prompt: string, fileFlag: string, response: string,
                            w: PromptWorld, s: Step)
    ensures s in PromptTrace(verbose, mode, prompt, fileFlag, response, w) <==>
              s in VerboseSteps(verbose, mode, prompt) || s == CallApi(prompt, mode) ||
              s in WriteSteps(mode, w.patchWrite) || s in SaveSteps(mode, fileFlag, response, w)
  {
  }

  /** The saving steps only name and save. */
  lemma SaveStepsOnlySave(mode: string, fileFlag: string, response: string, w: PromptWorld)
    ensures forall s :: s in SaveSteps(mode, fileFlag, response, w) ==> s.GenerateName? || s.SaveResponse?
  {
    var stem, name := Stem(fileFlag), GeneratedName(w);
    assert SaveSteps(mode, fileFlag, response, w) ==
           if mode == "answer-only" then [] else if stem != "" then [SaveResponse(stem, response)]
           else [GenerateName, SaveResponse(name, response)];
  }

  /** Patches and new files are written only in the default mode, and patches are applied only when writing them worked. */
  lemma DefaultModeOnlyWrites(verbose: bool, mode: string, prompt: string, fileFlag: string, response: string,
                              w: PromptWorld)
    ensures var t := PromptTrace(verbose, mode, prompt, fileFlag, response, w);
            && (WritePatches in t <==> mode == "default")
            && (WriteNewFiles in t <==> mode == "default")
            && (ApplyPatches in t <==> mode == "default" && w.patchWrite.None?)
  {
    var v, ws, ss := VerboseSteps(verbose, mode, prompt), WriteSteps(mode, w.patchWrite), SaveSteps(mode, fileFlag, response, w);
    assert forall s :: s in v ==> s.ShowVerbose?;
    SaveStepsOnlySave(mode, fileFlag, response, w);
    forall s: Step | s.WritePatches? || s.WriteNewFiles? || s.ApplyPatches?
      ensures s in PromptTrace(verbose, mode, prompt, fileFlag, response, w) <==> s in ws
    {
      PromptTraceMembers(verbose, mode, prompt, fileFlag, response, w, s);
    }
  }

  /** In answer-only mode the API call is the only side effect: nothing is shown, named or saved. */
  lemma AnswerOnlyQuiet(verbose: bool, prompt: string, fileFlag: string, response: string, w: PromptWorld)
    ensures PromptTrace(verbose, "answer-only", prompt, fileFlag, response, w) == [CallApi(prompt, "answer-only")]
  {
  }

  /** The name the response is saved under outside answer-only mode. */
  function SavedName(fileFlag: string, w: PromptWorld): string
  {
    if Stem(fileFlag) != "" then Stem(fileFlag) else GeneratedName(w)
  }

  /** The steps before the saving ones neither name nor save anything. */
  lemma FrontSavesNothing(verbose: bool, mode: string, prompt: string, w: PromptWorld)
    ensures var front := VerboseSteps(verbose, mode, prompt) + [CallApi(prompt, mode)] + WriteSteps(mode, w.patchWrite);
            forall k :: 0 <= k < |front| ==> !front[k].GenerateName? && !front[k].SaveResponse?
  {
    var v, ws := VerboseSteps(verbose, mode, prompt), WriteSteps(mode, w.patchWrite);
    var front := v + [CallApi(prompt, mode)] + ws;
    assert forall k :: 0 <= k < |v| ==> v[k].ShowVerbose?;
    assert forall k :: 0 <= k < |ws| ==> ws[k].WritePatches? || ws[k].ApplyPatches? || ws[k].WriteNewFiles?;
    assert forall k :: 0 <= k < |front| ==> front[k] == if k < |v| then v[k] else if k == |v| then CallApi(prompt, mode)
                                                      else ws[k - |v| - 1];
  }

  /**
   * Outside answer-only mode the whole response is saved, once and last,
   * under a name that is never empty.
   */
  lemma ResponseSavedOnce(verbose: bool, mode: string, prompt: string, fileFlag: string, response: string,
                          w: PromptWorld)
    requires mode != "answer-only"
    ensures var t := PromptTrace(verbose, mode, prompt, fileFlag, response, w);
            && t[|t| - 1] == SaveResponse(SavedName(fileFlag, w), response)
            && SavedName(fileFlag, w) != ""
            && (forall k :: 0 <= k < |t| - 1 ==> !t[k].SaveResponse?)
  {
    var t := PromptTrace(verbose, mode, prompt, fileFlag, response, w);
    var front := VerboseSteps(verbose, mode, prompt) + [CallApi(prompt, mode)] + WriteSteps(mode, w.patchWrite);
    var sv := SaveSteps(mode, fileFlag, response, w);
    assert t == front + sv;
    FrontSavesNothing(verbose, mode, prompt, w);
    assert SavedName(fileFlag, w) != "" by {
      var g := GenerateFilename(w.nameConfig, w.endpoint, w.nameCall);
    }
    assert sv[|sv| - 1] == SaveResponse(SavedName(fileFlag, w), response);
    assert forall k :: 0 <= k < |sv| - 1 ==> !sv[k].SaveResponse?;
    assert forall k :: |front| <= k < |t| ==> t[k] == sv[k - |front|];
  }

  /** Outside answer-only mode a name is generated exactly when the --file gives no stem. */
  lemma NameGeneratedIffNoStem(verbose: bool, mode: string, prompt: string, fileFlag: string, response: string,
                               w: PromptWorld)
    requires mode != "answer-only"
    ensures GenerateName in PromptTrace(verbose, mode, prompt, fileFlag, response, w) <==> Stem(fileFlag) == ""
  {
    var t := PromptTrace(verbose, mode, prompt, fileFlag, response, w);
    var front := VerboseSteps(verbose, mode, prompt) + [CallApi(prompt, mode)] + WriteSteps(mode, w.patchWrite);
    var sv := SaveSteps(mode, fileFlag, response, w);
    assert t == front + sv;
    FrontSavesNothing(verbose, mode, prompt, w);
    assert GenerateName !in front;
    assert GenerateName in t <==> GenerateName in sv;
  }
}
