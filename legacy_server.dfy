/**
 * The earlier revision of the response endpoint, kept in the server's entry module.
 *
 * It differs from the service flow: the ignore list is read from a
 * `.machtiani.ignore` file beside the server, there is no pull-access gate and
 * no summary step, the infer-file request is made even in pure-chat mode (its
 * result is then unused), and every candidate goes to the content request.
 */
module LegacyServer {
  import opened Common
  import opened FileDedup
  import opened ResponseService

  const ConnectPrefix: string := "Error connecting to machtiani-commit-file-retrieval: "
  const StatusPrefix: string := "Error response from machtiani-commit-file-retrieval: "

  /** A call the legacy flow issues. */
  datatype LegacyCall =
    | InferRequest(prompt: string, mode: string, matchStrength: string)
    | ContentsRequest(filePaths: seq<FilePathEntry>)
    | LlmRequest(prompt: string)

  datatype LegacyRequest = LegacyRequest(prompt: string, project: string, mode: string, model: string, matchStrength: string)

  /**
   * The outside world: the ignore file's text (None when the file is missing),
   * the two retrieval replies, the language model and the token counter. The
   * model and the counter may raise, and the catch-all reports their message.
   */
  datatype LegacyServices = LegacyServices(
    ignoreFile: Option<string>,
    inferFile: Reply<seq<FileSearchResponse>>,
    contents: Reply<FileContentResponse>,
    llm: string -> Result<string>,
    countTokens: string -> Result<nat>)

  // ---------------------------------------------------------------------------
  // The ignore file

  /** Reading a text file translates "\r\n" and a lone "\r" into "\n". */
  function UniversalNewlines(s: string): (r: string)
    ensures '\r' !in r
    ensures |r| <= |s|
  {
    if s == [] then []
    else if s[0] == '\r' then
      if |s| > 1 && s[1] == '\n' then "\n" + UniversalNewlines(s[2..]) else "\n" + UniversalNewlines(s[1..])
    else [s[0]] + UniversalNewlines(s[1..])
  }

  /** The stripped, non-blank lines of the ignore file; no file means nothing is ignored. */
  function IgnoreList(file: Option<string>): seq<string>
  {
    match file
    case None => []
    case Some(text) => StrippedLines(FileLines(text))
  }

  /** The lines a text file yields when iterated, without their line ends. */
  function FileLines(text: string): seq<string>
  {
    Split(UniversalNewlines(text), '\n')
  }

  /**
   * The ignore list holds exactly the trimmed text of the file's non-blank lines:
   * nothing empty, nothing with surrounding whitespace, no comment syntax.
   */
  lemma IgnoreListLines(text: string)
    ensures forall k :: 0 <= k < |IgnoreList(Some(text))| ==>
              IgnoreList(Some(text))[k] != [] && IsTrimmed(IgnoreList(Some(text))[k])
    ensures forall x :: x in IgnoreList(Some(text)) <==> exists j :: StripsTo(FileLines(text), j, x)
  {
    var lines := FileLines(text);
    assert IgnoreList(Some(text)) == StrippedLines(lines);
    StrippedLinesTrimmed(lines);
    StrippedLinesMembers(lines);
  }

  /** A '#' line is ignored as a path like any other: the file has no comments. */
  lemma HashLineIsIgnored(name: string)
    requires name != [] && !IsSpace(name[0]) && !IsSpace(name[|name| - 1])
    requires '\n' !in name && '\r' !in name
    ensures "#" + name in IgnoreList(Some("#" + name + "\n"))
  {
    var text := "#" + name + "\n";
    assert UniversalNewlines("\n") == "\n";
    UniversalNewlinesKeeps("#" + name, "\n");
    assert UniversalNewlines(text) == "#" + name + "\n";
    assert '\n' !in "#" + name;
    assert text == "#" + name + ['\n'] + "";
    SplitAfterPiece("#" + name, "", '\n');
    assert Split("", '\n') == [""];
    var lines := FileLines(text);
    assert lines[0] == "#" + name;
    assert !IsSpace(lines[0][0]);
    TrimSpaceOfTrimmed("#" + name);
    StrippedLinesMembers(lines);
    assert StripsTo(lines, 0, "#" + name);
  }

  lemma {:induction false} UniversalNewlinesKeeps(s: string, t: string)
    requires '\r' !in s
    ensures UniversalNewlines(s + t) == s + UniversalNewlines(t)
  {
    if s != [] {
      assert s[0] in s;
      assert (s + t)[0] == s[0] && (s + t)[1..] == s[1..] + t;
      assert '\r' !in s[1..] by {
        forall i | 0 <= i < |s[1..]| ensures s[1..][i] != '\r' { assert s[1..][i] == s[i + 1]; }
      }
      UniversalNewlinesKeeps(s[1..], t);
      assert UniversalNewlines(s + t) == [s[0]] + UniversalNewlines(s[1..] + t);
      assert [s[0]] + (s[1..] + UniversalNewlines(t)) == s + UniversalNewlines(t);
    } else {
      assert s + t == t;
    }
  }


  lemma TrimSpaceOfTrimmed(s: string)
    requires s != [] && !IsSpace(s[0]) && !IsSpace(s[|s| - 1])
    ensures TrimSpace(s) == s
  {
    assert TrimLeft(s) == s;
  }

  // ---------------------------------------------------------------------------
  // The flow

  /** Every content request carries exactly the candidates, and they are not empty. */
  predicate PayloadIsCandidates(calls: seq<LegacyCall>, candidates: seq<FilePathEntry>)
  {
    forall k :: 0 <= k < |calls| && calls[k].ContentsRequest? ==>
      calls[k].filePaths == candidates && candidates != []
  }

  method GenerateResponse(req: LegacyRequest, env: LegacyServices) returns (outcome: Outcome, calls: seq<LegacyCall>)
    // Validation happens before any request.
    ensures ValidationError(req.model, req.matchStrength).Some? ==>
              outcome == Error(ValidationError(req.model, req.matchStrength).value) && calls == []
    // Otherwise the infer-file request is always the first call, in pure chat too.
    ensures ValidationError(req.model, req.matchStrength).None? ==>
              |calls| >= 1 && calls[0] == InferRequest(req.prompt, req.mode, req.matchStrength)
    ensures ValidationError(req.model, req.matchStrength).None? && !env.inferFile.Ok? ==>
              outcome == HttpErrorOutcome(ConnectPrefix, StatusPrefix, env.inferFile) && |calls| == 1
    // Pure chat: the inferred files are discarded.
    ensures ValidationError(req.model, req.matchStrength).None? && env.inferFile.Ok? && req.mode == PureChatMode ==>
              outcome == Generate(req.model, req.prompt, [], env.llm, env.countTokens)
              && calls == [calls[0]] + (if WithinLimit(req.model, req.prompt, env.countTokens) then [LlmRequest(req.prompt)] else [])
    ensures outcome == NoFilesFound <==>
              ValidationError(req.model, req.matchStrength).None? && env.inferFile.Ok? && req.mode != PureChatMode
              && Candidates(env.inferFile.body, IgnoreList(env.ignoreFile)) == []
    // The content request gets every candidate, none of them ignored.
    ensures env.inferFile.Ok? ==> PayloadIsCandidates(calls, Candidates(env.inferFile.body, IgnoreList(env.ignoreFile)))
    // Once the contents are in, the combined prompt goes through the token check and
    // the model call, and a raising counter or model ends in the catch-all.
    ensures ValidationError(req.model, req.matchStrength).None? && env.inferFile.Ok? && req.mode != PureChatMode
            && Candidates(env.inferFile.body, IgnoreList(env.ignoreFile)) != [] && env.contents.Ok? ==>
              outcome == Generate(req.model, CombinedPrompt(req.prompt, env.contents.body.contents),
                                  env.contents.body.retrievedFilePaths, env.llm, env.countTokens)
    ensures outcome.Answer? && req.mode != PureChatMode ==>
              env.contents.Ok?
              && calls[|calls| - 1] == LlmRequest(CombinedPrompt(req.prompt, env.contents.body.contents))
              && WithinLimit(req.model, CombinedPrompt(req.prompt, env.contents.body.contents), env.countTokens)
  {
    var invalid := ValidationError(req.model, req.matchStrength);
    if invalid.Some? {
      return Error(invalid.value), [];
    }
    var ignoreFiles := IgnoreList(env.ignoreFile);

    calls := [InferRequest(req.prompt, req.mode, req.matchStrength)];
    if !env.inferFile.Ok? {
      return HttpErrorOutcome(ConnectPrefix, StatusPrefix, env.inferFile), calls;
    }

    var combinedPrompt: string;
    var retrievedFilePaths: seq<string>;
    if req.mode == PureChatMode {
      combinedPrompt := req.prompt;
      retrievedFilePaths := [];
    } else {
      var entries := AggregateFilePaths(env.inferFile.body);
      entries := RemoveDuplicateFilePaths(entries);
      entries := WithoutIgnored(entries, ignoreFiles);
      if entries == [] {
        return NoFilesFound, calls;
      }
      calls := calls + [ContentsRequest(entries)];
      if !env.contents.Ok? {
        return HttpErrorOutcome(ConnectPrefix, StatusPrefix, env.contents), calls;
      }
      retrievedFilePaths := env.contents.body.retrievedFilePaths;
      combinedPrompt := BuildCombinedPrompt(req.prompt, env.contents.body.contents);
    }

    var tokenCount := env.countTokens(combinedPrompt);
    if tokenCount.Failure? {
      return Error(UnexpectedPrefix + tokenCount.error), calls;
    }
    var tooLong := TokenCheck(req.model, tokenCount.value);
    if tooLong.Some? {
      return Error(tooLong.value), calls;
    }
    calls := calls + [LlmRequest(combinedPrompt)];
    var reply := env.llm(combinedPrompt);
    if reply.Failure? {
      return Error(UnexpectedPrefix + reply.error), calls;
    }
    outcome := Answer(reply.value, retrievedFilePaths);
  }
}
