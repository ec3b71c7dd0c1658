/**
 * The command-line client's consumer of the streamed answer.
 *
 * The server streams JSON objects; each decoded object (a chunk) may carry a
 * token of the answer, an error, retrieved file paths, updated file contents or
 * suggested new files. The client accumulates the tokens, renders the text one
 * completed block (text up to a blank line) at a time, holds back the blocks of
 * a code fence until the fence closes, and returns the raw and the rendered
 * answer with the paths and file updates it received.
 *
 * Two clients share this loop: the current one (which also knows answer-only
 * mode, the file-edit event, updated file contents and new files) and the older
 * one; `Variant` selects between them.
 */
module StreamConsumer {
  import opened Common

  datatype UpdateFileContent = UpdateFileContent(updatedContent: string, errors: seq<string>)

  datatype NewFilesData = NewFilesData(newContent: map<string, string>, newFilePaths: seq<string>, errors: seq<string>)

  /** A field of a chunk: missing, decoded, or present with a shape the client cannot decode. */
  datatype Field<T> = Absent | Valid(value: T) | Invalid(reason: string)

  /** A decoded stream object; `event`, `error` and `token` are the fields that hold strings. */
  datatype Chunk = Chunk(
    event: Option<string>,
    error: Option<string>,
    token: Option<string>,
    retrievedFilePaths: Field<seq<string>>,
    updatedFileContents: Field<map<string, UpdateFileContent>>,
    newFiles: Field<NewFilesData>)

  /** One element of the stream: a decoded object, or text the JSON decoder rejects. */
  datatype Frame = Decoded(chunk: Chunk) | Undecodable(reason: string)

  datatype StreamResult = StreamResult(
    llmModelResponse: string,
    rawResponse: string,
    retrievedFilePaths: seq<string>,
    updateContentResponse: map<string, UpdateFileContent>,
    newFiles: Option<NewFilesData>)

  const AnswerOnlyMode: string := "answer-only"
  const FileEditStart: string := "file_edit_start"
  const UserHeading: string := "# User"
  const Fence: string := "```"
  const BlankLine: string := "\n\n"
  const TrailerHeading: string := "\n\n---\n\n# Retrieved File Paths\n\n"

  const DecodeFailed: string := "failed to decode JSON response: "
  const ApiError: string := "API error: "
  const PathsFailed: string := "failed to unmarshal retrieved_file_paths: "
  const UpdatesFailed: string := "failed to unmarshal updated_file_contents: "

  /** Only the current client has answer-only mode. */
  predicate IsAnswerOnly(variant: Variant, mode: string)
  {
    variant == Current && mode == AnswerOnlyMode
  }

  // ---------------------------------------------------------------------------
  // The header

  /** The text that opens the answer: the prompt under a User heading, then an Assistant heading. */
  function Header(prompt: string, answerOnly: bool): string
  {
    if answerOnly then prompt
    else if LeadsWith(prompt, UserHeading, 0) then prompt + "\n# Assistant\n\n"
    else "# User\n\n" + prompt + "\n\n# Assistant\n\n"
  }

  /** The test for a prompt that already opens with the User heading is the client's trimmed-prefix test. */
  lemma LeadsWithUserHeading(prompt: string)
    ensures LeadsWith(prompt, UserHeading, 0) <==> HasPrefix(TrimSpace(prompt), UserHeading)
  {
    LeadsWithTrim(prompt, UserHeading, 0);
  }

  /**
   * Outside answer-only mode the header ends with the Assistant heading and keeps
   * the prompt whole, wrapped under a User heading only when it lacks one (the
   * test LeadsWithUserHeading relates to the trimmed prompt); in answer-only mode
   * it is the bare prompt.
   */
  lemma HeaderFrame(prompt: string)
    ensures Header(prompt, true) == prompt
    ensures HasSuffix(Header(prompt, false), "# Assistant\n\n")
    ensures LeadsWith(prompt, UserHeading, 0) ==> HasPrefix(Header(prompt, false), prompt)
    ensures !LeadsWith(prompt, UserHeading, 0) ==> HasPrefix(Header(prompt, false), "# User\n\n" + prompt)
  {
    var h := Header(prompt, false);
    if LeadsWith(prompt, UserHeading, 0) {
      assert h == prompt + "\n" + "# Assistant\n\n";
      assert h[..|prompt|] == prompt;
      assert h[|prompt| + 1..] == "# Assistant\n\n";
    } else {
      assert h == "# User\n\n" + prompt + "\n\n" + "# Assistant\n\n";
      assert h[..|"# User\n\n" + prompt|] == "# User\n\n" + prompt;
      assert h[|prompt| + 10..] == "# Assistant\n\n";
    }
  }

  /** Outside answer-only mode the trimmed header always opens with the User heading. */
  lemma HeaderOpensWithUser(prompt: string)
    ensures HasPrefix(TrimSpace(Header(prompt, false)), UserHeading)
  {
    var h := Header(prompt, false);
    if LeadsWith(prompt, UserHeading, 0) {
      LeadsWithAppend(prompt, "\n# Assistant\n\n", UserHeading, 0);
    } else {
      assert h[..|UserHeading|] == UserHeading;
      assert OccursAt(h, UserHeading, 0);
    }
    assert LeadsWith(h, UserHeading, 0);
    LeadsWithTrim(h, UserHeading, 0);
  }

  // ---------------------------------------------------------------------------
  // Blocks and code fences

  /** A line that opens or closes a code fence: after leading whitespace it starts with three backticks. */
  predicate IsFence(line: string)
  {
    LeadsWith(line, Fence, 0)
  }

  /** After the whitespace run that starts at i, s continues with p. */
  predicate LeadsWith(s: string, p: string, i: nat)
    decreases |s| - i
  {
    if i < |s| && IsSpace(s[i]) then LeadsWith(s, p, i + 1) else OccursAt(s, p, i)
  }

  /** The fence test is the client's: the trimmed line starts with three backticks. */
  lemma IsFenceTrimmed(line: string)
    ensures IsFence(line) <==> HasPrefix(TrimSpace(line), Fence)
  {
    LeadsWithTrim(line, Fence, 0);
  }

  /** For a p that ends in a non-space character, LeadsWith is "the trimmed text starts with p". */
  lemma {:induction false} LeadsWithTrim(s: string, p: string, i: nat)
    requires p != [] && !IsSpace(p[|p| - 1])
    requires i <= |s|
    requires forall j :: 0 <= j < i ==> IsSpace(s[j])
    ensures LeadsWith(s, p, i) <==> HasPrefix(TrimSpace(s), p)
    decreases |s| - i
  {
    if i < |s| && IsSpace(s[i]) {
      LeadsWithTrim(s, p, i + 1);
    } else {
      TrimLeftAt(s, i);
      PrefixSurvivesTrimRight(s[i..], p);
      if OccursAt(s, p, i) {
        assert s[i..][..|p|] == s[i..i + |p|];
      }
      if HasPrefix(s[i..], p) {
        assert s[i..][..|p|] == s[i..i + |p|];
      }
    }
  }

  /** A prefix that ends in a non-space character is kept by right trimming. */
  lemma PrefixSurvivesTrimRight(l: string, p: string)
    requires p != [] && !IsSpace(p[|p| - 1])
    ensures HasPrefix(l, p) <==> HasPrefix(TrimRight(l), p)
  {
    var r := TrimRight(l);
    var n := |p|;
    if HasPrefix(l, p) {
      assert l[n - 1] == p[n - 1];
      assert r[..n] == l[..n];
    }
    if HasPrefix(r, p) {
      assert r[..n] == l[..n];
    }
  }

  /** Left trimming drops exactly the whitespace run that ends at i. */
  lemma {:induction false} TrimLeftAt(s: string, i: nat)
    requires i <= |s| && forall j :: 0 <= j < i ==> IsSpace(s[j])
    requires i == |s| || !IsSpace(s[i])
    ensures TrimLeft(s) == s[i..]
  {
    if i > 0 {
      assert IsSpace(s[0]);
      forall j | 0 <= j < i - 1 ensures IsSpace(s[1..][j]) {
        assert s[1..][j] == s[j + 1];
      }
      assert i - 1 == |s[1..]| || s[1..][i - 1] == s[i];
      TrimLeftAt(s[1..], i - 1);
      assert s[1..][i - 1..] == s[i..];
    }
  }

  /** What follows a string does not change where its leading text starts. */
  lemma {:induction false} LeadsWithAppend(s: string, t: string, p: string, i: nat)
    requires p != [] && i <= |s| && LeadsWith(s, p, i)
    ensures LeadsWith(s + t, p, i)
    decreases |s| - i
  {
    if i < |s| && IsSpace(s[i]) {
      assert (s + t)[i] == s[i];
      LeadsWithAppend(s, t, p, i + 1);
    } else {
      assert (s + t)[i] == s[i];
      assert (s + t)[i..i + |p|] == s[i..i + |p|];
    }
  }

  /** The number of fence lines. */
  function FenceCount(lines: seq<string>): nat
  {
    if lines == [] then 0
    else FenceCount(lines[..|lines| - 1]) + (if IsFence(lines[|lines| - 1]) then 1 else 0)
  }

  function BlockFences(block: string): nat
  {
    FenceCount(Split(block, '\n'))
  }

  /** The fence lines of all completed blocks. */
  function TotalFences(blocks: seq<string>): nat
  {
    if blocks == [] then 0 else TotalFences(blocks[..|blocks| - 1]) + BlockFences(blocks[|blocks| - 1])
  }

  /** The completed blocks with the blank lines that ended them. */
  function BlocksText(blocks: seq<string>): string
  {
    if blocks == [] then "" else BlocksText(blocks[..|blocks| - 1]) + blocks[|blocks| - 1] + BlankLine
  }

  predicate NoBlankLine(s: string)
  {
    !Contains(s, BlankLine)
  }

  /**
   * A block as the client cuts it: the first blank line after it is the one
   * that ends it, so it holds no blank line and does not end in a line break.
   */
  predicate CutBlock(block: string)
  {
    NoBlankLine(block) && (block == [] || block[|block| - 1] != '\n')
  }

  /** Every completed block is cut at its first blank line. */
  predicate CutBlocks(blocks: seq<string>)
  {
    blocks == [] || (CutBlocks(blocks[..|blocks| - 1]) && CutBlock(blocks[|blocks| - 1]))
  }

  /** Trailing "\r" and "\n" characters removed (Go strings.TrimRight with that cut set). */
  function TrimLineEnds(s: string): (r: string)
    ensures |r| <= |s| && r == s[..|r|]
    ensures r != [] ==> r[|r| - 1] != '\r' && r[|r| - 1] != '\n'
    ensures forall i :: |r| <= i < |s| ==> s[i] == '\r' || s[i] == '\n'
  {
    if s != [] && (s[|s| - 1] == '\r' || s[|s| - 1] == '\n') then TrimLineEnds(s[..|s| - 1]) else s
  }

  /** Every "\r\n" replaced by "\n", left to right (Go strings.ReplaceAll). */
  function UnixLineEnds(s: string): (r: string)
    ensures |r| <= |s|
  {
    if |s| >= 2 && s[0] == '\r' && s[1] == '\n' then "\n" + UnixLineEnds(s[2..])
    else if s == [] then ""
    else [s[0]] + UnixLineEnds(s[1..])
  }

  /** A text block as it is rendered: line ends trimmed at the end and normalised. */
  function CleanBlock(s: string): string
  {
    UnixLineEnds(TrimLineEnds(s))
  }

  /** The block before the first blank line contains no blank line. */
  lemma FirstBlockHasNoBlankLine(s: string, idx: nat)
    requires idx <= |s|
    requires forall j :: 0 <= j < idx ==> !OccursAt(s, BlankLine, j)
    ensures NoBlankLine(s[..idx])
  {
    forall i | 0 <= i <= |s[..idx]| - |BlankLine| ensures !OccursAt(s[..idx], BlankLine, i) {
      assert !OccursAt(s, BlankLine, i);
      assert s[..idx][i..i + |BlankLine|] == s[i..i + |BlankLine|];
    }
  }

  /** The text before the first blank line of the buffer and the text after it, if there is one. */
  function FirstBlock(buffer: string): (r: Option<(string, string)>)
    ensures r.Some? ==> buffer == r.value.0 + BlankLine + r.value.1 && CutBlock(r.value.0)
    ensures r.None? <==> NoBlankLine(buffer)
  {
    match IndexFrom(buffer, BlankLine, 0)
    case None => None
    case Some(idx) =>
      FirstBlockHasNoBlankLine(buffer, idx);
      assert idx > 0 ==> !OccursAt(buffer, BlankLine, idx - 1);
      assert idx > 0 ==> buffer[..idx][idx - 1] == buffer[idx - 1];
      assert buffer == buffer[..idx] + BlankLine + buffer[idx + 2..];
      Some((buffer[..idx], buffer[idx + 2..]))
  }

  /** An occurrence found in a text is still the first one once more text follows. */
  lemma IndexFromAppend(s: string, t: string, p: string, from: nat)
    requires IndexFrom(s, p, from).Some?
    ensures IndexFrom(s + t, p, from) == IndexFrom(s, p, from)
  {
    var i := IndexFrom(s, p, from).value;
    assert (s + t)[i..i + |p|] == s[i..i + |p|];
    assert OccursAt(s + t, p, i);
    forall j | from <= j < i ensures !OccursAt(s + t, p, j) {
      assert !OccursAt(s, p, j);
      assert (s + t)[j..j + |p|] == s[j..j + |p|];
    }
  }

  /** A block already complete in the buffer is cut the same way whatever arrives after it. */
  lemma FirstBlockAppend(s: string, t: string)
    requires FirstBlock(s).Some?
    ensures FirstBlock(s + t) == Some((FirstBlock(s).value.0, FirstBlock(s).value.1 + t))
  {
    var idx := IndexFrom(s, BlankLine, 0).value;
    IndexFromAppend(s, t, BlankLine, 0);
    assert (s + t)[..idx] == s[..idx];
    assert (s + t)[idx + 2..] == s[idx + 2..] + t;
  }

  /** A text cut into its completed blocks, in order, and the pending rest. */
  datatype Blocks = Blocks(done: seq<string>, rest: string)

  /** The blocks the client cuts from a text: each time at the first blank line of what is left. */
  function SplitBlocks(s: string): Blocks
    decreases |s|
  {
    match FirstBlock(s)
    case None => Blocks([], s)
    case Some((block, rest)) =>
      var r := SplitBlocks(rest);
      Blocks([block] + r.done, r.rest)
  }

  lemma SplitBlocksNone(s: string)
    requires NoBlankLine(s)
    ensures SplitBlocks(s) == Blocks([], s)
  {
  }

  /**
   * Cutting block by block as tokens arrive gives the blocks of the whole text:
   * the blocks of s, then those of its pending rest followed by t.
   */
  lemma {:induction false} SplitBlocksAppend(s: string, t: string)
    ensures SplitBlocks(s + t) == Blocks(SplitBlocks(s).done + SplitBlocks(SplitBlocks(s).rest + t).done,
                                         SplitBlocks(SplitBlocks(s).rest + t).rest)
    decreases |s|
  {
    match FirstBlock(s)
    case None =>
      assert [] + SplitBlocks(s + t).done == SplitBlocks(s + t).done;
    case Some((block, rest)) =>
      FirstBlockAppend(s, t);
      SplitBlocksAppend(rest, t);
      var tail := SplitBlocks(SplitBlocks(rest).rest + t);
      assert SplitBlocks(s + t) == Blocks([block] + SplitBlocks(rest + t).done, SplitBlocks(rest + t).rest);
      Assoc([block], SplitBlocks(rest).done, tail.done);
  }

  lemma {:induction false} BlocksTextCons(block: string, blocks: seq<string>)
    ensures BlocksText([block] + blocks) == block + BlankLine + BlocksText(blocks)
    ensures CutBlocks([block] + blocks) <==> CutBlock(block) && CutBlocks(blocks)
  {
    if blocks == [] {
      assert [block] + blocks == [block] && [block][..0] == [];
    } else {
      var init := blocks[..|blocks| - 1];
      var last := blocks[|blocks| - 1];
      assert ([block] + blocks)[..|blocks|] == [block] + init;
      assert ([block] + blocks)[|blocks|] == last;
      BlocksTextCons(block, init);
      Assoc(block + BlankLine, BlocksText(init), last + BlankLine);
    }
  }

  /** Cutting loses nothing: the blocks, each with its blank line, then the rest, give back the text. */
  lemma {:induction false} SplitBlocksJoin(s: string)
    ensures s == BlocksText(SplitBlocks(s).done) + SplitBlocks(s).rest
    ensures CutBlocks(SplitBlocks(s).done) && NoBlankLine(SplitBlocks(s).rest)
    decreases |s|
  {
    match FirstBlock(s)
    case None =>
    case Some((block, rest)) =>
      SplitBlocksJoin(rest);
      BlocksTextCons(block, SplitBlocks(rest).done);
      Assoc(block + BlankLine, BlocksText(SplitBlocks(rest).done), SplitBlocks(rest).rest);
  }

  /** What the renderer has shown, and the blocks it holds back inside an open code fence. */
  datatype Rendering = Rendering(shown: seq<string>, held: string)

  /**
   * One completed block: inside a fence it is held with its blank line; at the end
   * of a fence it is shown after the held blocks, as they are; otherwise it is shown cleaned.
   */
  function RenderStep(r: Rendering, inCodeBlock: bool, block: string): Rendering
  {
    if inCodeBlock then Rendering(r.shown, r.held + block + BlankLine)
    else if r.held != [] then Rendering(r.shown + [r.held + block], "")
    else Rendering(r.shown + [CleanBlock(block)], "")
  }

  /** The renderer after the completed blocks, the fence flag being the parity of their fence lines. */
  function RenderBlocks(blocks: seq<string>): Rendering
  {
    if blocks == [] then Rendering([], "")
    else RenderStep(RenderBlocks(blocks[..|blocks| - 1]), TotalFences(blocks) % 2 == 1, blocks[|blocks| - 1])
  }

  /** Blocks are held back exactly while a fence is open. */
  lemma RenderHeldInFence(blocks: seq<string>)
    ensures RenderBlocks(blocks).held != [] <==> TotalFences(blocks) % 2 == 1
  {
    if blocks != [] {
      var last := blocks[|blocks| - 1];
      assert |RenderBlocks(blocks[..|blocks| - 1]).held + last + BlankLine| >= 2;
    }
  }

  /** Without fence lines every completed block is shown, cleaned, in order, and nothing is held. */
  lemma {:induction false} RenderWithoutFences(blocks: seq<string>)
    requires TotalFences(blocks) == 0
    ensures |RenderBlocks(blocks).shown| == |blocks| && RenderBlocks(blocks).held == []
    ensures forall k :: 0 <= k < |blocks| ==> RenderBlocks(blocks).shown[k] == CleanBlock(blocks[k])
  {
    if blocks != [] {
      var init := blocks[..|blocks| - 1];
      RenderWithoutFences(init);
      forall k | 0 <= k < |init| ensures blocks[k] == init[k] { }
    }
  }

  /** The display while the stream runs, outside answer-only mode: the header, then the shown blocks. */
  function Shown(header: string, tokens: string): seq<string>
  {
    [header] + RenderBlocks(SplitBlocks(tokens).done).shown
  }

  /**
   * The display once the stream has ended, outside answer-only mode: what was shown,
   * the pending rest cleaned, then the trailer. Blocks held in a fence that never
   * closed are not shown.
   */
  function RenderedDisplay(header: string, tokens: string, paths: seq<string>): seq<string>
  {
    Shown(header, tokens)
    + (if SplitBlocks(tokens).rest == [] then [] else [CleanBlock(SplitBlocks(tokens).rest)])
    + (if paths == [] then [] else [Trailer(paths)])
  }

  /** Everything printed: answer-only mode prints the whole answer once, with a final newline. */
  function Display(answerOnly: bool, header: string, tokens: string, paths: seq<string>): seq<string>
  {
    if answerOnly then [header + tokens + Trailer(paths) + "\n"] else RenderedDisplay(header, tokens, paths)
  }

  /** The rendered answer the stream returns (its llmModelResponse). */
  function Answer(answerOnly: bool, header: string, tokens: string, paths: seq<string>): string
  {
    if answerOnly then header + (if tokens == [] then "" else CleanBlock(tokens)) + Trailer(paths)
    else Concat(RenderedDisplay(header, tokens, paths))
  }

  /** After a cut block and its blank line, the client's first cut falls exactly there. */
  lemma FirstBlockOfCut(block: string, t: string)
    requires CutBlock(block)
    ensures FirstBlock(block + BlankLine + t) == Some((block, t))
  {
    var s := block + BlankLine + t;
    var n := |block|;
    assert s[n..n + 2] == BlankLine;
    assert OccursAt(s, BlankLine, n);
    forall j | 0 <= j < n ensures !OccursAt(s, BlankLine, j) {
      if j + 2 <= n {
        assert !OccursAt(block, BlankLine, j);
        assert s[j..j + 2] == block[j..j + 2];
      } else {
        assert s[j..j + 2][0] == s[j] == block[n - 1];
      }
    }
    assert IndexFrom(s, BlankLine, 0) == Some(n);
    assert s[..n] == block && s[n + 2..] == t;
  }

  /** Blocks each cut at their first blank line, then a rest without one, are the client's cut of their text. */
  lemma {:induction false} CutIsSplit(s: string, blocks: seq<string>, rest: string)
    requires s == BlocksText(blocks) + rest && CutBlocks(blocks) && NoBlankLine(rest)
    ensures SplitBlocks(s) == Blocks(blocks, rest)
    decreases |blocks|
  {
    if blocks == [] {
      assert s == rest;
      SplitBlocksNone(rest);
    } else {
      var block := blocks[0];
      var others := blocks[1..];
      assert blocks == [block] + others;
      BlocksTextCons(block, others);
      var tail := BlocksText(others) + rest;
      Assoc(block + BlankLine, BlocksText(others), rest);
      FirstBlockOfCut(block, tail);
      CutIsSplit(tail, others, rest);
    }
  }

  /** A display kept by the rendering invariant over a cut of the tokens is what the client shows for them. */
  lemma DisplayIsShown(header: string, tokens: string, blocks: seq<string>, rest: string, display: seq<string>)
    requires tokens == BlocksText(blocks) + rest && CutBlocks(blocks) && NoBlankLine(rest)
    requires display == [header] + RenderBlocks(blocks).shown
    ensures display == Shown(header, tokens)
  {
    CutIsSplit(tokens, blocks, rest);
  }

  /** The new files after a frame: replaced, filled in, by the frame's data, or else unchanged. */
  ghost predicate NewFilesAfter(before: Option<NewFilesData>, data: Option<NewFilesData>, after: Option<NewFilesData>)
  {
    if data.Some? then after.Some? && Filled(data.value, after.value) else after == before
  }

  /** A token that completes a block shows that block at once. */
  lemma BlankLineShowsBlock(header: string)
    ensures Shown(header, "a\n\nb") == [header, "a"]
  {
    var s := "a\n\nb";
    assert s[0..2] == "a\n" && s[1..3] == BlankLine;
    assert IndexFrom(s, BlankLine, 0) == Some(1);
    assert s[..1] == "a" && s[3..] == "b";
    assert FirstBlock(s) == Some(("a", "b"));
    assert FirstBlock("b").None?;
    SplitWhole("a", '\n');
    assert !IsFence("a");
    assert TotalFences(["a"]) == 0;
    RenderWithoutFences(["a"]);
    assert CleanBlock("a") == "a";
  }

  /**
   * An answer whose code fence never closes loses the fenced text from the
   * rendered answer: it stays in the held buffer and is never shown.
   */
  lemma UnclosedFenceDropped(header: string)
    ensures Answer(false, header, "```\nx\n\n", []) == header
  {
    OpenFenceBlocks();
    OpenFenceHeld();
    assert RenderedDisplay(header, "```\nx\n\n", []) == [header];
    assert Concat([header]) == header;
  }

  lemma OpenFenceBlocks()
    ensures SplitBlocks("```\nx\n\n") == Blocks(["```\nx"], "")
  {
    var s := "```\nx\n\n";
    assert s[0..2] == "``" && s[1..3] == "``" && s[2..4] == "`\n" && s[3..5] == "\nx" && s[4..6] == "x\n";
    assert s[5..7] == BlankLine;
    assert IndexFrom(s, BlankLine, 0) == Some(5);
    assert s[..5] == "```\nx" && s[7..] == "";
    assert FirstBlock(s) == Some(("```\nx", ""));
  }

  lemma OpenFenceHeld()
    ensures RenderBlocks(["```\nx"]).shown == []
  {
    OpenFenceCount();
    assert ["```\nx"][..0] == [];
  }

  /** The block "```\nx" holds one fence line. */
  lemma OpenFenceCount()
    ensures BlockFences("```\nx") == 1
  {
    OpenFenceLines();
    assert IsFence("```") && !IsFence("x");
    assert ["```", "x"][..1] == ["```"] && ["```"][..0] == [];
  }

  lemma OpenFenceLines()
    ensures Split("```\nx", '\n') == ["```", "x"]
  {
    assert "```\nx" == Fence + ['\n'] + "x";
    SplitAfterPiece(Fence, "x", '\n');
    SplitWhole("x", '\n');
  }

  lemma Parity(a: nat, b: nat)
    ensures ((a + b) % 2 == 1) == ((a % 2 == 1) != (b % 2 == 1))
  {
  }

  lemma TotalFencesSnoc(blocks: seq<string>, block: string)
    ensures TotalFences(blocks + [block]) == TotalFences(blocks) + BlockFences(block)
  {
    assert (blocks + [block])[..|blocks|] == blocks;
  }

  /** Flipping the flag once per fence line of a new block keeps it equal to the parity of all fence lines. */
  lemma FenceParitySnoc(blocks: seq<string>, block: string, flag: bool)
    requires flag == (TotalFences(blocks) % 2 == 1)
    ensures (flag != (BlockFences(block) % 2 == 1)) == (TotalFences(blocks + [block]) % 2 == 1)
  {
    TotalFencesSnoc(blocks, block);
    Parity(TotalFences(blocks), BlockFences(block));
  }

  lemma BlocksTextSnoc(blocks: seq<string>, block: string)
    ensures BlocksText(blocks + [block]) == BlocksText(blocks) + block + BlankLine
  {
    assert (blocks + [block])[..|blocks|] == blocks;
  }

  /** Moving a cut block from the pending buffer to the completed blocks keeps the text. */
  lemma TakeBlockText(tokens: string, blocks: seq<string>, block: string, rest: string)
    requires tokens == BlocksText(blocks) + (block + BlankLine + rest) && CutBlocks(blocks) && CutBlock(block)
    ensures tokens == BlocksText(blocks + [block]) + rest && CutBlocks(blocks + [block])
  {
    BlocksTextSnoc(blocks, block);
    assert (blocks + [block])[..|blocks|] == blocks;
  }

  /** Rendering one more block, as the display of a stream that starts with `header` sees it. */
  lemma RenderSnoc(header: string, blocks: seq<string>, block: string, display: seq<string>)
    requires display == [header] + RenderBlocks(blocks).shown
    ensures var r := RenderBlocks(blocks + [block]);
            var held := RenderBlocks(blocks).held;
            var inCode := TotalFences(blocks + [block]) % 2 == 1;
            (inCode ==> [header] + r.shown == display && r.held == held + block + BlankLine)
            && (!inCode ==> r.held == [] && [header] + r.shown == display + [if held != [] then held + block else CleanBlock(block)])
  {
    var before := RenderBlocks(blocks);
    assert (blocks + [block])[..|blocks|] == blocks;
    var inCode := TotalFences(blocks + [block]) % 2 == 1;
    assert RenderBlocks(blocks + [block]) == RenderStep(before, inCode, block);
    if !inCode {
      var text := if before.held != [] then before.held + block else CleanBlock(block);
      Assoc([header], before.shown, [text]);
    }
  }

  lemma ConcatSnoc(parts: seq<string>, x: string)
    ensures Concat(parts + [x]) == Concat(parts) + x
  {
    assert (parts + [x])[..|parts|] == parts;
  }

  /** The fence flag after the lines of a completed block: it flips once per fence line. */
  method ToggleOnFences(block: string, inCodeBlock: bool) returns (r: bool)
    ensures r == (inCodeBlock != (BlockFences(block) % 2 == 1))
  {
    var lines := Split(block, '\n');
    r := inCodeBlock;
    var i := 0;
    while i < |lines|
      invariant 0 <= i <= |lines|
      invariant r == (inCodeBlock != (FenceCount(lines[..i]) % 2 == 1))
    {
      assert lines[..i + 1][..i] == lines[..i];
      if IsFence(lines[i]) {
        r := !r;
      }
      i := i + 1;
    }
    assert lines[..|lines|] == lines;
  }

  // ---------------------------------------------------------------------------
  // The paths trailer

  /** One "- path" line per path, in order. */
  function PathLines(paths: seq<string>): string
  {
    if paths == [] then "" else PathLines(paths[..|paths| - 1]) + "- " + paths[|paths| - 1] + "\n"
  }

  /** The "Retrieved File Paths" section, present only when there are paths. */
  function Trailer(paths: seq<string>): (r: string)
    ensures r == [] <==> paths == []
  {
    if paths == [] then "" else TrailerHeading + PathLines(paths)
  }

  lemma {:induction false} PathLinesAppend(a: seq<string>, b: seq<string>)
    ensures PathLines(a + b) == PathLines(a) + PathLines(b)
  {
    if b != [] {
      assert (a + b)[..|a + b| - 1] == a + b[..|b| - 1];
      PathLinesAppend(a, b[..|b| - 1]);
    } else {
      assert a + b == a;
    }
  }

  /** Each path contributes exactly its own line: the trailer lists the paths in order. */
  lemma {:induction false} PathLinesLength(paths: seq<string>)
    ensures |PathLines(paths)| == 3 * |paths| + SumLengths(paths)
  {
    if paths != [] {
      PathLinesLength(paths[..|paths| - 1]);
    }
  }

  function SumLengths(paths: seq<string>): nat
  {
    if paths == [] then 0 else SumLengths(paths[..|paths| - 1]) + |paths[|paths| - 1]|
  }

  // ---------------------------------------------------------------------------
  // What a stream amounts to

  predicate IsEditStart(variant: Variant, c: Chunk)
  {
    variant == Current && c.event == Some(FileEditStart)
  }

  /** The error a frame ends the stream with, if any. */
  function FrameError(variant: Variant, answerOnly: bool, f: Frame): Option<string>
  {
    match f
    case Undecodable(reason) => Some(DecodeFailed + reason)
    case Decoded(c) =>
      if IsEditStart(variant, c) then None
      else if c.error.Some? then Some(ApiError + c.error.value)
      else if c.token.Some? && answerOnly then None
      else if c.retrievedFilePaths.Invalid? then Some(PathsFailed + c.retrievedFilePaths.reason)
      else if variant == Current && c.updatedFileContents.Invalid? then Some(UpdatesFailed + c.updatedFileContents.reason)
      else None
  }

  /** The token a frame adds to the answer. */
  function FrameToken(variant: Variant, f: Frame): string
  {
    if f.Decoded? && !IsEditStart(variant, f.chunk) && f.chunk.token.Some? then f.chunk.token.value else ""
  }

  /** The paths a frame adds; in answer-only mode a chunk with a token is not looked at further. */
  function FramePaths(variant: Variant, answerOnly: bool, f: Frame): seq<string>
  {
    if f.Decoded? && !IsEditStart(variant, f.chunk) && !(answerOnly && f.chunk.token.Some?)
       && f.chunk.retrievedFilePaths.Valid?
    then f.chunk.retrievedFilePaths.value
    else []
  }

  /** The file updates a frame carries. */
  function FrameUpdates(variant: Variant, answerOnly: bool, f: Frame): map<string, UpdateFileContent>
  {
    if variant == Current && f.Decoded? && !IsEditStart(variant, f.chunk) && !(answerOnly && f.chunk.token.Some?)
       && f.chunk.updatedFileContents.Valid?
    then f.chunk.updatedFileContents.value
    else map[]
  }

  function StreamTokens(variant: Variant, frames: seq<Frame>): string
  {
    if frames == [] then "" else StreamTokens(variant, frames[..|frames| - 1]) + FrameToken(variant, frames[|frames| - 1])
  }

  function StreamPaths(variant: Variant, answerOnly: bool, frames: seq<Frame>): seq<string>
  {
    if frames == [] then []
    else StreamPaths(variant, answerOnly, frames[..|frames| - 1]) + FramePaths(variant, answerOnly, frames[|frames| - 1])
  }

  /** The updates merged in arrival order; a later update of a path replaces an earlier one. */
  function StreamUpdates(variant: Variant, answerOnly: bool, frames: seq<Frame>): map<string, UpdateFileContent>
  {
    if frames == [] then map[]
    else StreamUpdates(variant, answerOnly, frames[..|frames| - 1]) + FrameUpdates(variant, answerOnly, frames[|frames| - 1])
  }

  /** The new-files data a frame carries: the current client only, and undecodable data is skipped. */
  function FrameNewFiles(variant: Variant, answerOnly: bool, f: Frame): Option<NewFilesData>
  {
    if variant == Current && f.Decoded? && !IsEditStart(variant, f.chunk) && !(answerOnly && f.chunk.token.Some?)
       && f.chunk.newFiles.Valid?
    then Some(f.chunk.newFiles.value)
    else None
  }

  /** The new-files data of the stream: each decoded one replaces the one before. */
  function StreamNewFiles(variant: Variant, answerOnly: bool, frames: seq<Frame>): Option<NewFilesData>
  {
    if frames == [] then None
    else if FrameNewFiles(variant, answerOnly, frames[|frames| - 1]).Some? then FrameNewFiles(variant, answerOnly, frames[|frames| - 1])
    else StreamNewFiles(variant, answerOnly, frames[..|frames| - 1])
  }

  /** The stream's new files are those of its last frame that carries decodable ones, and only those. */
  lemma {:induction false} StreamNewFilesLast(variant: Variant, answerOnly: bool, frames: seq<Frame>)
    ensures StreamNewFiles(variant, answerOnly, frames).None? <==>
              forall k :: 0 <= k < |frames| ==> FrameNewFiles(variant, answerOnly, frames[k]).None?
    ensures StreamNewFiles(variant, answerOnly, frames).Some? ==>
              exists k :: 0 <= k < |frames| && FrameNewFiles(variant, answerOnly, frames[k]) == StreamNewFiles(variant, answerOnly, frames)
                && forall j :: k < j < |frames| ==> FrameNewFiles(variant, answerOnly, frames[j]).None?
  {
    if frames != [] {
      var n := |frames| - 1;
      var init := frames[..n];
      StreamNewFilesLast(variant, answerOnly, init);
      forall k | 0 <= k < n ensures frames[k] == init[k] { }
      if FrameNewFiles(variant, answerOnly, frames[n]).None? && StreamNewFiles(variant, answerOnly, init).Some? {
        var k :| 0 <= k < n && FrameNewFiles(variant, answerOnly, init[k]) == StreamNewFiles(variant, answerOnly, init)
                 && forall j :: k < j < n ==> FrameNewFiles(variant, answerOnly, init[j]).None?;
        assert FrameNewFiles(variant, answerOnly, frames[k]) == StreamNewFiles(variant, answerOnly, frames);
        forall j | k < j < |frames| ensures FrameNewFiles(variant, answerOnly, frames[j]).None? {
          if j < n {
            assert frames[j] == init[j];
          }
        }
      }
    }
  }

  /**
   * r is nf with its path list filled in: content and errors kept; a non-empty
   * list, or no content, left alone; otherwise each content path listed once.
   */
  ghost predicate Filled(nf: NewFilesData, r: NewFilesData)
  {
    && r.newContent == nf.newContent && r.errors == nf.errors
    && (nf.newFilePaths != [] || |nf.newContent| == 0 ==> r == nf)
    && (nf.newFilePaths == [] && |nf.newContent| > 0 ==>
          && |r.newFilePaths| == |nf.newContent|
          && (forall p :: p in r.newFilePaths <==> p in nf.newContent)
          && forall i, j :: 0 <= i < j < |r.newFilePaths| ==> r.newFilePaths[i] != r.newFilePaths[j])
  }

  /** The recorded new files are the stream's, filled in. */
  ghost predicate FilledNewFiles(data: Option<NewFilesData>, r: Option<NewFilesData>)
  {
    (data.None? <==> r.None?) && (data.Some? ==> Filled(data.value, r.value))
  }

  /** No frame of the sequence ends the stream. */
  predicate NoFrameError(variant: Variant, answerOnly: bool, frames: seq<Frame>)
  {
    forall k :: 0 <= k < |frames| ==> FrameError(variant, answerOnly, frames[k]).None?
  }

  /** One more frame of the stream, accounted for. */
  lemma StreamSnoc(variant: Variant, answerOnly: bool, frames: seq<Frame>, i: nat)
    requires i < |frames|
    ensures StreamTokens(variant, frames[..i + 1]) == StreamTokens(variant, frames[..i]) + FrameToken(variant, frames[i])
    ensures StreamPaths(variant, answerOnly, frames[..i + 1])
            == StreamPaths(variant, answerOnly, frames[..i]) + FramePaths(variant, answerOnly, frames[i])
    ensures StreamUpdates(variant, answerOnly, frames[..i + 1])
            == StreamUpdates(variant, answerOnly, frames[..i]) + FrameUpdates(variant, answerOnly, frames[i])
    ensures NoFrameError(variant, answerOnly, frames[..i]) && FrameError(variant, answerOnly, frames[i]).None? ==>
              NoFrameError(variant, answerOnly, frames[..i + 1])
    ensures StreamNewFiles(variant, answerOnly, frames[..i + 1])
            == if FrameNewFiles(variant, answerOnly, frames[i]).Some? then FrameNewFiles(variant, answerOnly, frames[i])
               else StreamNewFiles(variant, answerOnly, frames[..i])
  {
    assert frames[..i + 1][..i] == frames[..i];
    assert frames[..i + 1][i] == frames[i];
  }

  /** Paths are appended in arrival order. */
  lemma {:induction false} StreamPathsAppend(variant: Variant, answerOnly: bool, a: seq<Frame>, b: seq<Frame>)
    ensures StreamPaths(variant, answerOnly, a + b) == StreamPaths(variant, answerOnly, a) + StreamPaths(variant, answerOnly, b)
  {
    if b == [] {
      assert a + b == a;
    } else {
      var n := |b| - 1;
      var ab := a + b;
      assert ab[..|ab| - 1] == a + b[..n] && ab[|ab| - 1] == b[n];
      StreamPathsAppend(variant, answerOnly, a, b[..n]);
      var last := FramePaths(variant, answerOnly, b[n]);
      assert StreamPaths(variant, answerOnly, ab) == StreamPaths(variant, answerOnly, a + b[..n]) + last;
      assert StreamPaths(variant, answerOnly, b) == StreamPaths(variant, answerOnly, b[..n]) + last;
      Assoc(StreamPaths(variant, answerOnly, a), StreamPaths(variant, answerOnly, b[..n]), last);
    }
  }

  /**
   * Last write wins: a path in the merged updates holds the value of the last frame
   * that updated it, and a path no frame updated is absent.
   */
  lemma {:induction false} StreamUpdatesLastWins(variant: Variant, answerOnly: bool, frames: seq<Frame>, p: string)
    ensures p in StreamUpdates(variant, answerOnly, frames) <==>
              exists k :: 0 <= k < |frames| && p in FrameUpdates(variant, answerOnly, frames[k])
    ensures p in StreamUpdates(variant, answerOnly, frames) ==>
              exists k :: 0 <= k < |frames| && p in FrameUpdates(variant, answerOnly, frames[k])
                && StreamUpdates(variant, answerOnly, frames)[p] == FrameUpdates(variant, answerOnly, frames[k])[p]
                && forall j :: k < j < |frames| ==> p !in FrameUpdates(variant, answerOnly, frames[j])
  {
    if frames != [] {
      var init := frames[..|frames| - 1];
      var last := FrameUpdates(variant, answerOnly, frames[|frames| - 1]);
      StreamUpdatesLastWins(variant, answerOnly, init, p);
      if p in last {
        assert p in FrameUpdates(variant, answerOnly, frames[|frames| - 1]);
      } else {
        forall k | 0 <= k < |init| ensures frames[k] == init[k] { }
        if p in StreamUpdates(variant, answerOnly, init) {
          var k :| 0 <= k < |init| && p in FrameUpdates(variant, answerOnly, init[k])
                   && StreamUpdates(variant, answerOnly, init)[p] == FrameUpdates(variant, answerOnly, init[k])[p]
                   && forall j :: k < j < |init| ==> p !in FrameUpdates(variant, answerOnly, init[j]);
          assert frames[k] == init[k];
          forall j | k < j < |frames| ensures p !in FrameUpdates(variant, answerOnly, frames[j]) {
            if j < |init| {
              assert frames[j] == init[j];
            }
          }
        }
      }
    }
  }

  // ---------------------------------------------------------------------------
  // The consumer's state

  class ResponseStream {
    const variant: Variant
    const answerOnly: bool
    const header: string

    var tokenBuffer: string
    var inCodeBlock: bool
    var codeBlockBuffer: string
    var completeResponse: string
    var rawResponse: string
    var answerOnlyBuffer: string
    var retrievedFilePaths: seq<string>
    var updated: map<string, UpdateFileContent>
    var newFiles: Option<NewFilesData>
    /** What reaches the terminal: every rendered text, and the final answer-only print. */
    var display: seq<string>

    /** The tokens received so far, and the blocks completed from them. */
    ghost var tokens: string
    ghost var blocks: seq<string>

    /** The state of the block renderer, outside answer-only mode. */
    ghost predicate RenderValid()
      reads this`inCodeBlock, this`blocks, this`codeBlockBuffer, this`completeResponse, this`display
    {
      && inCodeBlock == (TotalFences(blocks) % 2 == 1)
      && (!inCodeBlock ==> codeBlockBuffer == [])
      && completeResponse == Concat(display)
      && display == [header] + RenderBlocks(blocks).shown
      && codeBlockBuffer == RenderBlocks(blocks).held
    }


    /** The tokens are the completed blocks, each ended by a blank line, then the pending buffer. */
    ghost predicate TextValid()
      reads this`tokens, this`blocks, this`tokenBuffer
    {
      tokens == BlocksText(blocks) + tokenBuffer && CutBlocks(blocks)
    }

    /** The raw answer is the header followed by every token. */
    ghost predicate RawValid()
      reads this`rawResponse, this`tokens
    {
      rawResponse == header + tokens
    }

    /** Answer-only mode renders nothing while the stream runs. */
    ghost predicate QuietValid()
      reads this`blocks, this`display, this`completeResponse, this`answerOnlyBuffer, this`tokens
    {
      answerOnly ==> blocks == [] && display == [] && completeResponse == header && answerOnlyBuffer == header + tokens
    }

    /** The older client has no answer-only mode and receives no file updates. */
    ghost predicate OlderValid()
      reads this`updated, this`newFiles
    {
      variant == Older ==> !answerOnly && updated == map[] && newFiles.None?
    }

    /** Outside answer-only mode, the pending buffer never holds a completed block. */
    ghost predicate Valid()
      reads this`rawResponse, this`tokens, this`blocks, this`tokenBuffer, this`display, this`completeResponse,
            this`answerOnlyBuffer, this`inCodeBlock, this`codeBlockBuffer, this`updated, this`newFiles
    {
      Consistent() && OlderValid() && (!answerOnly ==> NoBlankLine(tokenBuffer))
    }

    ghost predicate Consistent()
      reads this`rawResponse, this`tokens, this`blocks, this`tokenBuffer, this`display, this`completeResponse,
            this`answerOnlyBuffer, this`inCodeBlock, this`codeBlockBuffer
    {
      && RawValid()
      && TextValid()
      && QuietValid()
      && (!answerOnly ==> RenderValid())
    }

    constructor (variant: Variant, mode: string, prompt: string)
      ensures this.variant == variant && answerOnly == IsAnswerOnly(variant, mode)
      ensures header == Header(prompt, answerOnly)
      ensures Valid() && tokens == [] && blocks == [] && tokenBuffer == []
      ensures retrievedFilePaths == [] && updated == map[] && newFiles.None?
      ensures display == (if answerOnly then [] else [header])
    {
      this.variant := variant;
      answerOnly := IsAnswerOnly(variant, mode);
      header := Header(prompt, IsAnswerOnly(variant, mode));
      tokenBuffer := [];
      inCodeBlock := false;
      codeBlockBuffer := [];
      completeResponse := Header(prompt, IsAnswerOnly(variant, mode));
      rawResponse := Header(prompt, IsAnswerOnly(variant, mode));
      answerOnlyBuffer := if IsAnswerOnly(variant, mode) then Header(prompt, IsAnswerOnly(variant, mode)) else [];
      retrievedFilePaths := [];
      updated := map[];
      newFiles := None;
      display := if IsAnswerOnly(variant, mode) then [] else [Header(prompt, IsAnswerOnly(variant, mode))];
      tokens := [];
      blocks := [];
    }

    /** Toggles the fence flag for each fence line of a completed block, then renders or holds the block. */
    method ProcessBlock(block: string)
      requires !answerOnly && RenderValid()
      modifies this`inCodeBlock, this`codeBlockBuffer, this`completeResponse, this`display, this`blocks
      ensures RenderValid()
      ensures blocks == old(blocks) + [block]
      ensures inCodeBlock == (old(inCodeBlock) != (BlockFences(block) % 2 == 1))
      ensures inCodeBlock ==> codeBlockBuffer == old(codeBlockBuffer) + block + BlankLine && display == old(display)
      ensures !inCodeBlock && old(codeBlockBuffer) != [] ==> display == old(display) + [old(codeBlockBuffer) + block]
      ensures !inCodeBlock && old(codeBlockBuffer) == [] ==> display == old(display) + [CleanBlock(block)]
    {
      RenderSnoc(header, blocks, block, display);
      AdvanceFences(block);
      Render(block);
    }

    /** The fence flag after a completed block, and the block recorded. */
    method AdvanceFences(block: string)
      requires inCodeBlock == (TotalFences(blocks) % 2 == 1)
      modifies this`inCodeBlock, this`blocks
      ensures inCodeBlock == (TotalFences(blocks) % 2 == 1)
      ensures blocks == old(blocks) + [block]
      ensures inCodeBlock == (old(inCodeBlock) != (BlockFences(block) % 2 == 1))
    {
      FenceParitySnoc(blocks, block, inCodeBlock);
      inCodeBlock := ToggleOnFences(block, inCodeBlock);
      blocks := blocks + [block];
    }

    /** Holds a block inside a fence; otherwise shows it, with the held blocks before it. */
    method Render(block: string)
      requires completeResponse == Concat(display)
      modifies this`codeBlockBuffer, this`completeResponse, this`display
      ensures completeResponse == Concat(display)
      ensures !inCodeBlock ==> codeBlockBuffer == []
      ensures inCodeBlock ==> codeBlockBuffer == old(codeBlockBuffer) + block + BlankLine && display == old(display)
      ensures !inCodeBlock && old(codeBlockBuffer) != [] ==> display == old(display) + [old(codeBlockBuffer) + block]
      ensures !inCodeBlock && old(codeBlockBuffer) == [] ==> display == old(display) + [CleanBlock(block)]
    {
      if inCodeBlock {
        codeBlockBuffer := codeBlockBuffer + block + BlankLine;
      } else {
        var text := if codeBlockBuffer != [] then codeBlockBuffer + block else CleanBlock(block);
        ConcatSnoc(display, text);
        display := display + [text];
        completeResponse := completeResponse + text;
        codeBlockBuffer := [];
      }
    }

    /** Moves a completed block out of the buffer and renders it. */
    method TakeBlock(block: string, rest: string)
      requires Consistent() && !answerOnly
      requires tokenBuffer == block + BlankLine + rest && CutBlock(block)
      modifies this`tokenBuffer, this`inCodeBlock, this`codeBlockBuffer, this`completeResponse, this`display, this`blocks
      ensures Consistent() && tokens == old(tokens)
      ensures blocks == old(blocks) + [block]
      ensures tokenBuffer == rest
    {
      TakeBlockText(tokens, blocks, block, rest);
      ProcessBlock(block);
      tokenBuffer := rest;
    }

    /** Records a token in the pending buffer and the raw answer. */
    method Append(token: string)
      requires Consistent() && !answerOnly
      modifies this`tokenBuffer, this`rawResponse, this`tokens
      ensures Consistent() && tokens == old(tokens) + token && tokenBuffer == old(tokenBuffer) + token
    {
      tokenBuffer := tokenBuffer + token;
      rawResponse := rawResponse + token;
      tokens := tokens + token;
    }

    /** Appends a token and renders every block it completes. */
    method AddToken(token: string)
      requires Valid() && !answerOnly
      modifies this`tokenBuffer, this`rawResponse, this`tokens, this`inCodeBlock, this`codeBlockBuffer,
               this`completeResponse, this`display, this`blocks
      ensures Valid() && tokens == old(tokens) + token
      ensures |blocks| >= |old(blocks)| && blocks[..|old(blocks)|] == old(blocks)
      ensures display == Shown(header, tokens)
    {
      Append(token);
      TakeBlocks();
      DisplayIsShown(header, tokens, blocks, tokenBuffer, display);
    }

    /** Renders every completed block of the pending buffer. */
    method TakeBlocks()
      requires Consistent() && !answerOnly
      modifies this`tokenBuffer, this`inCodeBlock, this`codeBlockBuffer, this`completeResponse, this`display, this`blocks
      ensures Consistent() && NoBlankLine(tokenBuffer) && tokens == old(tokens)
      ensures |blocks| >= |old(blocks)| && blocks[..|old(blocks)|] == old(blocks)
    {
      var next := FirstBlock(tokenBuffer);
      while next.Some?
        invariant Consistent() && tokens == old(tokens)
        invariant next == FirstBlock(tokenBuffer)
        invariant |blocks| >= |old(blocks)| && blocks[..|old(blocks)|] == old(blocks)
        decreases |tokenBuffer|
      {
        ghost var before := blocks;
        TakeBlock(next.value.0, next.value.1);
        assert blocks[..|old(blocks)|] == before[..|old(blocks)|];
        next := FirstBlock(tokenBuffer);
      }
    }

    /** Answer-only mode only accumulates the tokens. */
    method AddTokenQuietly(token: string)
      requires Valid() && answerOnly
      modifies this`tokenBuffer, this`rawResponse, this`tokens, this`answerOnlyBuffer
      ensures Valid() && tokens == old(tokens) + token && tokenBuffer == tokens
    {
      tokenBuffer := tokenBuffer + token;
      rawResponse := rawResponse + token;
      answerOnlyBuffer := answerOnlyBuffer + token;
      tokens := tokens + token;
    }

    /** Handles one element of the stream; an error stops the stream. */
    method Feed(f: Frame) returns (err: Option<string>)
      requires Valid()
      modifies this
      ensures Valid()
      ensures err == FrameError(variant, answerOnly, f)
      ensures err.None? ==> tokens == old(tokens) + FrameToken(variant, f)
      ensures err.None? ==> retrievedFilePaths == old(retrievedFilePaths) + FramePaths(variant, answerOnly, f)
      ensures err.None? ==> updated == old(updated) + FrameUpdates(variant, answerOnly, f)
      ensures err.None? ==> NewFilesAfter(old(newFiles), FrameNewFiles(variant, answerOnly, f), newFiles)
      ensures err.None? && !answerOnly ==> display == Shown(header, tokens)
    {
      if f.Undecodable? {
        return Some(DecodeFailed + f.reason);
      }
      var c := f.chunk;
      if IsEditStart(variant, c) {
        if !answerOnly {
          DisplayIsShown(header, tokens, blocks, tokenBuffer, display);
        }
        return None;
      }
      if c.error.Some? {
        return Some(ApiError + c.error.value);
      }
      if c.token.Some? {
        if answerOnly {
          AddTokenQuietly(c.token.value);
          return None;
        }
        AddToken(c.token.value);
      } else if !answerOnly {
        DisplayIsShown(header, tokens, blocks, tokenBuffer, display);
      }
      err := TakeFields(c);
    }

    /** The paths, file updates and new files of a chunk that is neither an event nor an error. */
    method TakeFields(c: Chunk) returns (err: Option<string>)
      requires OlderValid()
      requires !IsEditStart(variant, c) && c.error.None? && !(answerOnly && c.token.Some?)
      modifies this`retrievedFilePaths, this`updated, this`newFiles
      ensures OlderValid()
      ensures err == FrameError(variant, answerOnly, Decoded(c))
      ensures err.None? ==> retrievedFilePaths == old(retrievedFilePaths) + FramePaths(variant, answerOnly, Decoded(c))
      ensures err.None? ==> updated == old(updated) + FrameUpdates(variant, answerOnly, Decoded(c))
      ensures err.None? ==> NewFilesAfter(old(newFiles), FrameNewFiles(variant, answerOnly, Decoded(c)), newFiles)
    {
      match c.retrievedFilePaths {
        case Invalid(reason) => return Some(PathsFailed + reason);
        case Valid(paths) =>
          assert FramePaths(variant, answerOnly, Decoded(c)) == paths;
          retrievedFilePaths := retrievedFilePaths + paths;
        case Absent =>
      }
      if variant == Current {
        match c.updatedFileContents {
          case Invalid(reason) => return Some(UpdatesFailed + reason);
          case Valid(m) =>
            assert FrameUpdates(variant, answerOnly, Decoded(c)) == m;
            updated := updated + m;
          case Absent =>
            assert FrameUpdates(variant, answerOnly, Decoded(c)) == map[];
            assert updated + map[] == updated;
        }
        if c.newFiles.Valid? {
          var nf := FillNewFilePaths(c.newFiles.value);
          newFiles := Some(nf);
        }
      }
      err := None;
    }

    /** The state after the first i frames, none of which failed. */
    ghost predicate Consumed(frames: seq<Frame>, i: nat)
      requires i <= |frames|
      reads this
    {
      && Valid()
      && NoFrameError(variant, answerOnly, frames[..i])
      && tokens == StreamTokens(variant, frames[..i])
      && retrievedFilePaths == StreamPaths(variant, answerOnly, frames[..i])
      && updated == StreamUpdates(variant, answerOnly, frames[..i])
      && FilledNewFiles(StreamNewFiles(variant, answerOnly, frames[..i]), newFiles)
      && (!answerOnly ==> display == Shown(header, tokens))
    }

    /** Feeds the next frame: it fails with its own error, or the stream has consumed one more frame. */
    method FeedNext(frames: seq<Frame>, i: nat) returns (err: Option<string>)
      requires i < |frames| && Consumed(frames, i)
      modifies this
      ensures Valid()
      ensures err == FrameError(variant, answerOnly, frames[i])
      ensures err.None? ==> Consumed(frames, i + 1)
    {
      StreamSnoc(variant, answerOnly, frames, i);
      err := Feed(frames[i]);
    }

    /** The chunk loop: feeds the frames in order and stops at the first error, the k-th frame. */
    method Consume(frames: seq<Frame>) returns (err: Option<string>, k: nat)
      requires Valid() && tokens == [] && retrievedFilePaths == [] && updated == map[] && newFiles.None?
      modifies this
      ensures Valid()
      ensures err.None? <==> NoFrameError(variant, answerOnly, frames)
      ensures err.Some? ==>
                k < |frames| && NoFrameError(variant, answerOnly, frames[..k])
                && FrameError(variant, answerOnly, frames[k]) == err
      ensures err.None? ==> tokens == StreamTokens(variant, frames)
      ensures err.None? ==> retrievedFilePaths == StreamPaths(variant, answerOnly, frames)
      ensures err.None? ==> updated == StreamUpdates(variant, answerOnly, frames)
      ensures err.None? ==> FilledNewFiles(StreamNewFiles(variant, answerOnly, frames), newFiles)
      ensures err.None? ==> display == if answerOnly then [] else Shown(header, tokens)
    {
      if !answerOnly {
        DisplayIsShown(header, tokens, blocks, tokenBuffer, display);
      }
      var i := 0;
      while i < |frames|
        invariant 0 <= i <= |frames|
        // Compared with true so that the invariant is carried as one fact rather
        // than unfolded into the many conjuncts of Consumed and Valid.
        invariant Consumed(frames, i) == true
      {
        err := FeedNext(frames, i);
        if err.Some? {
          return err, i;
        }
        i := i + 1;
      }
      assert frames[..|frames|] == frames;
      return None, 0;
    }

    /** After the stream: the rest of the buffer, then the paths trailer. */
    method Finish() returns (result: StreamResult)
      requires Valid()
      modifies this`completeResponse, this`rawResponse, this`display, this`answerOnlyBuffer
      ensures result.rawResponse == header + tokens + Trailer(retrievedFilePaths)
      ensures result.retrievedFilePaths == retrievedFilePaths
      ensures result.updateContentResponse == updated && result.newFiles == newFiles
      ensures result.llmModelResponse == Answer(answerOnly, header, tokens, retrievedFilePaths)
      ensures display == Display(answerOnly, header, tokens, retrievedFilePaths)
      ensures !answerOnly ==> result.llmModelResponse == Concat(display)
    {
      assert rawResponse == header + tokens;
      if answerOnly {
        FinishQuietly();
      } else {
        CutIsSplit(tokens, blocks, tokenBuffer);
        FinishRendered();
      }
      result := StreamResult(completeResponse, rawResponse, retrievedFilePaths, updated, newFiles);
    }

    /** Answer-only mode prints the whole answer once, at the end. */
    method FinishQuietly()
      requires answerOnly && blocks == [] && display == [] && completeResponse == header
      requires answerOnlyBuffer == header + tokens && rawResponse == header + tokens
      requires tokens == BlocksText(blocks) + tokenBuffer
      modifies this`completeResponse, this`rawResponse, this`display, this`answerOnlyBuffer
      ensures rawResponse == header + tokens + Trailer(retrievedFilePaths)
      ensures completeResponse == header + (if tokens == [] then "" else CleanBlock(tokens)) + Trailer(retrievedFilePaths)
      ensures display == [header + tokens + Trailer(retrievedFilePaths) + "\n"]
    {
      assert tokenBuffer == tokens;
      var trailer := Trailer(retrievedFilePaths);
      var rest := if tokenBuffer == [] then "" else CleanBlock(tokenBuffer);
      completeResponse := completeResponse + rest + trailer;
      rawResponse := rawResponse + trailer;
      answerOnlyBuffer := answerOnlyBuffer + trailer;
      display := [answerOnlyBuffer + "\n"];
    }

    /** The rest of the buffer is shown as a last block, then the trailer. */
    method FinishRendered()
      requires !answerOnly && completeResponse == Concat(display) && rawResponse == header + tokens
      modifies this`completeResponse, this`rawResponse, this`display
      ensures rawResponse == header + tokens + Trailer(retrievedFilePaths)
      ensures completeResponse == Concat(display)
      ensures display == old(display) + (if tokenBuffer == [] then [] else [CleanBlock(tokenBuffer)])
                          + (if retrievedFilePaths == [] then [] else [Trailer(retrievedFilePaths)])
    {
      if tokenBuffer != [] {
        var text := CleanBlock(tokenBuffer);
        ConcatSnoc(display, text);
        display := display + [text];
        completeResponse := completeResponse + text;
      }
      if retrievedFilePaths != [] {
        var trailer := Trailer(retrievedFilePaths);
        ConcatSnoc(display, trailer);
        completeResponse := completeResponse + trailer;
        rawResponse := rawResponse + trailer;
        display := display + [trailer];
      } else {
        assert rawResponse + Trailer(retrievedFilePaths) == rawResponse;
      }
    }
  }

  /** Suggested new files without a path list get the content's paths, in map order. */
  method FillNewFilePaths(nf: NewFilesData) returns (r: NewFilesData)
    ensures Filled(nf, r)
  {
    if nf.newFilePaths != [] || |nf.newContent| == 0 {
      return nf;
    }
    var paths: seq<string> := [];
    var remaining := nf.newContent.Keys;
    while remaining != {}
      invariant remaining <= nf.newContent.Keys
      invariant forall p :: p in paths <==> p in nf.newContent && p !in remaining
      invariant |paths| + |remaining| == |nf.newContent|
      invariant forall i, j :: 0 <= i < j < |paths| ==> paths[i] != paths[j]
      decreases |remaining|
    {
      var p :| p in remaining;
      paths := paths + [p];
      remaining := remaining - {p};
    }
    r := nf.(newFilePaths := paths);
  }
}
