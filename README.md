# machtiani, modelled in Dafny

machtiani is a code-aware chat assistant for git repositories. A Python server
(FastAPI) takes a prompt and picks candidate files of the repository by their
summaries, asks a language model which of them matter, and sends a combined
prompt with their contents to the model under a token limit. Two Go command-line
clients talk to it: `mct`, the current one, and `machtiani`, the older one. A
client reads layered configuration and ignore files and validates its flags. It
syncs the repository and waits for the server to confirm, streams the answer
chunk by chunk, and saves it as markdown. In the default mode it also writes the
patches and new files the model proposed. Also in the model are a still older
single-file client (`main.go`) and a maintenance script that lists the binary
and auto-generated files of a tree.

This project models the deterministic core of all of this and proves what it
promises. There is one module per part of the system:

| module | models |
|---|---|
| `Common` | `Option`/`Result`, the client `Variant` (current `mct` or older `machtiani`), and the Go and Python string primitives the rest is written in (`TrimSpace`/`strip`, `Split`, `Fields`, `HasPrefix`, ...) |
| `FileDedup` | `aggregate_file_paths` and `remove_duplicate_file_paths` (`app/utils.py`) |
| `ResponseService` | the server's `generate_response` flow |
| `LegacyServer` | the earlier `generate_response` in the server's entry module |
| `FilenameService` | the filename prompt and the tag and fallback extraction of the filename |
| `StreamConsumer` | the chunk loop of both clients' `GenerateResponse`, as the class `ResponseStream` |
| `ApiClient` | `extractRepoName`, `GenerateResponse` (the chunk loop, then new-file writing), patch and new-file writing, and the head-OID comparison of `GetInstallInfo` |
| `Config` | the `Config` record and its layered loading (class `Config`), the older local-or-home loading, and `ReadIgnoreFile` |
| `Flags` | the flag validators, the check for a flag name written without its dashes, and answer-only detection |
| `NumberFormat` | `FormatIntWithCommas` |
| `GitValidation` | the `ls-remote` parsing and the branch visit order of `ValidateHeadCommitExistsOnRemote` |
| `GitUtils` | project name, remote URL, current branch and HEAD hash from git output |
| `Sync` | the confirmation poll loop and the `handleSync` branching of both clients |
| `PromptCli` | the older client's prompt command |
| `LegacyCli` | `main.go`: the argument partition, the validated choices, and the markdown it saves |
| `FileScanner` | `scripts/binary_and_generated_file_parser.py` |

The model has no I/O. Every network, language-model, git, environment and
file-system result is a parameter of the operation that uses it. Go's map
iteration order is arbitrary, so loops over maps pick each next key with `:|`,
and their results are stated for every order. Whitespace means the six ASCII
characters that Go's `TrimSpace`, Python's `strip` and the regular-expression
class `\s` agree on. Code that the two clients share is modelled once, and a
`Variant` parameter selects where they differ: answer-only mode, the set of
valid modes, and the `ErrorLogs` check of the poll loop.

Regular expressions are modelled as hand-written scanners. Each scanner is
proved to return the match the regular-expression engine returns. Loops in the
source are methods with loop invariants, proved against specification
functions. Objects the source updates in place are classes: the stream state is
`ResponseStream` and the configuration is `Config`.

`generate_response` in `app/main.py` also makes the infer-file request in
pure-chat mode and ignores its result. How the service module's calls into
`app/utils.py` are read is under "Left out".

## Model

| member | source | states |
|---|---|---|
| FileDedup.AggregateFilePaths | app/utils.py:52-56 | the extend loop returns every response's entries, response by response, and as many entries as the responses hold together |
| FileDedup.AggregateLength | app/utils.py:52-56 | the aggregated list is exactly as long as the sum of the responses' list lengths |
| FileDedup.AggregateInResponseOrder | app/utils.py:54-55 | the entries of response k follow, unchanged, those of the responses before it, and form a prefix of the whole result |
| FileDedup.RemoveDuplicateFilePaths | app/utils.py:58-63 | the dict-filling loop returns the input's entries with no two sharing a path, covering exactly the input's set of paths, in first-insertion order |
| FileDedup.Dedup | app/utils.py:58-63 | the reference definition: keep an entry when no earlier kept entry has its path; the Dedup rows state its properties |
| FileDedup.DedupDistinct | app/utils.py:58-63 | no two entries of the result share a path |
| FileDedup.DedupSamePaths | app/utils.py:58-63 | every input path is kept and no other path appears |
| FileDedup.DedupIsFirstOccurrences | app/utils.py:60-63 | the result is the input restricted to the first entry of each path, in input order: a later entry with a known path is dropped even when its other fields differ |
| FileDedup.FirstOccurrenceIsNewPath | app/utils.py:61 | an entry is the first of its path exactly when its path is not among the entries before it |
| FileDedup.KeptEntryIsFirst | app/utils.py:61-62 | each kept entry is the first input entry with that path |
| FileDedup.DedupOfDistinct | app/utils.py:58-63 | a list without repeated paths comes back unchanged |
| FileDedup.DedupIdempotent | app/utils.py:58-63 | removing duplicates twice gives the same list as once |
| FileDedup.DedupNoLonger | app/utils.py:58-63 | the result is never longer than the input |
| FileDedup.DedupExample | app/utils.py:58-63 | [a, b, a', c], where a' has a's path, becomes [a, b, c] |
| FilenameService.FilenamePrompt | app/services/generate_filename_service.py:6-12 | the prompt starts with the instruction and the single-quoted context and ends with the `<filename>example_filename</filename>` example |
| FilenameService.IndexFromCI | app/services/generate_filename_service.py:16 | the case-insensitive search returns an occurrence at or after the start, with none before it, or none when there is none |
| FilenameService.IndexFromCIFirst | app/services/generate_filename_service.py:16 | the case-insensitive search returns exactly the first occurrence from its start |
| FilenameService.TagSearch | app/services/generate_filename_service.py:16 | a found tag pair has its closing tag after the opening tag, inside the reply |
| FilenameService.TagSearchSound | app/services/generate_filename_service.py:16 | what the tag scanner returns is a match of `<filename>\s*(.*?)\s*</filename>` (DOTALL, IGNORECASE), with case folded as re.IGNORECASE folds the tag characters: ASCII capitals, and 'İ' and 'ı' matching 'i' |
| FilenameService.TagSearchIsLeftmostShortest | app/services/generate_filename_service.py:16 | the tag scanner finds a match exactly when one exists under that case folding, and then the leftmost start with the shortest lazy match, as re.search does |
| FilenameService.NewlineInTrimmed | app/services/generate_filename_service.py:18 | a trimmed candidate holds a line break exactly when a line break lies between two non-space characters |
| FilenameService.NewlineInsideWidens | app/services/generate_filename_service.py:18 | widening a candidate match keeps a line break already inside it |
| FilenameService.AngleFrom | app/services/generate_filename_service.py:18 | a found `< ... >` lies at or after the start, with '>' after '<' |
| FilenameService.AngleSearch | app/services/generate_filename_service.py:18 | a found `< ... >` lies inside the reply with '>' after '<' |
| FilenameService.AngleAtFirstClose | app/services/generate_filename_service.py:18 | at a given '<', a match exists exactly when the first '>' after it ends one, and that is the shortest |
| FilenameService.AngleFromSound | app/services/generate_filename_service.py:18 | what the fallback scanner returns is a match of `<\s*(.*?)\s*>` without DOTALL |
| FilenameService.AngleFromLeast | app/services/generate_filename_service.py:18 | every fallback match at or after the start is found or lies after the one found |
| FilenameService.AngleSearchIsLeftmostShortest | app/services/generate_filename_service.py:18 | the fallback scanner finds a match exactly when one exists, and then the leftmost, shortest one |
| FilenameService.ExtractFilename | app/services/generate_filename_service.py:16-23 | a found name is already trimmed; a failure is HTTP 400 with "Invalid response format from OpenAI API." |
| FilenameService.NameOf | app/services/generate_filename_service.py:20-21 | the captured group, stripped, is returned as the filename |
| FilenameService.ExtractFilenameFails | app/services/generate_filename_service.py:17-23 | HTTP 400 is raised exactly when neither regular expression matches anywhere in the reply |
| FilenameService.ExtractFilenamePrefersTag | app/services/generate_filename_service.py:16-21 | whenever a tag pair exists, the name is the stripped text of the leftmost, shortest tag match |
| FilenameService.ExtractFilenameFallback | app/services/generate_filename_service.py:17-21 | without a tag pair, the name is the stripped text of the leftmost, shortest angle-bracket match |
| FilenameService.ExtractFilenameFallbackSingleLine | app/services/generate_filename_service.py:18 | a name found without a tag pair holds no line break |
| FilenameService.FallbackMatch | app/services/generate_filename_service.py:17-21 | without a tag pair, a found name is the stripped text between the brackets the fallback scanner found |
| FilenameService.TrimTwice | app/services/generate_filename_service.py:20 | stripping a stripped name changes nothing |
| FilenameService.GenerateFilename | app/main.py:70-95 | the request goes to gpt-4o-mini with the caller's key and a prompt that opens with the instruction and the context and ends with the tagged example; the outcome is HTTP 400 "Invalid response format from OpenAI API." exactly when neither the tag pattern nor the angle pattern matches; a tag match wins and gives the stripped text of the leftmost, shortest tag match; otherwise the leftmost, shortest angle match gives the name; every name is already stripped. It also models app/services/generate_filename_service.py:5-23, which builds the same prompt and extracts the name the same way |
| FilenameService.ExtractFromOnlyAngle | app/services/generate_filename_service.py:17-21 | with no tag pair and a single angle-bracket match, the name is that match's stripped text |
| FilenameService.OccursAtCIHead | app/services/generate_filename_service.py:16 | a case-insensitive occurrence starts with a character that folds to the pattern's first |
| FilenameService.FoldChar | app/services/generate_filename_service.py:16 | the fold changes only ASCII capitals and the dotted and dotless 'i' (U+0130, U+0131); every other character is kept |
| FilenameService.Fold | app/services/generate_filename_service.py:16 | the fold keeps the length and folds character by character |
| FilenameService.BracketedWord | app/services/generate_filename_service.py:16-21 | a reply that is one word in angle brackets yields that word; a lone `<filename>` yields `filename` |
| FilenameService.NoTagAfterFirst | app/services/generate_filename_service.py:16 | without a '<' past the first character there is no tag pair |
| FilenameService.TaggedReply | app/services/generate_filename_service.py:11-21 | a reply shaped like the prompt's example yields the stripped text between the tags |
| FilenameService.SpelledTagReply | app/services/generate_filename_service.py:16-21 | the same holds for any spelling of the tags that folds to them, such as `<FILENAME>` |
| FilenameService.DotlessTagFound | app/services/generate_filename_service.py:16-21 | tags written with a dotless 'ı' still form the tag pair: `<fılename>x</fılename>` yields `x`, not the fallback's `fılename` |
| FilenameService.TaggedReplySearch | app/services/generate_filename_service.py:16 | on a reply made of tags that fold to `<filename>` and `</filename>` around a word without '<', the tag scanner finds the tags at the start and before the closing tag |
| FilenameService.TagsLowerCase | app/services/generate_filename_service.py:16 | both tags are their own case fold, so the search compares against them as written |
| FilenameService.NoBracketsRejected | app/services/generate_filename_service.py:17-23 | a reply without any '<' is rejected with HTTP 400 |
| ResponseService.ValidationError | app/services/generate_response_service.py:51-55 | the request is valid exactly when the model has a token limit and the match strength is high, mid or low; an unknown model is reported first, then an unknown strength |
| ResponseService.WithoutIgnored | app/services/generate_response_service.py:93 | the kept entries are input entries whose path is not ignored, and every such entry is kept |
| ResponseService.WithoutIgnoredDistinct | app/services/generate_response_service.py:92-93 | the ignore filter keeps the paths distinct |
| ResponseService.CandidatesProperties | app/services/generate_response_service.py:89-93 | after aggregation, de-duplication and the ignore filter no candidate is ignored, no two share a path, and every retrieved path that is not ignored is a candidate |
| ResponseService.DictSet | app/services/generate_response_service.py:115 | assigning a key adds it to the dict's keys, keeps the keys distinct and adds at most one entry |
| ResponseService.FillSummaries | app/services/generate_response_service.py:101-115 | the summary loop builds the dict of the summary records |
| ResponseService.DictSetLookup | app/services/generate_response_service.py:115 | after the assignment the key maps to the new summary and every other key is unchanged |
| ResponseService.SummaryDictLookup | app/services/generate_response_service.py:113-115 | every path maps to the summary of its last record, and paths without records are absent |
| ResponseService.SummaryDictKeys | app/services/generate_response_service.py:112-126 | the dict holds each recorded path exactly once and is empty exactly when there are no records (the emptiness test that follows relies on that) |
| ResponseService.SummaryPrompt | app/services/generate_response_service.py:128-134 | the reference definition: the summaries as JSON between the fixed instructions and the user's prompt |
| ResponseService.DashSearch | app/services/generate_response_service.py:138 | a found `---` pair has its second marker after the first, inside the reply |
| ResponseService.DashSearchIsLeftmostShortest | app/services/generate_response_service.py:138 | the `---` scanner finds a match of `---\s*(.*?)\s*---` (DOTALL) exactly when one exists, and then the leftmost, shortest one |
| ResponseService.FirstBoundary | app/services/generate_response_service.py:142 | the first line boundary at or after a position, or none |
| ResponseService.SplitLines | app/services/generate_response_service.py:142 | no line of str.splitlines holds a line boundary |
| ResponseService.LStripChar | app/services/generate_response_service.py:142 | lstrip("/") removes exactly the leading run of slashes |
| ResponseService.RunEnd | app/services/generate_response_service.py:142 | the end of the run of one character from a position |
| ResponseService.CleanLine | app/services/generate_response_service.py:142 | a cleaned path line is trimmed |
| ResponseService.CleanPathLines | app/services/generate_response_service.py:142 | there are never more paths than lines |
| ResponseService.CleanPathLinesTrimmed | app/services/generate_response_service.py:142 | every extracted path is trimmed |
| ResponseService.CleanPathLinesPerLine | app/services/generate_response_service.py:142 | there is one path per non-blank line, in order, each the line with its leading slashes removed and then stripped |
| ResponseService.IndentedSlashKept | app/services/generate_response_service.py:142 | an indented path keeps its leading '/', because lstrip("/") runs before strip() |
| ResponseService.UnindentedSlashDropped | app/services/generate_response_service.py:142 | the same path without indentation loses its leading slashes |
| ResponseService.CleanSingleLine | app/services/generate_response_service.py:142 | a single non-blank line yields its cleaned form |
| ResponseService.SlashOnlyLineIsEmptyPath | app/services/generate_response_service.py:142 | a line made only of slashes yields the empty path, which is kept |
| ResponseService.RelevantEntries | app/services/generate_response_service.py:151-153 | the kept entries are the candidates the model named, and every named candidate is kept |
| ResponseService.RelevantEntriesSubsequence | app/services/generate_response_service.py:151-153 | the kept entries keep the candidates' relative order |
| ResponseService.BuildCombinedPrompt | app/services/generate_response_service.py:172-174 | the `+=` loop gives the prompt, the files header and one `--- path ---` section per content entry in dict order |
| ResponseService.CombinedPrompt | app/services/generate_response_service.py:172-174 | the reference definition the `+=` loop is proved against: the prompt, the files header and one section per entry |
| ResponseService.SectionsAppend | app/services/generate_response_service.py:173-174 | the sections of consecutive content lists concatenate |
| ResponseService.TokenCheck | app/services/generate_response_service.py:176-187 | the limit check fails exactly when the count exceeds the model's limit (strictly), with the limit-and-count message |
| ResponseService.HttpErrorOutcome | app/services/generate_response_service.py:193-198 | a transport failure becomes the connection error and an error status the error-response message with the status body, each opening with the service name it is given; it also models app/main.py:188-193, whose messages name this revision's service |
| ResponseService.RetrieveCandidates | app/services/generate_response_service.py:79-99 | exactly one infer-file call; a failed call stops with its HTTP error; an empty candidate list stops with "no files found"; otherwise the candidates go on |
| ResponseService.SelectionProperties | app/services/generate_response_service.py:138-157 | a selection that goes on is a non-empty subsequence of the candidates, all named by the model; a stop is an error |
| ResponseService.Selection | app/services/generate_response_service.py:138-157 | the reference definition: a reply without `---` markers is the format error, a block naming no path the no-relevant-paths error, paths naming no candidate the no-relevant-entries error, otherwise the named candidates go on; `SelectionProperties` states it |
| ResponseService.SelectRelevant | app/services/generate_response_service.py:101-157 | the summary request comes first; a 404 or an empty summary list stops with "No relevant file summaries found."; any other failure stops with its HTTP error; otherwise the model gets the summary prompt, a model that raises stops with "An unexpected error occurred: " and its message, and a reply decides the selection; no content request is made |
| ResponseService.ContentRequestsSafeAppend | app/services/generate_response_service.py:159-166 | safe content requests stay safe when call lists are joined |
| ResponseService.ContentRequestsSelectedAppend | app/services/generate_response_service.py:138-166 | content requests that ask for the model's selection keep doing so when call lists are joined |
| ResponseService.RetrieveContext | app/services/generate_response_service.py:79-174 | starts with the infer-file call; stops with "no files found" exactly when no candidate is left; a model that raises on the summary prompt stops with the unexpected-error message after three calls; every content request is non-empty, holds no ignored path and asks for exactly the model's selection; a result that goes on follows the content request and is the combined prompt of the retrieved contents and their paths |
| ResponseService.SelectAndFetch | app/services/generate_response_service.py:101-174 | after a non-empty candidate list: summary failures stop as in `SelectRelevant`, a model that raises stops after two calls, and a result that goes on follows exactly one content request, for the model's selection, and is the combined prompt of what came back |
| ResponseService.FetchContents | app/services/generate_response_service.py:159-174 | exactly one content request, carrying the selection; a failed reply stops with its HTTP error; otherwise the combined prompt of the contents and the retrieved paths go on |
| ResponseService.Generate | app/services/generate_response_service.py:176-201 | an answer exactly when the count succeeds, is at most the model's limit and the model replies, and then it is the reply with the paths; a raising counter or model gives "An unexpected error occurred: " and the message; a count over the limit gives the limit-and-count message |
| ResponseService.Finish | app/services/generate_response_service.py:176-190 | the count, the check and the model call give the outcome `Generate` describes, and the model is called exactly when the count is within the limit |
| ResponseService.Augmented | app/services/generate_response_service.py:79-190 | outside pure chat: the infer-file call first; "no files found" exactly when no candidate is left; summary and model failures stop as in `RetrieveContext`; once the contents are in, the fourth call asked for the model's selection and the outcome is `Generate` on the combined prompt; an answer ends the five calls with the combined prompt, within the limit |
| ResponseService.GenerateResponse | app/services/generate_response_service.py:40-201 | validation before any request; nothing after the pull-access gate unless pull_access is true; pure chat is `Generate` on the prompt as it is, with no paths; "no files found" exactly when no candidate is left; a 404 summary lookup ends in the no-summaries error; a model that raises on the summary prompt ends in the unexpected-error message before any content request; content requests are non-empty, never ignored and ask for exactly the model's selection; once the contents are in, the outcome is `Generate` on the combined prompt; an answer is the model's reply to the last call, whose prompt is within the limit, and outside pure chat it follows the content request for the selection and sends the combined prompt |
| LegacyServer.UniversalNewlines | app/main.py:131-132 | reading in text mode leaves no carriage return and never lengthens the text |
| LegacyServer.IgnoreListLines | app/main.py:129-134 | the ignore list holds exactly the stripped text of the file's non-blank lines, none of them empty or with surrounding whitespace |
| LegacyServer.IgnoreList | app/main.py:129-134 | the reference definition: no file ignores nothing, otherwise the stripped non-blank lines; `IgnoreListLines` states it |
| LegacyServer.HashLineIsIgnored | app/main.py:131-132 | a line starting with '#' is ignored as a path like any other: the file has no comment syntax |
| LegacyServer.UniversalNewlinesKeeps | app/main.py:131-132 | text without carriage returns passes through the newline translation unchanged |
| LegacyServer.GenerateResponse | app/main.py:97-196 | validation before any request; the infer-file request is always first, in pure chat too, where its result is discarded and the outcome is `Generate` on the prompt; "no files found" exactly when no candidate is left; the content request carries exactly the non-empty candidates; once the contents are in, the outcome is `Generate` on the combined prompt, so a raising counter or model gives the unexpected-error message; an answer follows a combined prompt within the limit |
| StreamConsumer.LeadsWithUserHeading | mct/internal/api/api.go:472 | the model's whitespace-skipping test for a leading "# User" heading agrees with the client's trimmed-prefix test |
| StreamConsumer.HeaderFrame | mct/internal/api/api.go:465-478 | answer-only mode uses the prompt itself as the header; otherwise the header ends with the Assistant heading and keeps the prompt whole, adding a User heading only when the prompt lacks one |
| StreamConsumer.HeaderOpensWithUser | machtiani/internal/api/api.go:392-400 | outside answer-only mode the trimmed header always opens with "# User" |
| StreamConsumer.Header | mct/internal/api/api.go:465-478 | the reference header; `HeaderFrame` and `HeaderOpensWithUser` state it |
| StreamConsumer.IsFenceTrimmed | mct/internal/api/api.go:552-554 | a line counts as a code fence exactly when its trimmed text starts with three backticks |
| StreamConsumer.TrimLineEnds | mct/internal/api/api.go:589 | the result is a prefix of the block, ends in neither "\r" nor "\n", and only those characters were cut |
| StreamConsumer.UnixLineEnds | mct/internal/api/api.go:591 | replacing "\r\n" by "\n" never lengthens the text |
| StreamConsumer.CleanBlock | mct/internal/api/api.go:589-591 | a block as rendered: line ends trimmed, then "\r\n" turned into "\n"; `TrimLineEnds` and `UnixLineEnds` state the two steps |
| StreamConsumer.FirstBlock | mct/internal/api/api.go:541-548 | the buffer splits at its first blank line into a block without a blank line, the separator and the rest; with no blank line the whole buffer is pending |
| StreamConsumer.FenceParitySnoc | mct/internal/api/api.go:551-564 | toggling the flag once per fence line keeps it equal to the parity of all fence lines seen so far |
| StreamConsumer.ToggleOnFences | mct/internal/api/api.go:551-564 | the loop over a block's lines flips the flag exactly the block's number of fence lines times |
| StreamConsumer.PathLinesLength | mct/internal/api/api.go:699-703 | the trailer holds one "- path" line per retrieved path and nothing else |
| StreamConsumer.Trailer | mct/internal/api/api.go:699-703 | the reference trailer: the retrieved-paths heading and one line per path, or nothing without paths |
| StreamConsumer.StreamPathsAppend | mct/internal/api/api.go:616-627 | retrieved paths are appended in arrival order, never reordered or dropped |
| StreamConsumer.StreamUpdatesLastWins | mct/internal/api/api.go:633-647 | a path is in the updates exactly when some chunk updated it, and it holds the value of the last such chunk |
| StreamConsumer.FrameError | mct/internal/api/api.go:503-641 | the reference error of one frame: an undecodable frame, an error field outside the file-edit event, or paths or (in the current client) updates that cannot be decoded; `Consume` is proved to stop at the first such frame |
| StreamConsumer.SplitBlocks | mct/internal/api/api.go:540-548 | the reference cut of a text into completed blocks, each at the first blank line of what is left; `SplitBlocksAppend` and `SplitBlocksJoin` state it |
| StreamConsumer.SplitBlocksAppend | mct/internal/api/api.go:528-548 | cutting as the tokens arrive gives the cut of the whole text: the blocks of the first part, then those of its pending rest followed by the new text |
| StreamConsumer.SplitBlocksJoin | mct/internal/api/api.go:540-548 | cutting loses nothing: the blocks, each with its blank line, then the rest, give back the text; no block and not the rest holds a blank line |
| StreamConsumer.CutIsSplit | mct/internal/api/api.go:540-548 | blocks each free of blank lines, joined with blank lines and followed by a rest without one, are exactly what the client cuts from their text |
| StreamConsumer.RenderBlocks | mct/internal/api/api.go:550-605 | the reference rendering of the completed blocks in order, the fence flag being the parity of their fence lines; `RenderHeldInFence` and `RenderWithoutFences` state it |
| StreamConsumer.RenderHeldInFence | mct/internal/api/api.go:550-585 | blocks are held back exactly while a code fence is open |
| StreamConsumer.RenderWithoutFences | mct/internal/api/api.go:587-603 | without fence lines every completed block is shown cleaned, one display piece per block, in order, and nothing is held |
| StreamConsumer.BlankLineShowsBlock | mct/internal/api/api.go:540-603 | a token that completes a block shows that block at once: "a\n\nb" displays the header and "a" |
| StreamConsumer.UnclosedFenceDropped | mct/internal/api/api.go:566-696 | text inside a code fence that never closes is held and never shown: the rendered answer for "```\nx\n\n" is the header alone |
| StreamConsumer.DisplayIsShown | mct/internal/api/api.go:528-605 | a display kept block by block over a cut of the tokens is `Shown` of the header and the tokens |
| StreamConsumer.RenderSnoc | mct/internal/api/api.go:550-605 | one more completed block: inside a fence the display stays and the held text grows by the block and its blank line; otherwise the held text empties and the display gains the held blocks with this one, or this one cleaned |
| StreamConsumer.StreamNewFilesLast | mct/internal/api/api.go:649-681 | the stream's new files are those of its last chunk carrying decodable ones, and none exactly when no chunk carries any |
| StreamConsumer.ResponseStream.constructor | mct/internal/api/api.go:448-492 | the stream starts empty, with the header shown outside answer-only mode and answer-only mode taken from the mode string |
| StreamConsumer.ResponseStream.ProcessBlock | mct/internal/api/api.go:550-605 | a completed block flips the fence flag per fence line; inside a fence it is held with its blank line, at a fence's end it is shown with the held blocks, otherwise it is shown cleaned |
| StreamConsumer.ResponseStream.AdvanceFences | mct/internal/api/api.go:551-564 | the fence flag stays the parity of the fence lines of all completed blocks |
| StreamConsumer.ResponseStream.Render | mct/internal/api/api.go:566-605 | the rendered answer is always the concatenation of the shown pieces; the held buffer is empty outside a fence |
| StreamConsumer.ResponseStream.TakeBlock | mct/internal/api/api.go:540-612 | taking a block out of the buffer leaves the tokens unchanged and the buffer holding exactly the rest |
| StreamConsumer.ResponseStream.Append | mct/internal/api/api.go:529-530 | a token is added to both the pending buffer and the raw answer |
| StreamConsumer.ResponseStream.AddToken | mct/internal/api/api.go:528-613 | a token extends the answer, completed blocks are never rewritten, and what is displayed is exactly `Shown` of the header and all tokens so far: the header, then every completed block rendered |
| StreamConsumer.ResponseStream.TakeBlocks | mct/internal/api/api.go:540-612 | the block loop takes every completed block out of the buffer, leaving no blank line in it, the tokens unchanged and the earlier blocks untouched |
| StreamConsumer.ResponseStream.AddTokenQuietly | mct/internal/api/api.go:531-535 | answer-only mode only accumulates tokens and renders nothing |
| StreamConsumer.ResponseStream.Feed | mct/internal/api/api.go:502-683 | one chunk: its error is `FrameError`; otherwise the chunk's token, paths and updates are added, its decodable new files replace the earlier ones with their path list filled in, and outside answer-only mode the display is `Shown` of all tokens so far |
| StreamConsumer.ResponseStream.TakeFields | mct/internal/api/api.go:616-683 | its error is `FrameError` of the chunk: paths, or in the current client updates, that cannot be decoded stop the stream; otherwise the paths are appended, the updates merged over the earlier ones, and decodable new files replace the earlier ones with their path list filled in; undecodable new files change nothing |
| StreamConsumer.ResponseStream.Consume | mct/internal/api/api.go:502-683 | the stream fails exactly when some chunk fails, at the first one, with its error; otherwise the tokens, paths, updates and new files are `StreamTokens`, `StreamPaths`, `StreamUpdates` and `StreamNewFiles` of all chunks, and the display is `Shown` of the tokens (nothing in answer-only mode) |
| StreamConsumer.ResponseStream.FeedNext | mct/internal/api/api.go:502-683 | feeding the next chunk fails with its own error, or leaves the stream having consumed one chunk more |
| StreamConsumer.ResponseStream.Finish | mct/internal/api/api.go:685-745 | after the stream: the raw answer is header, tokens and path trailer; the rendered answer is `Answer` and everything printed is `Display` of the header, tokens and paths; outside answer-only mode the rendered answer is the concatenation of what was printed |
| StreamConsumer.ResponseStream.FinishQuietly | mct/internal/api/api.go:685-722 | in answer-only mode the rendered answer is the header, the cleaned tokens and the trailer, and the whole raw answer is printed once, with a final newline |
| StreamConsumer.ResponseStream.FinishRendered | mct/internal/api/api.go:685-717 | the remaining buffer, when there is one, is shown cleaned as a last block, then the trailer when there are paths; the rendered answer stays the concatenation of the display; it also models machtiani/internal/api/api.go:530-558 |
| StreamConsumer.FillNewFilePaths | mct/internal/api/api.go:663-668 | suggested new files without a path list get each content path exactly once, content and errors unchanged, and a non-empty list or empty content is left alone |
| ApiClient.LastNonEmptySpec | mct/internal/api/api.go:30-38 | the backwards scan returns the last non-empty part, or the whole input when every part is empty |
| ApiClient.ExtractRepoName | mct/internal/api/api.go:30-38 | the reference definition: the last non-empty '/'-separated segment; its properties are the RepoName rows |
| ApiClient.RepoNameIsLastSegment | mct/internal/api/api.go:30-38 | a URL made only of slashes comes back unchanged; any other URL yields its last non-empty segment, which is non-empty and has no '/' |
| ApiClient.RepoNameOfBareName | mct/internal/api/api.go:30-38 | a name without '/' is its own repository name |
| ApiClient.RepoNameIgnoresTrailingSlash | mct/internal/api/api.go:30-38 | a trailing slash does not change the name |
| ApiClient.ReplaceChar | mct/internal/api/api.go:977-978 | each occurrence of the character is replaced and every other character kept, in place |
| ApiClient.PatchPathInPatchesDir | mct/internal/api/api.go:976-988 | the patch lands directly in .machtiani/patches, named after the file with '/' and ':' turned into '_' and ending in ".patch" |
| ApiClient.PatchPathsCanCollide | mct/internal/api/api.go:977-981 | two different files can get the same patch path within one timestamp |
| ApiClient.AnyReportedError | mct/internal/api/api.go:955-963 | a file is skipped exactly when one of its errors is non-blank |
| ApiClient.DecidePatch | mct/internal/api/api.go:955-981 | error files and blank contents are skipped; otherwise a patch is written at the sanitised path |
| ApiClient.WritePatchToFile | mct/internal/api/api.go:932-1010 | one patch per error-free, non-blank updated file, visiting each key once; an error exactly when such a file exists and the directory cannot be ensured, and then nothing was written; the directory outcome `dirError` is one input for the whole call, while the source calls `EnsureDirExists` once per patch (line 985) |
| ApiClient.WritePatches | mct/internal/api/api.go:954-1001 | the loop visits each updated file once and writes exactly the patches the files call for |
| ApiClient.PatchBufferGrows | mct/internal/api/api.go:1003-1007 | after at least one file the message buffer holds more than its leading newline, so it is printed |
| ApiClient.NewFileStep | mct/internal/api/api.go:1068-1102 | blank content and existing files are skipped and counted; check, directory and write errors are reported but not counted; otherwise the file is created |
| ApiClient.WriteNewFiles | mct/internal/api/api.go:1045-1107 | no data or no content gives the fixed message; otherwise every path is visited once and the report's summary counts match the files created and skipped |
| ApiClient.CreateNewFiles | mct/internal/api/api.go:1065-1105 | exactly the paths whose outcome is "created" are created, with their content |
| ApiClient.CreatedOnlyWhenMissing | mct/internal/api/api.go:1068-1101 | a created file had non-blank content and did not exist before: nothing is overwritten |
| ApiClient.OpeningError | mct/internal/api/api.go:384-445 | the reference error of each way the request can fail before the stream, with its message; a 422 reply is an error only in the current client |
| ApiClient.GenerateResponse | mct/internal/api/api.go:378-754 | an error before the stream (codehost URL, unset MACHTIANI_URL, request building, sending, a 422 reply in the current client) is returned as `OpeningError` with nothing shown or created; otherwise it fails exactly when some chunk fails, with the first failure's error; on success the raw answer is header, tokens and trailer, the paths come in order, the updates are last-wins, the rendered answer is `Answer` and what was printed is `Display`; the new files are the last decodable proposal with its paths filled in; after a stream that ended well the current client creates exactly the proposed new files whose outcome is a write (lines 740-743), with their content, and nothing otherwise; it also models machtiani/internal/api/api.go:323-565, where the older client is the same loop without the 422 check, answer-only mode, the file-edit event, updated contents or new files, so its results carry no updates and it creates nothing |
| ApiClient.InstallInfoSpec | mct/internal/api/api.go:870-930 | succeeds exactly when the config loads, the URL is set and a 200 reply decodes with both keys; compatible exactly when the returned head OID equals the CLI's |
| ApiClient.GetInstallInfo | mct/internal/api/api.go:870-930 | the reference definition of the check's result, error by error; `InstallInfoSpec` states it |
| Config.FieldsDetermine | mct/internal/utils/utils.go:93-108 | the twelve settings of the environment section determine the record |
| Config.Merge | mct/internal/utils/utils.go:129-171 | the reference definition of laying one record over another; the Merge rows state its properties |
| Config.MergeFieldwise | mct/internal/utils/utils.go:129-171 | a field is replaced exactly when the override's value is non-empty, otherwise it keeps the base value |
| Config.MergeEmpty | mct/internal/utils/utils.go:129-171 | an empty override changes nothing, and overriding an empty base gives the override |
| Config.MergeIdempotent | mct/internal/utils/utils.go:129-171 | applying the same override twice is applying it once |
| Config.MergeAssociative | mct/internal/utils/utils.go:129-171 | three layers give the same result in either grouping |
| Config.EnvLayer | mct/internal/utils/utils.go:173-219 | the reference definition of the environment layer; the EnvLayer rows state its properties |
| Config.FirstNonEmpty | mct/internal/utils/utils.go:594-602 | the result is empty exactly when every value is, and otherwise the first non-empty value |
| Config.FirstNonEmptyCons | mct/internal/utils/utils.go:594-602 | the first non-empty value of a list is its head unless that is empty |
| Config.EnvLayerFieldwise | mct/internal/utils/utils.go:173-219 | a set variable wins; an "Other" slot is cleared when its primary variable is set and its own is not; any other field keeps its value |
| Config.EnvLayerUnset | mct/internal/utils/utils.go:173-219 | with no variable set the environment layer changes nothing |
| Config.Config.constructor | mct/internal/utils/utils.go:226 | loading starts from the empty configuration |
| Config.Config.Override | mct/internal/utils/utils.go:131-171 | overriding in place leaves the merge of the old record and the override |
| Config.Config.LoadFromEnv | mct/internal/utils/utils.go:173-219 | applying the variables in place leaves the environment layer of the old record |
| Config.OtherSlotCleared | mct/internal/utils/utils.go:175-191 | the primary key or base URL from the environment clears its "Other" slot unless that slot's own variable is set, which then wins |
| Config.UnprefixedNameWins | mct/internal/utils/utils.go:175 | the MACHTIANI_-prefixed spelling is read only when the plain variable is unset |
| Config.LoadFromFile | mct/internal/utils/utils.go:112-127 | a missing file is "not found" and not an error; read and unmarshal failures are errors |
| Config.LoadConfig | mct/internal/utils/utils.go:225-270 | global file, then local file, then environment, then the default base URL; a missing home directory only skips the global file; a file error stops loading |
| Config.LayeredOwnSetting | mct/internal/utils/utils.go:220-224 | a field with its own variable takes the environment value, else the local file's, else the global file's |
| Config.LayeredBaseURL | mct/internal/utils/utils.go:258-262 | the base URL comes from the environment, else the local file, else the global file, else the OpenAI default |
| Config.LayeredOtherSlot | mct/internal/utils/utils.go:175-191 | an "Other" slot takes its own variable, else is cleared by its primary variable, else comes from the local or the global file |
| Config.BaseURLDefault | mct/internal/utils/utils.go:258-262 | the loaded base URL is never empty, and it is the default exactly when no layer sets another value |
| Config.NothingConfigured | mct/internal/utils/utils.go:225-270 | with no files and no variables only the default base URL is set |
| Config.LegacyLoadConfig | machtiani/internal/utils/utils.go:86-122 | the older client reads the local file, or the home file when the local one cannot be read, and reports every failure |
| Config.LegacyLoadConfigSpec | machtiani/internal/utils/utils.go:86-122 | a readable local file wins over home; only MODEL_API_KEY overrides the key; the base URL gets its default; every other field comes from the file |
| Config.IgnoreEntriesClean | mct/internal/utils/utils.go:306-316 | every ignore entry is trimmed, non-empty and not a '#' comment |
| Config.IgnoreEntriesAppend | mct/internal/utils/utils.go:305-317 | the entries keep the file's line order |
| Config.IgnoreEntriesMembers | mct/internal/utils/utils.go:305-317 | a path is ignored exactly when some line trims to it and is neither blank nor a comment |
| Config.ReadIgnoreFile | mct/internal/utils/utils.go:292-325 | a missing file gives no entries; open and scan errors are errors; otherwise the entries of the lines; it also models machtiani/internal/utils/utils.go:143-176, where the older client's reader is the same function |
| Flags.ModeAcceptedIsModes | mct/internal/utils/utils.go:360-363 | each client's chain of mode comparisons accepts exactly its set of modes |
| Flags.MatchStrengthChain | mct/internal/utils/utils.go:355-358 | the chain of match-strength comparisons rejects exactly what is outside {high, mid, low} |
| Flags.ValidateFlags | mct/internal/utils/utils.go:349-364 | no message exactly when the match strength is one of high, mid, low and the mode is one the client accepts; the match strength is checked first |
| Flags.AnswerOnlyOnlyCurrent | machtiani/internal/utils/utils.go:200-215 | the older client rejects answer-only mode, which the current one accepts; on every other mode they agree |
| Flags.ValidateAmplifyFlag | mct/internal/utils/utils.go:394-407 | accepts exactly off, low, mid and high, with the error naming the value otherwise; it also models machtiani/internal/utils/utils.go:244-257, where the older client's amplify check is the same |
| Flags.ValidateDepthFlag | mct/internal/utils/utils.go:410-416 | accepts exactly the depths of at least 1; it also models machtiani/internal/utils/utils.go:260-266, where the older client's depth check is the same |
| Flags.FlagExists | mct/internal/utils/utils.go:378-383 | the visit over the defined flags finds the argument exactly when it names one of them |
| Flags.ValidateArgFormat | mct/internal/utils/utils.go:367-391 | the first argument that names a defined flag without its dashes is reported with a "--" suggestion; otherwise the outcome of parsing is returned; it also models machtiani/internal/utils/utils.go:218-242, where the older client's check is the same |
| Flags.IsAnswerOnlyMode | mct/internal/utils/utils.go:546-557 | true exactly when some argument is "--mode" followed by "answer-only", or starts with "--mode=answer-only" |
| Flags.AnswerOnlySpellings | mct/internal/utils/utils.go:546-557 | the scan looks at spellings: "--mode=answer-only-x" counts, while "-mode answer-only" and a trailing "--mode" do not |
| NumberFormat.GroupedRemoveCommas | mct/internal/utils/utils.go:526-535 | removing the commas from grouped digits gives the digits back |
| NumberFormat.GroupedShape | mct/internal/utils/utils.go:526-535 | commas sit at every fourth place from the right: a first group of one to three digits, then groups of exactly three |
| NumberFormat.FormattedSpec | mct/internal/utils/utils.go:517-542 | without its commas the result is the decimal text of n; the digits are grouped by three; text of at most three characters is returned unchanged |
| NumberFormat.Formatted | mct/internal/utils/utils.go:517-542 | the reference result: sign, then the magnitude's digits grouped by three from the right; `FormattedSpec` states it |
| NumberFormat.GroupedExamples | mct/internal/utils/utils.go:517-542 | 1234567 is written 1,234,567, 123456 is 123,456, 999 is unchanged |
| NumberFormat.FormatIntWithCommas | mct/internal/utils/utils.go:517-542 | the loop computes the reference grouping, sign included; it also models machtiani/internal/utils/utils.go:372-396, where the older client's formatter is the same |
| GitValidation.IsCommitInBranch | mct/internal/git/git_validation.go:126-142 | exit status 0 means contained, 1 means not contained, and any other outcome is an error |
| GitValidation.IsPriorityBranch | mct/internal/git/git_validation.go:145-152 | the loop finds the branch exactly when it is on the priority list |
| GitValidation.PriorityBranches | mct/internal/git/git_validation.go:105-123 | the current branch when HEAD is not detached, then master and main; a failing detached test or branch lookup is an error |
| GitValidation.BranchRefsMembers | mct/internal/git/git_validation.go:31-40 | a reference is collected exactly when some listing line has at least two fields with it second |
| GitValidation.BranchRefs | mct/internal/git/git_validation.go:31-40 | the reference definition: the second field of each listing line that has two; `BranchRefsMembers` states it |
| GitValidation.NamesMembers | mct/internal/git/git_validation.go:37-38 | the remote branch names are the references with refs/heads/ removed |
| GitValidation.ParseRemoteBranches | mct/internal/git/git_validation.go:23-40 | the loop collects the references in listing order and the set of their branch names |
| GitValidation.PriorityVisitsMembers | mct/internal/git/git_validation.go:49-53 | a priority branch is tried exactly when it exists on the remote |
| GitValidation.OtherVisitsMembers | mct/internal/git/git_validation.go:74-81 | the remaining branches tried are exactly the listed names that are not priority branches |
| GitValidation.VisitOrderSpec | mct/internal/git/git_validation.go:48-99 | every remote branch is tried, nothing else is, and no priority branch is tried among the remaining ones |
| GitValidation.VisitOrder | mct/internal/git/git_validation.go:48-99 | the reference order: the priority branches that exist, then the other listed branches; `VisitOrderSpec` states it |
| GitValidation.MasterTriedTwice | mct/internal/git/git_validation.go:113-122 | when the current branch is master, master is fetched and checked twice in a row |
| GitValidation.TryBranch | mct/internal/git/git_validation.go:55-70 | a branch confirms the commit exactly when its fetch succeeds and merge-base reports status 0 |
| GitValidation.SearchedThen | mct/internal/git/git_validation.go:48-99 | a failed priority search followed by the remaining search is one search along the whole visit order |
| GitValidation.TryPriorityBranches | mct/internal/git/git_validation.go:49-71 | the priority loop fetches the existing priority branches in order and stops at the first that contains the commit |
| GitValidation.TryOtherBranches | mct/internal/git/git_validation.go:74-99 | the remaining loop fetches the other branches in listing order and stops at the first that contains the commit; fetch and check failures skip the branch |
| GitValidation.ValidateHeadCommitExistsOnRemote | mct/internal/git/git_validation.go:13-102 | listing and priority errors are reported before any fetch; success at the first branch of the visit order that contains the commit; otherwise "not found in any remote branch" after trying all |
| GitUtils.SplitLast | machtiani/internal/git/git_utils.go:64-65 | the last piece of a split is the longest separator-free suffix |
| GitUtils.LastPiece | machtiani/internal/git/git_utils.go:64-65 | the last piece holds no '/' and is the text after the last '/', or the whole text |
| GitUtils.LastPieceAfter | machtiani/internal/git/git_utils.go:64-65 | after a final separator the last piece is what follows it |
| GitUtils.ProjectName | machtiani/internal/git/git_utils.go:62-65 | the project name contains no '/' |
| GitUtils.GetProjectName | machtiani/internal/git/git_utils.go:53-68 | git's error is passed on unchanged; otherwise the name of the printed URL |
| GitUtils.ProjectNameOfRemote | machtiani/internal/git/git_utils.go:61-67 | a URL ending in "/name.git" names the project "name" |
| GitUtils.TrailingSlashEmptiesName | machtiani/internal/git/git_utils.go:64-65 | a URL with a trailing slash yields an empty project name |
| GitUtils.RemoteURL | machtiani/internal/git/git_utils.go:81-88 | the trimmed output of git, or its error wrapped with the remote's name |
| GitUtils.GetRemoteURL | machtiani/internal/git/git_utils.go:70-79 | an empty remote name is an error whatever git printed; otherwise git's failure is wrapped again and success is the trimmed URL |
| GitUtils.OriginNameNotHead | machtiani/internal/git/git_utils.go:111-113 | a branch taken from a line without HEAD is never named HEAD |
| GitUtils.FindOriginBranch | machtiani/internal/git/git_utils.go:108-115 | finds a branch exactly when some trimmed line starts with origin/ and does not mention HEAD, and returns the first such line without its prefix |
| GitUtils.GetBranch | machtiani/internal/git/git_utils.go:90-122 | the trimmed branch name unless it is HEAD; when detached, the first origin branch containing HEAD, or an error when there is none or git fails |
| GitUtils.GetHeadCommitHash | machtiani/internal/git/git_utils.go:125-145 | the trimmed, non-empty hash; empty output is an error, and a failure whose stderr says "not a git repository" is reported as exactly that |
| Sync.PollDecision | mct/internal/cli/sync.go:242-257 | a "does not exist" error ends the wait with failure and other errors are transient; error logs fail before the lock flag is looked at; success exactly when the lock is gone (and, for the current client, no logs); it also models machtiani/internal/cli/sync.go:187-197, where the older client has no error-log check: any answer without a lock file succeeds |
| Sync.WaitFromStep | mct/internal/cli/sync.go:241-264 | an answer that does not decide hands the wait to the next check |
| Sync.WaitFromSpec | mct/internal/cli/sync.go:241-266 | from any check on, the wait stops at the first deciding answer with its error, or times out at the last check |
| Sync.WaitSpec | mct/internal/cli/sync.go:237-267 | at most 1800 checks; the wait stops at the first answer that decides, with its error, and otherwise fails with the timeout after exactly 1800 checks; it also models machtiani/internal/cli/sync.go:182-207, where the older client's wait has the same bound and stopping rule |
| Sync.Wait | mct/internal/cli/sync.go:237-267 | the reference wait from the first check; `WaitSpec` states it |
| Sync.MissingRepositoryEndsWait | mct/internal/cli/sync.go:243-246 | a first answer saying the repository does not exist fails the wait after one check, in both clients |
| Sync.ErrorLogsOnlyCurrent | mct/internal/cli/sync.go:250-257 | error logs with the lock released fail the current client's wait and satisfy the older client's |
| Sync.ProgressMarks | mct/internal/cli/sync.go:260-263 | one progress line per ten waits, announcing 10, 20, 30 … seconds |
| Sync.ProgressStep | mct/internal/cli/sync.go:261-263 | a progress line follows exactly the waits whose count is a multiple of ten |
| Sync.WaitForRepoConfirmation | mct/internal/cli/sync.go:237-267 | the loop's outcome and number of checks are those of the reference wait, and its progress lines are one per ten waits made |
| Sync.InitialDryOutcome | mct/internal/cli/sync.go:84-116 | the reference dry run before an initial add: no error exactly when the dry-run add succeeds or finds the repository already there and the wait and the estimate succeed, and then the requests are the dry-run add, the wait, the estimate and the removal of the dry-run store; a failed add reports "error during initial repository check/add (dry run): " with its error and requests nothing more; after a failed wait or estimate the store is still removed |
| Sync.InitialDryRun | mct/internal/cli/sync.go:84-116 | the loop-free dry run ends with exactly the error and the requests of `InitialDryOutcome` |
| Sync.InitialOutcome | mct/internal/cli/sync.go:70-153 | the reference initial add; `InitialDryRunEndsOrLeads` and `InitialAddSpec` state it |
| Sync.InitialDryRunEndsOrLeads | mct/internal/cli/sync.go:84-120 | with --cost or --cost-only a failed dry run ends the run with the dry run's own error and requests; one that gets through starts the requests, and with --cost-only ends the run without error |
| Sync.InitialAddSpec | mct/internal/cli/sync.go:124-149 | past the dry run, without --force and without the user's consent the run ends at the question without error; with either, the real add is made, and the run ends without error exactly when the add succeeds and the older client, --force, or the wait after the add lets it; a failed add reports "Error adding repository: " and a failed wait "Error waiting for initial sync: ", each with its error; the add is the last request unless the current client waits after it without --force |
| Sync.InitialIgnoresValidation | mct/internal/cli/sync.go:70-153 | the initial-add branch does not read the validation's result |
| Sync.InitialSync | mct/internal/cli/sync.go:70-153 | its error and requests are those of `InitialOutcome`; no real add with --cost-only; a real add only with --force or the user's consent; dry runs only for --cost or --cost-only; no branch is synced; it also models machtiani/internal/cli/sync.go:62-129, where the older client returns right after a confirmed initial add, without waiting |
| Sync.BranchDryOutcome | mct/internal/cli/sync.go:157-184 | the reference dry run before a branch sync: no error exactly when the dry-run sync and the estimate succeed; the requests are the dry-run sync of the branch, then the estimate unless that sync failed; a failed dry-run sync reports "Error during repository sync check (dry run): " with its error |
| Sync.BranchDryRun | mct/internal/cli/sync.go:157-184 | the dry run ends with exactly the error and the requests of `BranchDryOutcome` |
| Sync.BranchOutcome | mct/internal/cli/sync.go:155-216 | the reference branch sync; `BranchOutcomeSpec` states it |
| Sync.BranchOutcomeSpec | mct/internal/cli/sync.go:157-215 | a failed dry run ends the run with its own outcome; with --cost-only a dry run that gets through ends the run without error after the dry-run sync and the estimate; past the dry run, without --force or consent the run ends at the question without error; with either, the real sync of the branch is the last request and the run fails exactly when that sync fails, with "Error syncing repository: " and its error |
| Sync.BranchIgnoresValidation | mct/internal/cli/sync.go:155-216 | the branch-sync branch does not read the validation's result |
| Sync.BranchSync | mct/internal/cli/sync.go:155-216 | its error and requests are those of `BranchOutcome`; no real sync with --cost-only; a real sync only with --force or consent; dry runs only for --cost or --cost-only; every sync names the given branch and nothing is added; it also models machtiani/internal/cli/sync.go:132-161, where the older client's branch sync follows the same rules |
| Sync.BranchToSend | mct/internal/cli/sync.go:43-61 | an empty branch name when HEAD is detached, GetBranch's answer otherwise; the error of the last git query stops the sync |
| Sync.SyncOutcome | mct/internal/cli/sync.go:17-217 | the reference handleSync; `SyncSteps`, `ForceBypassesValidation` and `ForcedSyncOfKnownRepository` state it |
| Sync.SyncSteps | mct/internal/cli/sync.go:26-153 | each local check that fails ends the run before any request with its own error: the HEAD commit ("Error retrieving HEAD commit hash: "), the validation without --force in the current client ("Validation failed: " ... ". Use --force to bypass this validation."), the branch ("Error retrieving current branch name: ") and the ignore files ("Error retrieving ignore files: "); once they pass, a status error saying "does not exist" leads to the initial add, any other ends the run with "Error checking repository status: ", and no status error leads to the branch sync of the branch to send |
| Sync.HandleSync | mct/internal/cli/sync.go:17-217 | its error and requests are those of `SyncOutcome`; --cost-only never leads to real work, real work needs --force or consent, and dry runs need --cost or --cost-only; no request is made unless every local check passed; the add path only for a repository the service does not know ("does not exist"), the sync path only for a known one, and every sync names the branch to send; it also models machtiani/internal/cli/sync.go:15-162, where the older client skips the validation and otherwise follows the same branching |
| Sync.ForceBypassesValidation | mct/internal/cli/sync.go:35-41 | with --force, and always in the older client, a failed validation only warns: the run ends exactly as it would had the validation passed |
| Sync.ForcedSyncOfKnownRepository | mct/internal/cli/sync.go:36-215 | with --force, for a known repository whose local checks pass and whose dry run, if any, gets through, the real sync of the branch to send is the last request and the run ends without error exactly when that sync succeeds, whatever the validation said |
| PromptCli.SeparatorLines | machtiani/internal/cli/prompt.go:43-49 | read as lines, a separator is a blank line and a line of sixty '=', then, when there is a message, the message and a second '=' line, ending with a newline |
| PromptCli.CreateSeparator | machtiani/internal/cli/prompt.go:43-49 | the reference definition of the separator; `SeparatorLines` states its shape |
| PromptCli.SourcePrompt | machtiani/internal/cli/prompt.go:77-90 | with --file the file's content is the prompt and a read failure is fatal; without it the space-joined words are, and an empty prompt is fatal |
| PromptCli.JoinEmpty | machtiani/internal/cli/prompt.go:78-79 | the joined prompt is empty only without words or with a single empty word |
| PromptCli.Ext | machtiani/internal/cli/prompt.go:162 | the extension is a suffix starting at the last dot of the last element, or empty when that element has no dot |
| PromptCli.TrimTrailingSlashes | machtiani/internal/cli/prompt.go:159 | path.Base first drops trailing slashes: the result is a prefix not ending in '/' |
| PromptCli.AfterLastSlash | machtiani/internal/cli/prompt.go:159 | the last element holds no '/', is a suffix of the path, and is the whole path when there is no '/' |
| PromptCli.Base | machtiani/internal/cli/prompt.go:159 | the base name is never empty: "." for the empty path, "/" for slashes only, else the last element |
| PromptCli.BeforeFirstDot | machtiani/internal/cli/prompt.go:161-164 | the part before the first dot is a dot-free prefix that stops at a dot |
| PromptCli.StripExtensions | machtiani/internal/cli/prompt.go:161-164 | the loop leaves a prefix of the name without an extension; on a plain name everything from the first dot on is gone, so a.tar.gz becomes a |
| PromptCli.Stem | machtiani/internal/cli/prompt.go:159-167 | the stripped base name is never ".", so the "." case of the check never fires after stripping |
| PromptCli.StemOfPlainName | machtiani/internal/cli/prompt.go:159-164 | a plain file name keeps what precedes its first dot |
| PromptCli.StemExamples | machtiani/internal/cli/prompt.go:159-167 | without --file the stem is empty, so a name is generated; a.tar.gz gives a, .bashrc gives nothing, README stays |
| PromptCli.FilenameQuery | machtiani/internal/cli/prompt.go:229-245 | the context is always sent first; each key or URL is sent exactly when it is non-empty, and nothing else is |
| PromptCli.GatewayHeader | machtiani/internal/cli/prompt.go:252-257 | a gateway header is set exactly when the value is configured, under the configured key or else the default key |
| PromptCli.GenerateFilename | machtiani/internal/cli/prompt.go:210-293 | a name only from a loaded config, a set URL and a readable, decodable 200 reply with a non-empty filename; each failure has its own message |
| PromptCli.CreateMarkdownContent | machtiani/internal/cli/prompt.go:296-321 | the loop appends one "- `path`" line per retrieved path after the heading; the head is the re-read file's content, or the prompt under "# User" when there is no file or re-reading fails |
| PromptCli.AppendPathLines | machtiani/internal/cli/prompt.go:313-318 | the loop leaves the text it started from followed by one "- `path`" line per path, in order |
| PromptCli.PathLinesSplit | machtiani/internal/cli/prompt.go:313-318 | each retrieved path sits on its own line, in backticks, in order, and the list ends with a newline |
| PromptCli.TruncatedPrompt | machtiani/internal/cli/prompt.go:381-385 | a prompt of at most 200 characters is shown whole; a longer one as its first 200 characters followed by "..." |
| PromptCli.DefaultModeWrites | machtiani/internal/cli/prompt.go:106-148 | the default mode writes patches, applies them only when writing them worked, then writes new files |
| PromptCli.ResponseFilename | machtiani/internal/cli/prompt.go:155-174 | the response is saved under the --file's stem, or under a generated name falling back to machtiani-response; the name is never empty |
| PromptCli.HandlePrompt | machtiani/internal/cli/prompt.go:52-182 | a missing prompt stops before any request; a failed API call stops after it; otherwise the side effects are verbose output, the call, the default-mode writes and the saved response, in that order |
| PromptCli.PromptTraceMembers | machtiani/internal/cli/prompt.go:92-181 | every side effect of a prompt is verbose output, the API call, a default-mode write or the saving of the response |
| PromptCli.SaveStepsOnlySave | machtiani/internal/cli/prompt.go:155-181 | the saving part of a prompt only names and saves |
| PromptCli.DefaultModeOnlyWrites | machtiani/internal/cli/prompt.go:105-148 | patches and new files are written exactly in the default mode, and patches are applied exactly when writing them worked |
| PromptCli.AnswerOnlyQuiet | machtiani/internal/cli/prompt.go:70-191 | in answer-only mode the API call is the only side effect: nothing is shown, named or saved |
| PromptCli.FrontSavesNothing | machtiani/internal/cli/prompt.go:92-148 | nothing before the saving part names or saves a response |
| PromptCli.ResponseSavedOnce | machtiani/internal/cli/prompt.go:150-207 | outside answer-only mode the whole response is saved exactly once, last, under a non-empty name |
| PromptCli.NameGeneratedIffNoStem | machtiani/internal/cli/prompt.go:166-173 | outside answer-only mode a name is generated exactly when the --file gives no stem |
| LegacyCli.Taken | main.go:40-47 | one step takes two arguments exactly when a flag is followed by an argument that is not a flag, and one otherwise |
| LegacyCli.PartitionLoopStep | main.go:39-49 | one pass of the loop appends the arguments it consumes to the side the partition puts them on |
| LegacyCli.PartitionArgs | main.go:39-49 | the index loop, skipping a flag's value, splits the arguments into flag arguments and prompt words as the partition does |
| LegacyCli.PartitionKeepsAll | main.go:39-49 | every argument lands on exactly one side: nothing is lost or duplicated |
| LegacyCli.PartitionSides | main.go:40-48 | prompt words never start with a dash, and every argument that does goes to the flag parser |
| LegacyCli.Partition | main.go:39-49 | the reference split into flag arguments and prompt words, each in order; the Partition rows state its properties |
| LegacyCli.WordAfterFlagSwallowed | main.go:40-45 | a word right after a flag is taken as its value, even after a boolean or a --flag=value flag, so it is not a prompt word |
| LegacyCli.LeadingWordIsPrompt | main.go:46-48 | an argument without a dash that no flag takes is a prompt word, in order |
| LegacyCli.PartitionExample | main.go:39-49 | "--mode=super explain this" keeps only "this" as the prompt; "explain --model gpt-4o this" gives the prompt "explain this" |
| LegacyCli.ValidateChoices | main.go:71-88 | the model must be gpt-4o or gpt-4o-mini, the match strength high, mid or low, and the mode content, commit or super, checked in that order |
| LegacyCli.DefaultsValid | main.go:14-21 | the flags' default values pass validation |
| LegacyCli.PathStrings | main.go:157-165 | the paths convert exactly when every one is a string, keeping them in order |
| LegacyCli.ConvertPaths | main.go:157-165 | the conversion loop stops at the first path that is not a string, and otherwise returns them all in order |
| LegacyCli.ReplyFields | main.go:136-165 | a reply is usable exactly when it decodes and holds a response text and a list of string paths; a missing response text gives the "no files found" message when the reply says so, and the generic message otherwise |
| LegacyCli.BuildMarkdown | main.go:175-189 | the markdown is the prompt (under "# User" unless it came from a file), the Assistant heading, the response, then a "Retrieved Files" list when there are paths |
| LegacyCli.FileLinesSplit | main.go:184-189 | each retrieved file sits on a line of its own, in order, and the list ends with a newline |
| LegacyCli.Prepare | main.go:56-114 | the checks run in order (project, model, match strength, mode, prompt, API key), each failure with its own message, the missing key as "Error: OPENAI_API_KEY environment variable is not set."; a request is made exactly when all pass, with the flag's project or git's and the file's content or the joined words |
| LegacyCli.Run | main.go:23-215 | exactly one of an error and a saved response: flag parsing, the checks, the reply's fields and the temporary directory and file are each fatal with their message; otherwise response.md holds the assembled markdown |
| FileScanner.Chunk | scripts/binary_and_generated_file_parser.py:50 | one read returns the first 1024 bytes, or all of them when the file is shorter |
| FileScanner.IsBinaryFile | scripts/binary_and_generated_file_parser.py:46-53 | a file is binary exactly when a zero byte occurs among its first 1024 bytes, or when it cannot be read |
| FileScanner.BinaryDecidedByChunk | scripts/binary_and_generated_file_parser.py:50-51 | bytes after the first 1024 never change the verdict |
| FileScanner.BinaryExamples | scripts/binary_and_generated_file_parser.py:46-53 | an unreadable file is binary, an empty one is not, a zero byte early makes a file binary and one at position 1024 does not |
| FileScanner.FilesFound | scripts/binary_and_generated_file_parser.py:63-71 | a directory never yields more listed files than it has entries |
| FileScanner.FilesFoundStep | scripts/binary_and_generated_file_parser.py:63-71 | each entry adds its own path at the end when it is listed, and nothing otherwise |
| FileScanner.ListFiles | scripts/binary_and_generated_file_parser.py:63-71 | the loop writes one line per listed file of the directory, relative to the root, and counts each line |
| FileScanner.Walk | scripts/binary_and_generated_file_parser.py:59-71 | a directory's listed files are written first, then the walk descends into each subdirectory that is not ignored, in order; the count grows by the lines written |
| FileScanner.FindFiles | scripts/binary_and_generated_file_parser.py:56-73 | the text written is the listed paths, one per line, and the count returned is their number |
| FileScanner.WrittenLines | scripts/binary_and_generated_file_parser.py:57-73 | read back as lines the output is exactly the listed paths, so the count equals the number of lines written |
| FileScanner.LocatedPruned | scripts/binary_and_generated_file_parser.py:61 | no directory on the way to a listed file is an ignored one: pruned directories are never entered |
| FileScanner.FilesFoundMembers | scripts/binary_and_generated_file_parser.py:63-71 | a path is among a directory's own listed files exactly when a listed file of that directory has it |
| FileScanner.FoundSound | scripts/binary_and_generated_file_parser.py:59-71 | every path listed is that of a binary or generated file below the directory, relative to the root |
| FileScanner.SubdirsSound | scripts/binary_and_generated_file_parser.py:59-71 | every path listed from the subdirectories is that of a listed file below the directory |
| FileScanner.SubdirsInclude | scripts/binary_and_generated_file_parser.py:59-61 | what the walk lists below a kept subdirectory is part of the listing of its parent |
| FileScanner.FoundComplete | scripts/binary_and_generated_file_parser.py:59-71 | every binary or generated file outside ignored directories is listed, under its path relative to the root |
| FileScanner.FindFilesListsExactly | scripts/binary_and_generated_file_parser.py:56-73 | the listing holds exactly the relative paths of the files that are binary or generated and do not lie below an ignored directory |

## Left out

- HTTP transport: request building, headers, timeouts, JSON decoding, and the `AddRepository`, `DeleteStore`, `CheckStatus`, `FetchAndCheckoutBranch`, `getTokenCount` and `GetInstallInfo` exchanges. Their replies or errors are inputs.
- The language model: `send_prompt_to_openai` and `count_tokens` are external. Their results are inputs, and no token-counting heuristic is assumed.
- YAML unmarshalling and `os.Getenv`: a configuration file is a function from path to the record it decodes to, and the environment is a map.
- Concurrency and the terminal: the spinners, the goroutines and channels behind them, and `time.Sleep` between polls. Time display is left out too.
- Glamour's `renderMarkdown`: it is an append to a display log, and its rendering errors are not modelled.
- Printing and logging: `log.Printf`, progress lines and warnings are not modelled. Where the source ends with `log.Fatal`, the model returns the message.
- Unicode whitespace beyond the six ASCII characters is not modelled.
- Path normalisation by `filepath.Join`, `os.path.join` and `os.path.relpath`: paths are joined component by component with `/`.
- The walk in the file scanner does not follow symbolic links. Its `onerror` handler and a failure to open the output file are not modelled.
- `url.Parse` errors and `url.QueryEscape`: request parameters are kept as name-value pairs. The API URL built in `main.go` is not modelled.
- Applying patches: the glob for existing patches and `ApplyGitPatches` are one step of the trace, and its outcome is an input.
- The `flag` package: the values parsed from the flag arguments are an input.
- In `machtiani/internal/cli/prompt.go`, `handleAPIResponse` (lines 187-207) with its fallback printing is left out, and `readMarkdownFile` (lines 348-355) is an input: the file's content or its read error.
- PromptCli: `machtiani/internal/cli/prompt.go:97` calls a seven-argument `api.GenerateResponse` and then the result's `WritePatchToFile` and `WriteNewFiles`, while `machtiani/internal/api/api.go:323` takes six arguments and defines neither. The two files come from different revisions, so the model takes the call's result as an input.
- `printVerboseInfo` listing the ignore files is not modelled.
- PromptCli.CreateMarkdownContent: `handlePrompt` does not call it. It is modelled on its own and is not part of the prompt trace.
- LegacyCli.Run: the reply's paths are taken with the function `ReplyFields`, and Run does not call the `ConvertPaths` loop method. Both compute the same list.
- `LoadConfigAndIgnoreFiles` is only a composition of the loaders; whether it succeeds is an input of `HandleSync`.
- Not modelled: `GetProjectOrDefault`, `GetCodeHostAPIKey`, `EnsureDirExists`, `CreateTempMarkdownFile`, `ParseFlags`, `ParseFlagsWithValidation` and `GetCodehostURLFromCurrentRepository`. The user's answer to `ConfirmProceed` is an input.
- `EstimateTokenCount` is not modelled. The token counts it reports come from the server and are inputs.
- Fetching the system message and the command dispatch in `cli.go` are not modelled.
- GitUtils.GetRemoteURL: passing a nil remote name makes the source panic. The model takes a string, so that case does not exist.
- Sync.HandleSync: how a wait for confirmation ends inside `handleSync` is an input. The poll loop itself is `WaitForRepoConfirmation`, and its outcome is proved equal to `Wait`.
- Sync.HandleSync: the older client's dry run sends `force=true` as a request parameter. Request parameters are not modelled.
- The "no remote branches found" error of `ValidateHeadCommitExistsOnRemote` cannot be reached once the listing parsed, so it is not modelled.
- The FastAPI route wiring in `app/routes/` is not modelled: its calls do not match the service signatures.
- The `sys.path` set-up in the server modules is not modelled.
- The `json.dumps` escaping of error messages: error results carry the message text.
- ResponseService.SummaryPrompt: `JsonDumps` writes keys and values between quotes as they are. It does not escape quotes, backslashes, line breaks or non-ASCII characters as `json.dumps` does, so the summary prompt matches the source only for summaries without them.
- ResponseService.GenerateResponse: as written, the service imports `count_tokens` and `FileContentResponse` from `app/utils.py`, which defines neither, so the import fails before any request. It also awaits `aggregate_file_paths`, `remove_duplicate_file_paths` and `send_prompt_to_openai`, which are plain functions there. Awaiting their results raises a TypeError, and the catch-all turns it into "An unexpected error occurred: ...". The model reads these helpers as ordinary calls that return their values, and takes the token counter as an input, so it does not promise that error.
- FilenameService.GenerateFilename: as written, `app/services/generate_filename_service.py:14` awaits `send_prompt_to_openai`, which `app/utils.py:65` defines as a plain function, so awaiting its result raises a TypeError before any name is extracted. The model follows the endpoint in `app/main.py:70-95`, which calls the model and extracts the name as the service intends.
- PromptCli.TruncatedPrompt: Go's `len(prompt) > 200` and `prompt[:200]` count and cut bytes, while the model counts and cuts characters. A prompt of 150 two-byte characters such as 'é' (300 bytes) is cut by the source and shown whole by the model, and a cut in the source may split a multi-byte character.
- The stream's banners (the "waiting on file-edits" line and "Suggested new files:" with its list), the spinner and glamour's markdown rendering are not part of the modelled `display`, which holds the text handed to the renderer.
- The lock-duration display of `handleStatus` uses floating-point time and is not modelled.
- The end-to-end tests and their helper scripts are not modelled.
