/**
 * The filename service: the prompt that asks the language model for a filename,
 * and the extraction of the filename from the model's reply.
 *
 * The reply is searched first for a `<filename> ... </filename>` pair (case does
 * not matter, the text may span lines) and, only when there is none, for the
 * first single-line `< ... >`. The two regular-expression searches are modelled
 * by scanners (TagSearch, AngleSearch), and each scanner is proved to return the
 * match a regular-expression engine returns: the leftmost start, and for it the
 * shortest match (both groups are lazy), as stated by TagMatch and AngleMatch.
 */
module FilenameService {
  import opened Common

  /** What the endpoint returns: a filename, or an HTTP exception. */
  datatype FilenameOutcome = Filename(name: string) | HttpException(status: int, detail: string)

  const OpenTag: string := "<filename>"
  const CloseTag: string := "</filename>"
  const InvalidFormat: string := "Invalid response format from OpenAI API."

  /** The model the filename prompt is sent to. */
  const FilenameModel: string := "gpt-4o-mini"

  const PromptLead: string := "Generate a unique filename for the following context: '"
  const PromptRules: string := "'.\nRespond ONLY with the filename in snake_case, wrapped in <filename> and </filename> tags.\nDo not include any other text or explanations.\n"
  const PromptExample: string := "Example:\n<filename>example_filename</filename>"

  /** The instruction text sent to the model; the context is quoted with single quotes. */
  function FilenamePrompt(context: string): (r: string)
    ensures HasPrefix(r, PromptLead + context)
    ensures HasSuffix(r, PromptExample)
  {
    var intro := PromptLead + context;
    assert (intro + PromptRules + PromptExample)[..|intro|] == intro;
    assert (intro + PromptRules + PromptExample)[|intro + PromptRules|..] == PromptExample;
    intro + PromptRules + PromptExample
  }

  // ---------------------------------------------------------------------------
  // The tag search: <filename>\s*(.*?)\s*</filename>, across lines, any case.

  /**
   * The case folding of the tag search. For the characters the two tags are made
   * of, re.IGNORECASE lets a character of the reply match a lower-case letter when
   * it is that letter or its ASCII capital, and lets both 'İ' (U+0130) and 'ı'
   * (U+0131) match 'i' as well. Folding those two to 'i' and the ASCII capitals to
   * their lower case makes "folds to the tag's character" the same test.
   */
  function FoldChar(c: char): (r: char)
    ensures r == c || 'A' <= c <= 'Z' || c == '\U{130}' || c == '\U{131}'
  {
    if 'A' <= c <= 'Z' then (c as int + 32) as char
    else if c == '\U{130}' || c == '\U{131}' then 'i'
    else c
  }

  function Fold(s: string): (r: string)
    ensures |r| == |s| && forall i :: 0 <= i < |s| ==> r[i] == FoldChar(s[i])
  {
    seq(|s|, i requires 0 <= i < |s| => FoldChar(s[i]))
  }

  /** p (written in lower case) occurs at index i of s, ignoring case as the tag search does. */
  predicate OccursAtCI(s: string, p: string, i: int)
  {
    0 <= i && i + |p| <= |s| && Fold(s[i..i + |p|]) == p
  }

  function IndexFromCI(s: string, p: string, from: nat): (r: Option<nat>)
    ensures r.Some? ==> from <= r.value && OccursAtCI(s, p, r.value)
    ensures r.Some? ==> forall j :: from <= j < r.value ==> !OccursAtCI(s, p, j)
    ensures r.None? ==> forall j :: from <= j ==> !OccursAtCI(s, p, j)
    decreases |s| - from
  {
    if from + |p| > |s| then None
    else if Fold(s[from..from + |p|]) == p then Some(from)
    else IndexFromCI(s, p, from + 1)
  }

  /** The search returns the first occurrence at or after `from`. */
  lemma IndexFromCIFirst(s: string, p: string, from: nat, n: nat)
    requires from <= n && OccursAtCI(s, p, n)
    requires forall q :: from <= q < n ==> !OccursAtCI(s, p, q)
    ensures IndexFromCI(s, p, from) == Some(n)
  {
    var r := IndexFromCI(s, p, from);
    assert r.Some?;
    assert r.value <= n;
    assert r.value >= n;
  }

  /** The regular expression can match from an opening tag at i to a closing tag at j. */
  predicate TagMatch(s: string, i: int, j: int)
  {
    OccursAtCI(s, OpenTag, i) && i + |OpenTag| <= j && OccursAtCI(s, CloseTag, j)
  }

  /** The first opening tag, and the first closing tag after it. */
  function TagSearch(s: string): (r: Option<(nat, nat)>)
    ensures r.Some? ==> r.value.0 + |OpenTag| <= r.value.1 <= |s|
  {
    match IndexFromCI(s, OpenTag, 0)
    case None => None
    case Some(i) =>
      match IndexFromCI(s, CloseTag, i + |OpenTag|)
      case None => None
      case Some(j) => Some((i, j))
  }

  /** What TagSearch returns is a match. */
  lemma TagSearchSound(s: string)
    ensures TagSearch(s).Some? ==> TagMatch(s, TagSearch(s).value.0, TagSearch(s).value.1)
  {
  }

  /** TagSearch finds a match exactly when one exists, and then the leftmost, shortest one. */
  lemma TagSearchIsLeftmostShortest(s: string)
    ensures TagSearch(s).Some? ==> TagMatch(s, TagSearch(s).value.0, TagSearch(s).value.1)
    ensures TagSearch(s).Some? ==> forall i, j :: TagMatch(s, i, j) ==>
              TagSearch(s).value.0 < i || (TagSearch(s).value.0 == i && TagSearch(s).value.1 <= j)
    ensures TagSearch(s).None? <==> forall i, j :: !TagMatch(s, i, j)
  {
    var open := IndexFromCI(s, OpenTag, 0);
    if open.Some? {
      var close := IndexFromCI(s, CloseTag, open.value + |OpenTag|);
      if close.Some? {
        assert TagMatch(s, open.value, close.value);
      }
    }
  }

  // ---------------------------------------------------------------------------
  // The fallback search: <\s*(.*?)\s*> where `.` does not cross a line break.

  /** A line break lies strictly between two non-space characters of u. */
  predicate NewlineInside(u: string)
  {
    exists a, c, b | 0 <= a < c < b < |u| :: NewlineAt(u, a, c, b)
  }

  /** u[c] is a line break with non-space characters at a before it and at b after it. */
  predicate NewlineAt(u: string, a: int, c: int, b: int)
  {
    0 <= a < c < b < |u| && !IsSpace(u[a]) && u[c] == '\n' && !IsSpace(u[b])
  }

  /**
   * The regular expression can match from '<' at i to '>' at k: the text between
   * is whitespace, then a part without line breaks, then whitespace.
   */
  predicate AngleMatch(s: string, i: int, k: int)
  {
    0 <= i < k < |s| && s[i] == '<' && s[k] == '>' && !NewlineInside(s[i + 1..k])
  }

  /** Trimming leaves a line break exactly when one lies between two non-space characters. */
  lemma NewlineInTrimmed(u: string)
    ensures '\n' in TrimSpace(u) <==> NewlineInside(u)
  {
    if '\n' in TrimSpace(u) {
      NewlineInTrimmedInside(u);
    }
    if NewlineInside(u) {
      var a, c, b :| 0 <= a < c < b < |u| && NewlineAt(u, a, c, b);
      NewlineInsideInTrimmed(u, a, c, b);
    }
  }

  lemma NewlineInTrimmedInside(u: string)
    requires '\n' in TrimSpace(u)
    ensures NewlineInside(u)
  {
    var l := TrimLeft(u);
    var r := TrimRight(l);
    var lo := |u| - |l|;
    assert l == u[lo..];
    assert r == l[..|r|];
    var c :| 0 <= c < |r| && r[c] == '\n';
    assert r[0] == u[lo];
    assert r[|r| - 1] == u[lo + |r| - 1];
    assert r[c] == u[lo + c];
    assert !IsSpace(u[lo]) && !IsSpace(u[lo + |r| - 1]);
    assert 0 < c < |r| - 1;
    assert NewlineAt(u, lo, lo + c, lo + |r| - 1);
  }

  lemma NewlineInsideInTrimmed(u: string, a: int, c: int, b: int)
    requires NewlineAt(u, a, c, b)
    ensures '\n' in TrimSpace(u)
  {
    var l := TrimLeft(u);
    var r := TrimRight(l);
    var lo := |u| - |l|;
    assert l == u[lo..];
    assert r == l[..|r|];
    assert r[c - lo] == '\n';
  }

  /** Widening the candidate match keeps a line break that was already inside. */
  lemma NewlineInsideWidens(s: string, i: int, k: int, k': int)
    requires 0 <= i < k <= k' <= |s|
    requires NewlineInside(s[i..k])
    ensures NewlineInside(s[i..k'])
  {
    var u, u' := s[i..k], s[i..k'];
    var a, c, b :| 0 <= a < c < b < |u| && NewlineAt(u, a, c, b);
    assert u'[a] == u[a] && u'[c] == u[c] && u'[b] == u[b];
    assert NewlineAt(u', a, c, b);
  }

  /** The first '<' at or after `from` that starts a match, with the first '>' after it. */
  function AngleFrom(s: string, from: nat): (r: Option<(nat, nat)>)
    ensures r.Some? ==> from <= r.value.0 < r.value.1 < |s|
    decreases |s| - from
  {
    if from >= |s| then None
    else if s[from] == '<' then
      match IndexOfChar(s, '>', from + 1)
      case Some(k) =>
        if AngleMatch(s, from, k) then Some((from, k)) else AngleFrom(s, from + 1)
      case None => AngleFrom(s, from + 1)
    else AngleFrom(s, from + 1)
  }

  function AngleSearch(s: string): (r: Option<(nat, nat)>)
    ensures r.Some? ==> r.value.0 < r.value.1 < |s|
  {
    AngleFrom(s, 0)
  }

  /** At a given '<', a match exists exactly when the first '>' after it ends one. */
  lemma AngleAtFirstClose(s: string, i: nat, k: nat)
    requires i < |s| && s[i] == '<'
    requires IndexOfChar(s, '>', i + 1) == Some(k)
    ensures forall k' :: AngleMatch(s, i, k') ==> AngleMatch(s, i, k) && k <= k'
  {
    forall k' | AngleMatch(s, i, k') ensures AngleMatch(s, i, k) && k <= k' {
      if NewlineInside(s[i + 1..k]) {
        NewlineInsideWidens(s, i + 1, k, k');
      }
    }
  }

  /** What AngleFrom returns is a match. */
  lemma {:induction false} AngleFromSound(s: string, from: nat)
    requires AngleFrom(s, from).Some?
    ensures AngleMatch(s, AngleFrom(s, from).value.0, AngleFrom(s, from).value.1)
    decreases |s| - from
  {
    var close := IndexOfChar(s, '>', from + 1);
    if s[from] == '<' && close.Some? && AngleMatch(s, from, close.value) {
    } else {
      AngleFromSound(s, from + 1);
    }
  }

  /** Every match from `from` on is found by AngleFrom, or lies after or beyond the one found. */
  lemma {:induction false} AngleFromLeast(s: string, from: nat, i: nat, k: nat)
    requires from <= i && AngleMatch(s, i, k)
    ensures AngleFrom(s, from).Some?
    ensures AngleFrom(s, from).value.0 < i || (AngleFrom(s, from).value.0 == i && AngleFrom(s, from).value.1 <= k)
    decreases i - from
  {
    var close := IndexOfChar(s, '>', from + 1);
    if from == i {
      assert close.Some?;
      AngleAtFirstClose(s, i, close.value);
    } else if s[from] == '<' && close.Some? && AngleMatch(s, from, close.value) {
    } else {
      AngleFromLeast(s, from + 1, i, k);
    }
  }

  /** AngleSearch finds a match exactly when one exists, and then the leftmost, shortest one. */
  lemma AngleSearchIsLeftmostShortest(s: string)
    ensures AngleSearch(s).Some? ==> AngleMatch(s, AngleSearch(s).value.0, AngleSearch(s).value.1)
    ensures AngleSearch(s).Some? ==> forall i, k :: AngleMatch(s, i, k) ==>
              AngleSearch(s).value.0 < i || (AngleSearch(s).value.0 == i && AngleSearch(s).value.1 <= k)
    ensures AngleSearch(s).None? <==> forall i, k :: !AngleMatch(s, i, k)
  {
    if AngleSearch(s).Some? {
      AngleFromSound(s, 0);
    }
    forall i, k | AngleMatch(s, i, k)
      ensures AngleSearch(s).Some?
      ensures AngleSearch(s).value.0 < i || (AngleSearch(s).value.0 == i && AngleSearch(s).value.1 <= k)
    {
      AngleFromLeast(s, 0, i, k);
    }
  }

  // ---------------------------------------------------------------------------
  // The extraction

  /**
   * The filename in a model reply: the trimmed text inside the first tag pair,
   * otherwise the trimmed text inside the first single-line angle brackets,
   * otherwise HTTP 400.
   */
  function ExtractFilename(response: string): (r: FilenameOutcome)
    ensures r.Filename? ==> r.name == TrimSpace(r.name)
    ensures r.HttpException? ==> r.status == 400 && r.detail == InvalidFormat
  {
    match TagSearch(response)
    case Some((i, j)) => NameOf(response[i + |OpenTag|..j])
    case None =>
      match AngleSearch(response)
      case Some((i, k)) => NameOf(response[i + 1..k])
      case None => HttpException(400, InvalidFormat)
  }

  /** The captured text, trimmed, as the filename. */
  function NameOf(captured: string): (r: FilenameOutcome)
    ensures r.Filename? && r.name == TrimSpace(r.name)
  {
    TrimTwice(captured);
    Filename(TrimSpace(captured))
  }

  /** HTTP 400 exactly when neither regular expression matches anywhere in the reply. */
  lemma ExtractFilenameFails(response: string)
    ensures ExtractFilename(response).HttpException? <==>
              (forall i, j :: !TagMatch(response, i, j)) && (forall i, k :: !AngleMatch(response, i, k))
  {
    TagSearchIsLeftmostShortest(response);
    AngleSearchIsLeftmostShortest(response);
  }

  /** Whenever a tag pair exists, the name is the trimmed text of the leftmost, shortest one. */
  lemma ExtractFilenamePrefersTag(response: string, i: nat, j: nat)
    requires TagMatch(response, i, j)
    ensures exists i0, j0 :: TagMatch(response, i0, j0) && (i0 < i || (i0 == i && j0 <= j)) &&
              ExtractFilename(response) == Filename(TrimSpace(response[i0 + |OpenTag|..j0]))
  {
    TagSearchIsLeftmostShortest(response);
    var (i0, j0) := TagSearch(response).value;
    assert TagMatch(response, i0, j0);
  }

  /**
   * Without a tag pair, the name is the trimmed text of the leftmost, shortest
   * single-line angle-bracket match.
   */
  lemma ExtractFilenameFallback(response: string)
    requires forall i, j :: !TagMatch(response, i, j)
    requires ExtractFilename(response).Filename?
    ensures exists i, k :: LeftmostShortestAngle(response, i, k) &&
              ExtractFilename(response) == Filename(TrimSpace(response[i + 1..k]))
  {
    var i, k := FallbackMatch(response);
    AngleSearchIsLeftmostShortest(response);
    assert LeftmostShortestAngle(response, i, k);
  }

  /** (i, k) is a match, and every other match starts later or ends no earlier. */
  ghost predicate LeftmostShortestAngle(s: string, i: int, k: int)
  {
    AngleMatch(s, i, k) && forall i', k' :: AngleMatch(s, i', k') ==> i < i' || (i == i' && k <= k')
  }

  /** A name found without a tag pair holds no line break. */
  lemma ExtractFilenameFallbackSingleLine(response: string)
    requires forall i, j :: !TagMatch(response, i, j)
    requires ExtractFilename(response).Filename?
    ensures '\n' !in ExtractFilename(response).name
  {
    var i, k := FallbackMatch(response);
    AngleFromSound(response, 0);
    NewlineInTrimmed(response[i + 1..k]);
  }

  /** Without a tag pair, a found name comes from the angle-bracket search. */
  lemma FallbackMatch(response: string) returns (i: nat, k: nat)
    requires forall i, j :: !TagMatch(response, i, j)
    requires ExtractFilename(response).Filename?
    ensures AngleSearch(response) == Some((i, k)) && i < k < |response|
    ensures ExtractFilename(response) == Filename(TrimSpace(response[i + 1..k]))
  {
    var t := TagSearch(response);
    if t.Some? {
      TagSearchSound(response);
      assert false;
    }
    var m := AngleSearch(response);
    assert m.Some?;
    i, k := m.value.0, m.value.1;
  }

  lemma TrimTwice(s: string)
    ensures TrimSpace(TrimSpace(s)) == TrimSpace(s)
  {
    var r := TrimSpace(s);
    if r != [] {
      assert !IsSpace(r[0]) && !IsSpace(r[|r| - 1]);
      assert TrimLeft(r) == r;
    }
  }

  /** What the endpoint sends to the language model. */
  datatype ModelRequest = ModelRequest(prompt: string, apiKey: string, model: string)

  /**
   * The service entry point, with the language model's reply as an input: the
   * request sends the quoted context to the filename model with the caller's key,
   * and the reply is rejected exactly when neither pattern matches; a tag pair wins
   * over a bare `<...>`, and the name is trimmed.
   */
  function GenerateFilename(context: string, apiKey: string, modelReply: string): (r: (ModelRequest, FilenameOutcome))
    ensures r.0.model == FilenameModel && r.0.apiKey == apiKey
    ensures HasPrefix(r.0.prompt, PromptLead + context) && HasSuffix(r.0.prompt, PromptExample)
    ensures r.1.HttpException? <==>
              (forall i, j :: !TagMatch(modelReply, i, j)) && (forall i, k :: !AngleMatch(modelReply, i, k))
    ensures r.1.HttpException? ==> r.1 == HttpException(400, InvalidFormat)
    ensures (exists i, j :: TagMatch(modelReply, i, j)) ==>
              var (i, j) := TagSearch(modelReply).value;
              TagMatch(modelReply, i, j) && r.1 == Filename(TrimSpace(modelReply[i + |OpenTag|..j]))
    ensures (forall i, j :: !TagMatch(modelReply, i, j)) && (exists i, k :: AngleMatch(modelReply, i, k)) ==>
              AngleSearch(modelReply).Some? &&
              var (i, k) := AngleSearch(modelReply).value;
              AngleMatch(modelReply, i, k) && r.1 == Filename(TrimSpace(modelReply[i + 1..k]))
    ensures r.1.Filename? ==> r.1.name == TrimSpace(r.1.name)
  {
    ExtractFilenameFails(modelReply);
    TagSearchIsLeftmostShortest(modelReply);
    AngleSearchIsLeftmostShortest(modelReply);
    (ModelRequest(FilenamePrompt(context), apiKey, FilenameModel), ExtractFilename(modelReply))
  }

  /** With no tag pair and exactly one angle-bracket match, the name comes from that match. */
  lemma ExtractFromOnlyAngle(response: string, i: nat, k: nat)
    requires forall i, j :: !TagMatch(response, i, j)
    requires AngleMatch(response, i, k)
    requires forall i', k' :: AngleMatch(response, i', k') ==> i' == i && k' == k
    ensures ExtractFilename(response) == Filename(TrimSpace(response[i + 1..k]))
  {
    TagSearchIsLeftmostShortest(response);
    AngleSearchIsLeftmostShortest(response);
  }

  /** A case-insensitive occurrence starts with a character that lower-cases to p's first. */
  lemma OccursAtCIHead(s: string, p: string)
    requires p != []
    ensures forall i :: OccursAtCI(s, p, i) ==> FoldChar(s[i]) == p[0]
  {
    forall i | OccursAtCI(s, p, i) ensures FoldChar(s[i]) == p[0] {
      assert Fold(s[i..i + |p|])[0] == FoldChar(s[i]);
    }
  }

  /**
   * A reply that is one word in angle brackets yields that word; in particular a
   * lone `<filename>` (an opening tag with no closing tag) yields `filename`.
   */
  lemma BracketedWord(w: string)
    requires w != [] && '<' !in w && '>' !in w && forall j | 0 <= j < |w| :: !IsSpace(w[j])
    ensures ExtractFilename("<" + w + ">") == Filename(w)
  {
    var s := "<" + w + ">";
    forall q | 0 < q < |s| - 1 ensures s[q] == w[q - 1] && s[q] != '<' && s[q] != '>' {
      assert w[q - 1] in w;
    }
    NoTagAfterFirst(s);
    assert s[1..|s| - 1] == w;
    assert AngleMatch(s, 0, |s| - 1);
    ExtractFromOnlyAngle(s, 0, |s| - 1);
    TrimSpaceNoSpace(w);
  }

  /** Without a '<' past the first character there is no tag pair. */
  lemma NoTagAfterFirst(s: string)
    requires forall q :: 0 < q < |s| ==> s[q] != '<'
    ensures forall i, j :: !TagMatch(s, i, j)
  {
    OccursAtCIHead(s, CloseTag);
  }

  /**
   * A reply shaped like the prompt's example, `<filename>w</filename>`, yields w
   * trimmed (here `example_filename` for the example itself).
   */
  lemma TaggedReply(w: string)
    requires '<' !in w
    ensures ExtractFilename(OpenTag + w + CloseTag) == Filename(TrimSpace(w))
  {
    TagsLowerCase();
    SpelledTagReply(OpenTag, w, CloseTag);
  }

  /**
   * The same for tags spelled in any case the search accepts: `o` and `c` fold to
   * the opening and the closing tag.
   */
  lemma SpelledTagReply(o: string, w: string, c: string)
    requires Fold(o) == OpenTag && Fold(c) == CloseTag && '<' !in w
    ensures ExtractFilename(o + w + c) == Filename(TrimSpace(w))
  {
    var s := o + w + c;
    var n := |OpenTag| + |w|;
    TaggedReplySearch(o, w, c);
    assert s[|OpenTag|..n] == w;
  }

  lemma TaggedReplySearch(o: string, w: string, c: string)
    requires Fold(o) == OpenTag && Fold(c) == CloseTag && '<' !in w
    ensures TagSearch(o + w + c) == Some((0 as nat, (|OpenTag| + |w|) as nat))
  {
    TaggedReplyOpen(o, w, c);
    TaggedReplyClose(o, w, c);
  }

  lemma TaggedReplyOpen(o: string, w: string, c: string)
    requires Fold(o) == OpenTag && Fold(c) == CloseTag
    ensures IndexFromCI(o + w + c, OpenTag, 0) == Some(0)
  {
    TaggedReplyMatches(o, w, c);
  }

  lemma TaggedReplyClose(o: string, w: string, c: string)
    requires Fold(o) == OpenTag && Fold(c) == CloseTag && '<' !in w
    ensures IndexFromCI(o + w + c, CloseTag, |OpenTag|) == Some(|OpenTag| + |w|)
  {
    var s := o + w + c;
    var n := |OpenTag| + |w|;
    forall q | |OpenTag| <= q < n ensures !OccursAtCI(s, CloseTag, q) {
      NoCloseTagInWord(o, w, c, q);
    }
    TaggedReplyMatches(o, w, c);
    IndexFromCIFirst(s, CloseTag, |OpenTag|, n);
  }

  lemma NoCloseTagInWord(o: string, w: string, c: string, q: int)
    requires |o| == |OpenTag| && '<' !in w && |OpenTag| <= q < |OpenTag| + |w|
    ensures !OccursAtCI(o + w + c, CloseTag, q)
  {
    var s := o + w + c;
    assert s[q] == w[q - |OpenTag|];
    if q + |CloseTag| <= |s| {
      assert Fold(s[q..q + |CloseTag|])[0] == FoldChar(s[q]) != CloseTag[0];
    }
  }

  lemma TaggedReplyMatches(o: string, w: string, c: string)
    requires Fold(o) == OpenTag && Fold(c) == CloseTag
    ensures TagMatch(o + w + c, 0, |OpenTag| + |w|)
  {
    var s := o + w + c;
    var n := |OpenTag| + |w|;
    assert s[0..|OpenTag|] == o;
    assert s[n..n + |CloseTag|] == c;
  }

  lemma TagsLowerCase()
    ensures Fold(OpenTag) == OpenTag && Fold(CloseTag) == CloseTag
  {
  }

  /**
   * Tags spelled with a dotless 'ı' still count as the tag pair, as they do for
   * re.IGNORECASE: `<fılename>x</fılename>` yields `x`, not the fallback `fılename`.
   */
  lemma DotlessTagFound(o: string, c: string)
    requires o == "<f\U{131}lename>" && c == "</f\U{131}lename>"
    ensures ExtractFilename(o + "x" + c) == Filename("x")
  {
    DotlessTagsFold(o, c);
    SpelledTagReply(o, "x", c);
    TrimSpaceNoSpace("x");
  }

  lemma DotlessTagsFold(o: string, c: string)
    requires o == "<f\U{131}lename>" && c == "</f\U{131}lename>"
    ensures Fold(o) == OpenTag && Fold(c) == CloseTag
  {
    assert FoldChar('\U{131}') == 'i';
    assert Fold(o) == [FoldChar('<'), FoldChar('f'), 'i', FoldChar('l'), FoldChar('e'), FoldChar('n'), FoldChar('a'), FoldChar('m'), FoldChar('e'), FoldChar('>')];
    assert Fold(c) == [FoldChar('<'), FoldChar('/'), FoldChar('f'), 'i', FoldChar('l'), FoldChar('e'), FoldChar('n'), FoldChar('a'), FoldChar('m'), FoldChar('e'), FoldChar('>')];
  }

  lemma NoTagWithoutBracket(response: string)
    requires '<' !in response
    ensures forall i, j :: !TagMatch(response, i, j)
  {
    OccursAtCIHead(response, OpenTag);
  }

  /** A reply with no '<' at all is rejected with HTTP 400. */
  lemma NoBracketsRejected(response: string)
    requires '<' !in response
    ensures ExtractFilename(response) == HttpException(400, InvalidFormat)
  {
    NoTagWithoutBracket(response);
    ExtractFilenameFails(response);
  }
}
