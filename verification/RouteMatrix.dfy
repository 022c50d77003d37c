/** The relay's own route matrix: what its patterns match, and that no two rows compete. */
module RouteMatrix {
  import opened Wrappers
  import opened Text
  import opened Routes

  // A pattern segment: fixed text, or a parameter with a fixed suffix.
  datatype Segment = Fixed(text: string) | Param(name: string, suffix: string)

  datatype Route = Route(httpMethod: string, segments: seq<Segment>, capability: string, status: RouteStatus)

  const ROWS: nat := 23

  function Metadata(httpMethod: string, segments: seq<Segment>): Route {
    Route(httpMethod, segments, "metadata.models", RouteStatus.Metadata)
  }

  function Unsupported(httpMethod: string, segments: seq<Segment>, capability: string): Route {
    Route(httpMethod, segments, capability, RouteStatus.Unsupported)
  }

  function RouteAt(i: nat): Route
    requires i < ROWS
  {
    match i
    case 0 => Route("POST", [Fixed("v1"), Fixed("chat"), Fixed("completions")], "openai.chat_completions", Implemented)
    case 1 => Route("POST", [Fixed("v1"), Fixed("completions")], "openai.completions", Implemented)
    case 2 => Metadata("GET", [Fixed("v1"), Fixed("models")])
    case 3 => Metadata("GET", [Fixed("v1"), Fixed("models"), Param("model", "")])
    case 4 => Metadata("GET", [Fixed("v1beta"), Fixed("models")])
    case 5 => Metadata("GET", [Fixed("v1beta"), Fixed("openai"), Fixed("models")])
    case 6 => Unsupported("POST", [Fixed("v1"), Fixed("responses")], "openai.responses")
    case 7 => Unsupported("POST", [Fixed("v1"), Fixed("responses"), Fixed("compact")], "openai.responses")
    case 8 => Unsupported("POST", [Fixed("v1"), Fixed("embeddings")], "openai.embeddings")
    case 9 => Unsupported("POST", [Fixed("v1"), Fixed("images"), Fixed("generations")], "openai.images")
    case 10 => Unsupported("POST", [Fixed("v1"), Fixed("images"), Fixed("edits")], "openai.images")
    case 11 => Unsupported("POST", [Fixed("v1"), Fixed("audio"), Fixed("transcriptions")], "openai.audio")
    case 12 => Unsupported("POST", [Fixed("v1"), Fixed("audio"), Fixed("translations")], "openai.audio")
    case 13 => Unsupported("POST", [Fixed("v1"), Fixed("audio"), Fixed("speech")], "openai.audio")
    case 14 => Unsupported("POST", [Fixed("v1"), Fixed("rerank")], "openai.rerank")
    case 15 => Unsupported("POST", [Fixed("v1"), Fixed("messages")], "claude.messages")
    case 16 => Unsupported("POST", [Fixed("v1beta"), Fixed("models"), Param("model", ":generateContent")], "gemini.generate")
    case 17 => Unsupported("POST", [Fixed("v1beta"), Fixed("models"), Param("model", ":streamGenerateContent")], "gemini.generate")
    case 18 => Unsupported("GET", [Fixed("v1"), Fixed("realtime")], "realtime")
    case 19 => Unsupported("POST", [Fixed("v1"), Fixed("tasks"), Fixed("video")], "task.video")
    case 20 => Unsupported("GET", [Fixed("v1"), Fixed("tasks"), Param("task_id", "")], "task.video")
    case 21 => Unsupported("POST", [Fixed("v1"), Fixed("videos"), Fixed("generations")], "task.video")
    case 22 => Unsupported("GET", [Fixed("v1"), Fixed("videos"), Param("task_id", "")], "task.video")
  }

  function PatternText(seg: Segment): string {
    match seg
    case Fixed(text) => text
    case Param(name, suffix) => ParamPattern("", name, suffix)
  }

  function Texts(segments: seq<Segment>): seq<string> {
    seq(|segments|, k requires 0 <= k < |segments| => PatternText(segments[k]))
  }

  function Described(r: Route): Descriptor {
    Descriptor(r.httpMethod, JoinPath(Texts(r.segments)), r.capability, r.status)
  }

  function Matrix(): seq<Descriptor> {
    seq(ROWS, i requires 0 <= i < ROWS => Described(RouteAt(i)))
  }

  // ---------- What a row matches ----------

  // A fixed segment matches itself; a parameter matches a non-empty, decodable value followed
  // by its suffix.
  predicate Fits(seg: Segment, s: string) {
    match seg
    case Fixed(text) => s == text
    case Param(_, suffix) =>
      |s| > |suffix| && HasSuffix(s, suffix) && PathUnescape(s[..|s| - |suffix|]).Some?
  }

  ghost predicate FitsAll(segments: seq<Segment>, ss: seq<string>) {
    |segments| == |ss| && forall k :: 0 <= k < |ss| ==> Fits(segments[k], ss[k])
  }

  // Text free of the characters that mean something in a pattern.
  predicate Clean(s: string) {
    forall k :: 0 <= k < |s| ==> s[k] != '/' && s[k] != '{' && s[k] != '}'
  }

  predicate WellFormed(seg: Segment) {
    match seg
    case Fixed(text) => text != "" && Clean(text)
    case Param(name, suffix) => name != "" && Clean(name) && Clean(suffix)
  }

  predicate RowWellFormed(segments: seq<Segment>) {
    forall k :: 0 <= k < |segments| ==> WellFormed(segments[k])
  }

  lemma CleanWords()
    ensures Clean("v1") && Clean("v1beta") && Clean("chat") && Clean("completions") && Clean("models")
    ensures Clean("openai") && Clean("responses") && Clean("compact") && Clean("embeddings")
  {
  }

  lemma CleanMediaWords()
    ensures Clean("images") && Clean("generations") && Clean("edits") && Clean("audio")
    ensures Clean("transcriptions") && Clean("translations") && Clean("speech") && Clean("rerank")
  {
  }

  lemma CleanOtherWords()
    ensures Clean("messages") && Clean("realtime") && Clean("tasks") && Clean("video") && Clean("videos")
    ensures Clean("model") && Clean("task_id") && Clean("") && Clean(":generateContent")
    ensures Clean(":streamGenerateContent")
  {
  }

  lemma RowsWellFormed(i: nat)
    requires i < ROWS
    ensures RowWellFormed(RouteAt(i).segments)
  {
    if i < 12 {
      EarlyRowsWellFormed(i);
    } else {
      LateRowsWellFormed(i);
    }
  }

  lemma EarlyRowsWellFormed(i: nat)
    requires i < 12
    ensures RowWellFormed(RouteAt(i).segments)
  {
    hide Clean;
    CleanWords();
    CleanMediaWords();
    CleanOtherWords();
  }

  lemma LateRowsWellFormed(i: nat)
    requires 12 <= i < ROWS
    ensures RowWellFormed(RouteAt(i).segments)
  {
    hide Clean;
    CleanWords();
    CleanMediaWords();
    CleanOtherWords();
  }

  lemma SegmentFits(seg: Segment, s: string)
    requires WellFormed(seg)
    ensures SegmentMatches(PatternText(seg), s) <==> Fits(seg, s)
    ensures Plain(PatternText(seg))
  {
    hide MatchRouteSegment, PathUnescape, HasSuffix;
    match seg
    case Fixed(text) =>
      LiteralMatches(text, s);
    case Param(name, suffix) =>
      var m := MatchRouteSegment(PatternText(seg), s);
      ParamMatches(name, suffix, s);
      SuffixSplits(s, suffix);
      if m.Bound? {
        assert s[..|s| - |suffix|] == m.value;
      }
  }

  lemma SuffixSplits(s: string, suffix: string)
    ensures HasSuffix(s, suffix) <==> |suffix| <= |s| && s == s[..|s| - |suffix|] + suffix
    ensures forall value :: s == value + suffix ==> HasSuffix(s, suffix) && s[..|s| - |suffix|] == value
  {
  }

  lemma RowHits(i: nat, path: string)
    requires i < ROWS
    ensures Hits(Matrix()[i], path) <==> FitsAll(RouteAt(i).segments, SplitRoutePath(path))
  {
    hide RouteAt, PatternText, SegmentMatches, WellFormed, Fits, SplitRoutePath, MatchSegments, Plain;
    var segments, ss := RouteAt(i).segments, SplitRoutePath(path);
    var texts := Texts(segments);
    RowsWellFormed(i);
    forall k | 0 <= k < |segments|
      ensures Plain(texts[k])
    {
      SegmentFits(segments[k], "");
    }
    forall k: nat, s: string | k < |segments|
      ensures SegmentMatches(texts[k], s) <==> Fits(segments[k], s)
    {
      SegmentFits(segments[k], s);
    }
    SplitRoutePathJoined(texts);
    if |texts| == |ss| {
      MatchesPointwise(texts, ss);
    }
  }

  // ---------- No two rows compete ----------

  // A decision on the method and the segments that names the only row that can apply.
  function Classify(httpMethod: string, ss: seq<string>): nat {
    if |ss| == 2 then
      if httpMethod == "GET" then
        if ss[0] == "v1beta" then 4 else if ss[1] == "models" then 2 else 18
      else if ss[1] == "completions" then 1
      else if ss[1] == "responses" then 6
      else if ss[1] == "embeddings" then 8
      else if ss[1] == "rerank" then 14
      else 15
    else if |ss| == 3 then
      if httpMethod == "GET" then
        if ss[0] == "v1beta" then 5
        else if ss[1] == "models" then 3
        else if ss[1] == "tasks" then 20
        else 22
      else if ss[0] == "v1beta" then if HasSuffix(ss[2], ":generateContent") then 16 else 17
      else if ss[1] == "chat" then 0
      else if ss[1] == "responses" then 7
      else if ss[1] == "images" then if ss[2] == "generations" then 9 else 10
      else if ss[1] == "audio" then
        if ss[2] == "transcriptions" then 11 else if ss[2] == "translations" then 12 else 13
      else if ss[1] == "tasks" then 19
      else 21
    else ROWS
  }

  lemma SuffixesDiffer(s: string)
    requires HasSuffix(s, ":streamGenerateContent")
    ensures !HasSuffix(s, ":generateContent")
  {
    assert s[|s| - 16..][0] == s[|s| - 22..][6] == 'm';
  }

  lemma RowClassified(i: nat, ss: seq<string>)
    requires i < ROWS && FitsAll(RouteAt(i).segments, ss)
    ensures Classify(RouteAt(i).httpMethod, ss) == i
  {
    if i < 8 {
      FirstRowsClassified(i, ss);
    } else if i < 16 {
      MiddleRowsClassified(i, ss);
    } else {
      LastRowsClassified(i, ss);
    }
  }

  lemma FirstRowsClassified(i: nat, ss: seq<string>)
    requires i < 8 && FitsAll(RouteAt(i).segments, ss)
    ensures Classify(RouteAt(i).httpMethod, ss) == i
  {
    hide PathUnescape, HasSuffix;
  }

  lemma MiddleRowsClassified(i: nat, ss: seq<string>)
    requires 8 <= i < 16 && FitsAll(RouteAt(i).segments, ss)
    ensures Classify(RouteAt(i).httpMethod, ss) == i
  {
    hide PathUnescape, HasSuffix;
  }

  lemma LastRowsClassified(i: nat, ss: seq<string>)
    requires 16 <= i < ROWS && FitsAll(RouteAt(i).segments, ss)
    ensures Classify(RouteAt(i).httpMethod, ss) == i
  {
    hide PathUnescape, HasSuffix;
    if i == 17 {
      SuffixesDiffer(ss[2]);
    }
  }

  // For every method and path at most one row of the matrix matches, so the order of its rows
  // does not matter.
  lemma MatrixUnambiguous()
    ensures Unambiguous(Matrix())
  {
    forall i, j, path: string | 0 <= i < j < ROWS && Matrix()[i].httpMethod == Matrix()[j].httpMethod
      ensures !Hits(Matrix()[i], path) || !Hits(Matrix()[j], path)
    {
      RowHits(i, path);
      RowHits(j, path);
      if Hits(Matrix()[i], path) && Hits(Matrix()[j], path) {
        RowClassified(i, SplitRoutePath(path));
        RowClassified(j, SplitRoutePath(path));
        assert false;
      }
    }
  }

  lemma HandledRow(d: Dispatch, httpMethod: string, path: string)
    requires d.Handled? && Routes.Answers(d, Matrix(), httpMethod, path)
    ensures d.row < ROWS && Matrix()[d.row].httpMethod == httpMethod
    ensures MatchPath(Matrix()[d.row].pattern, path) == Some(d.params)
  {
    MatrixShape();
  }

  lemma MatrixShape()
    ensures |Matrix()| == ROWS && Matrix()[3].httpMethod == "GET"
  {
  }
}
