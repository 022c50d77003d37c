/** The promises of the route matrix, path by path: which requests are served, as what. */
module ServedRoutes {
  import opened Wrappers
  import opened Text
  import opened Routes
  import opened RouteMatrix

  // The request is handled, by a row of that capability and status, with those parameters.
  ghost predicate Serves(d: Dispatch, capability: string, status: RouteStatus, params: Params) {
    && d.Handled? && d.row < |Matrix()| && d.params == params
    && Matrix()[d.row].capability == capability && Matrix()[d.row].status == status
  }

  ghost predicate Dispatched(httpMethod: string, path: string, d: Dispatch) {
    Routes.Answers(d, Matrix(), httpMethod, path)
  }

  lemma JoinTwo(a: string, b: string)
    ensures JoinPath([a, b]) == "/" + a + "/" + b
  {
    assert [a, b][1..] == [b] && [b][1..] == [];
    assert JoinPath([b]) == "/" + b;
  }

  lemma JoinThree(a: string, b: string, c: string)
    ensures JoinPath([a, b, c]) == "/" + a + "/" + b + "/" + c
  {
    assert [a, b, c][1..] == [b, c];
    JoinTwo(b, c);
    assert JoinPath([a, b, c]) == "/" + a + ("/" + b + "/" + c);
  }

  // What the row that fits a path makes of it.
  lemma RowServes(d: Dispatch, i: nat, segments: seq<string>)
    requires i < ROWS && AllPlain(segments) && FitsAll(RouteAt(i).segments, segments)
    requires Dispatched(RouteAt(i).httpMethod, JoinPath(segments), d)
    ensures d.Handled? && d.row == i && i < |Matrix()|
    ensures Matrix()[i].capability == RouteAt(i).capability && Matrix()[i].status == RouteAt(i).status
    ensures MatchPath(Matrix()[i].pattern, JoinPath(segments)) == Some(d.params)
  {
    hide RouteAt, Hits, FitsAll, SplitRoutePath, MatchPath, JoinPath, PatternText;
    MatrixShape();
    SplitRoutePathJoined(segments);
    RowHits(i, JoinPath(segments));
    AnswerKinds(d, Matrix(), RouteAt(i).httpMethod, JoinPath(segments));
    RowOf(i);
    HandledRow(d, RouteAt(i).httpMethod, JoinPath(segments));
    HandledHits(d, RouteAt(i).httpMethod, JoinPath(segments));
    MatrixUnambiguous();
  }

  lemma RowOf(i: nat)
    requires i < ROWS
    ensures i < |Matrix()| && Matrix()[i] == Described(RouteAt(i))
  {
    hide RouteAt, Described;
  }

  lemma HandledHits(d: Dispatch, httpMethod: string, path: string)
    requires d.Handled? && Routes.Answers(d, Matrix(), httpMethod, path)
    ensures d.row < |Matrix()| && Hits(Matrix()[d.row], path)
  {
    hide Matrix, MatchPath;
  }

  // A row of fixed segments takes no parameters.
  lemma {:induction false} FixedParams(segments: seq<string>)
    requires forall k :: 0 <= k < |segments| ==> NoBraces(segments[k])
    ensures MatchSegments(segments, segments) == Some(map[])
  {
    if segments != [] {
      var n := |segments| - 1;
      FixedParams(segments[..n]);
      LiteralMatches(segments[n], segments[n]);
    }
  }

  predicate AllFixed(segments: seq<Segment>, ss: seq<string>) {
    |segments| == |ss| && forall k :: 0 <= k < |ss| ==> segments[k] == Fixed(ss[k]) && WellFormed(segments[k])
  }

  // A path of fixed segments is served by its row, without parameters.
  lemma FixedServes(d: Dispatch, i: nat, ss: seq<string>, httpMethod: string, capability: string, status: RouteStatus)
    requires i < ROWS && AllFixed(RouteAt(i).segments, ss) && RouteAt(i).httpMethod == httpMethod
    requires RouteAt(i).capability == capability && RouteAt(i).status == status
    requires Dispatched(httpMethod, JoinPath(ss), d)
    ensures Serves(d, capability, status, map[])
  {
    hide RouteAt, Matrix, MatchSegments, JoinPath, SplitRoutePath, Routes.Answers, Described;
    FixedFits(RouteAt(i).segments, ss);
    RowServes(d, i, ss);
    RowOf(i);
    FixedParams(ss);
    DescribedPattern(RouteAt(i));
    FixedTexts(RouteAt(i).segments, ss);
    SplitRoutePathJoined(ss);
  }

  lemma FixedFits(segments: seq<Segment>, ss: seq<string>)
    requires AllFixed(segments, ss)
    ensures AllPlain(ss) && FitsAll(segments, ss)
    ensures forall k :: 0 <= k < |ss| ==> NoBraces(ss[k])
  {
    forall k | 0 <= k < |ss| ensures Plain(ss[k]) && NoBraces(ss[k]) {
      assert WellFormed(segments[k]) && segments[k] == Fixed(ss[k]);
    }
  }

  lemma FixedTexts(segments: seq<Segment>, ss: seq<string>)
    requires AllFixed(segments, ss)
    ensures Texts(segments) == ss
  {
  }

  lemma DescribedPattern(r: Route)
    ensures Described(r).pattern == JoinPath(Texts(r.segments))
  {
  }

  // Every dispatch of that method over the path of those segments is served so.
  ghost predicate Served(
      httpMethod: string, ss: seq<string>, capability: string, status: RouteStatus, params: Params) {
    forall d: Dispatch :: Dispatched(httpMethod, JoinPath(ss), d) ==> Serves(d, capability, status, params)
  }

  lemma FixedServed(i: nat, ss: seq<string>, httpMethod: string, capability: string, status: RouteStatus)
    requires i < ROWS && AllFixed(RouteAt(i).segments, ss) && RouteAt(i).httpMethod == httpMethod
    requires RouteAt(i).capability == capability && RouteAt(i).status == status
    ensures Served(httpMethod, ss, capability, status, map[])
  {
    hide RouteAt, Dispatched, Serves, AllFixed, JoinPath;
    forall d: Dispatch | Dispatched(httpMethod, JoinPath(ss), d) ensures Serves(d, capability, status, map[]) {
      FixedServes(d, i, ss, httpMethod, capability, status);
    }
  }

  lemma RelayPaths()
    ensures JoinPath(["v1", "chat", "completions"]) == "/v1/chat/completions"
    ensures JoinPath(["v1", "completions"]) == "/v1/completions"
  {
    hide JoinPath;
    JoinThree("v1", "chat", "completions");
    JoinTwo("v1", "completions");
    assert "/" + "v1" + "/" + "chat" + "/" + "completions" == "/v1/chat/completions";
  }

  // The two relays.
  lemma RelaysServed()
    ensures JoinPath(["v1", "chat", "completions"]) == "/v1/chat/completions"
    ensures JoinPath(["v1", "completions"]) == "/v1/completions"
    ensures Served("POST", ["v1", "chat", "completions"], "openai.chat_completions", Implemented, map[])
    ensures Served("POST", ["v1", "completions"], "openai.completions", Implemented, map[])
  {
    hide Served, Clean, JoinPath;
    RelayPaths();
    CleanWords();
    FixedServed(0, ["v1", "chat", "completions"], "POST", "openai.chat_completions", Implemented);
    FixedServed(1, ["v1", "completions"], "POST", "openai.completions", Implemented);
  }

  // The three listings.
  lemma ListingsServed()
    ensures Served("GET", ["v1", "models"], "metadata.models", RouteStatus.Metadata, map[])
    ensures Served("GET", ["v1beta", "models"], "metadata.models", RouteStatus.Metadata, map[])
    ensures Served("GET", ["v1beta", "openai", "models"], "metadata.models", RouteStatus.Metadata, map[])
  {
    hide Served, Clean;
    CleanWords();
    FixedServed(2, ["v1", "models"], "GET", "metadata.models", RouteStatus.Metadata);
    FixedServed(4, ["v1beta", "models"], "GET", "metadata.models", RouteStatus.Metadata);
    FixedServed(5, ["v1beta", "openai", "models"], "GET", "metadata.models", RouteStatus.Metadata);
  }

  // Recognised but not implemented: text.
  lemma TextRoutesServed()
    ensures Served("POST", ["v1", "responses"], "openai.responses", RouteStatus.Unsupported, map[])
    ensures Served("POST", ["v1", "responses", "compact"], "openai.responses", RouteStatus.Unsupported, map[])
    ensures Served("POST", ["v1", "embeddings"], "openai.embeddings", RouteStatus.Unsupported, map[])
    ensures Served("POST", ["v1", "rerank"], "openai.rerank", RouteStatus.Unsupported, map[])
    ensures Served("POST", ["v1", "messages"], "claude.messages", RouteStatus.Unsupported, map[])
  {
    hide Served, Clean;
    CleanWords();
    CleanMediaWords();
    CleanOtherWords();
    FixedServed(6, ["v1", "responses"], "POST", "openai.responses", RouteStatus.Unsupported);
    FixedServed(7, ["v1", "responses", "compact"], "POST", "openai.responses", RouteStatus.Unsupported);
    FixedServed(8, ["v1", "embeddings"], "POST", "openai.embeddings", RouteStatus.Unsupported);
    FixedServed(14, ["v1", "rerank"], "POST", "openai.rerank", RouteStatus.Unsupported);
    FixedServed(15, ["v1", "messages"], "POST", "claude.messages", RouteStatus.Unsupported);
  }

  lemma ImageRoutesServed()
    ensures Served("POST", ["v1", "images", "generations"], "openai.images", RouteStatus.Unsupported, map[])
    ensures Served("POST", ["v1", "images", "edits"], "openai.images", RouteStatus.Unsupported, map[])
  {
    hide Served, Clean;
    CleanWords();
    CleanMediaWords();
    FixedServed(9, ["v1", "images", "generations"], "POST", "openai.images", RouteStatus.Unsupported);
    FixedServed(10, ["v1", "images", "edits"], "POST", "openai.images", RouteStatus.Unsupported);
  }

  lemma AudioRoutesServed()
    ensures Served("POST", ["v1", "audio", "transcriptions"], "openai.audio", RouteStatus.Unsupported, map[])
    ensures Served("POST", ["v1", "audio", "translations"], "openai.audio", RouteStatus.Unsupported, map[])
    ensures Served("POST", ["v1", "audio", "speech"], "openai.audio", RouteStatus.Unsupported, map[])
  {
    hide Served, Clean;
    CleanWords();
    CleanMediaWords();
    FixedServed(11, ["v1", "audio", "transcriptions"], "POST", "openai.audio", RouteStatus.Unsupported);
    FixedServed(12, ["v1", "audio", "translations"], "POST", "openai.audio", RouteStatus.Unsupported);
    FixedServed(13, ["v1", "audio", "speech"], "POST", "openai.audio", RouteStatus.Unsupported);
  }

  // Sessions and tasks.
  lemma TaskRoutesServed()
    ensures Served("GET", ["v1", "realtime"], "realtime", RouteStatus.Unsupported, map[])
    ensures Served("POST", ["v1", "tasks", "video"], "task.video", RouteStatus.Unsupported, map[])
    ensures Served("POST", ["v1", "videos", "generations"], "task.video", RouteStatus.Unsupported, map[])
  {
    hide Served, Clean;
    CleanWords();
    CleanMediaWords();
    CleanOtherWords();
    FixedServed(18, ["v1", "realtime"], "GET", "realtime", RouteStatus.Unsupported);
    FixedServed(19, ["v1", "tasks", "video"], "POST", "task.video", RouteStatus.Unsupported);
    FixedServed(21, ["v1", "videos", "generations"], "POST", "task.video", RouteStatus.Unsupported);
  }

  // ---------- Paths with a parameter ----------

  // A value that fits a segment and can be decoded.
  ghost predicate Decodable(value: string) {
    Plain(value) && PathUnescape(value).Some?
  }

  // Served for every such value before the suffix, with the decoded value as its parameter.
  ghost predicate ServedWith(
      httpMethod: string, a: string, b: string, name: string, suffix: string, capability: string, status: RouteStatus) {
    forall value: string | Decodable(value) ::
      Served(httpMethod, [a, b, value + suffix], capability, status, map[name := PathUnescape(value).value])
  }

  lemma ParamServes(
      d: Dispatch, i: nat, a: string, b: string, name: string, suffix: string, value: string,
      httpMethod: string, capability: string, status: RouteStatus)
    requires i < ROWS && RouteAt(i) == Route(httpMethod, [Fixed(a), Fixed(b), Param(name, suffix)], capability, status)
    requires WellFormed(Fixed(a)) && WellFormed(Fixed(b)) && WellFormed(Param(name, suffix)) && Decodable(value)
    requires Dispatched(httpMethod, JoinPath([a, b, value + suffix]), d)
    ensures Serves(d, capability, status, map[name := PathUnescape(value).value])
  {
    hide RouteAt, Matrix, MatchSegments, JoinPath, SplitRoutePath, Routes.Answers, Described, MatchRouteSegment, Hits,
      PathUnescape, Trim, Split;
    var ss := [a, b, value + suffix];
    ParamPlain(a, b, name, suffix, value);
    RowServes(d, i, ss);
    RowOf(i);
    DescribedPattern(RouteAt(i));
    var texts := Texts(RouteAt(i).segments);
    assert texts == [a, b, ParamPattern("", name, suffix)];
    SplitRoutePathJoined(ss);
    SplitRoutePathJoined(texts);
    LiteralMatches(a, a);
    LiteralMatches(b, b);
    ParamMatches(name, suffix, value + suffix);
    ThreeSegments(texts, ss, name, value);
  }

  lemma ParamServed(
      i: nat, a: string, b: string, name: string, suffix: string, httpMethod: string, capability: string,
      status: RouteStatus)
    requires i < ROWS && RouteAt(i) == Route(httpMethod, [Fixed(a), Fixed(b), Param(name, suffix)], capability, status)
    requires WellFormed(Fixed(a)) && WellFormed(Fixed(b)) && WellFormed(Param(name, suffix))
    ensures ServedWith(httpMethod, a, b, name, suffix, capability, status)
  {
    hide RouteAt, Dispatched, Serves, WellFormed, JoinPath, PathUnescape;
    forall value: string, d: Dispatch | Decodable(value) && Dispatched(httpMethod, JoinPath([a, b, value + suffix]), d)
      ensures Serves(d, capability, status, map[name := PathUnescape(value).value])
    {
      ParamServes(d, i, a, b, name, suffix, value, httpMethod, capability, status);
    }
  }

  lemma ParamPlain(a: string, b: string, name: string, suffix: string, value: string)
    requires WellFormed(Fixed(a)) && WellFormed(Fixed(b)) && WellFormed(Param(name, suffix)) && Decodable(value)
    ensures AllPlain([a, b, value + suffix]) && AllPlain([a, b, ParamPattern("", name, suffix)])
    ensures NoBraces(a) && NoBraces(b) && NoBraces(name)
    ensures FitsAll([Fixed(a), Fixed(b), Param(name, suffix)], [a, b, value + suffix])
  {
    hide PathUnescape;
    var s := value + suffix;
    assert s[..|s| - |suffix|] == value && s[|s| - |suffix|..] == suffix;
  }

  lemma ThreeSegments(texts: seq<string>, segments: seq<string>, name: string, value: string)
    requires |texts| == |segments| == 3
    requires MatchRouteSegment(texts[0], segments[0]) == Exact && MatchRouteSegment(texts[1], segments[1]) == Exact
    requires MatchRouteSegment(texts[2], segments[2]) == Bound(name, value) && PathUnescape(value).Some?
    ensures MatchSegments(texts, segments) == Some(map[name := PathUnescape(value).value])
  {
    hide MatchRouteSegment, PathUnescape;
    assert texts[..2][..1] == texts[..1] && segments[..2][..1] == segments[..1];
    assert MatchSegments(texts[..1], segments[..1]) == Some(map[]);
    assert MatchSegments(texts[..2], segments[..2]) == Some(map[]);
  }

  lemma ParamRoutesServed()
    ensures ServedWith("GET", "v1", "models", "model", "", "metadata.models", RouteStatus.Metadata)
    ensures ServedWith("GET", "v1", "tasks", "task_id", "", "task.video", RouteStatus.Unsupported)
    ensures ServedWith("GET", "v1", "videos", "task_id", "", "task.video", RouteStatus.Unsupported)
  {
    hide ServedWith, Clean;
    CleanWords();
    CleanOtherWords();
    ParamServed(3, "v1", "models", "model", "", "GET", "metadata.models", RouteStatus.Metadata);
    ParamServed(20, "v1", "tasks", "task_id", "", "GET", "task.video", RouteStatus.Unsupported);
    ParamServed(22, "v1", "videos", "task_id", "", "GET", "task.video", RouteStatus.Unsupported);
  }

  lemma GenerateRoutesServed()
    ensures ServedWith("POST", "v1beta", "models", "model", ":generateContent", "gemini.generate", RouteStatus.Unsupported)
    ensures ServedWith(
              "POST", "v1beta", "models", "model", ":streamGenerateContent", "gemini.generate", RouteStatus.Unsupported)
  {
    hide ServedWith, Clean;
    CleanWords();
    CleanOtherWords();
    ParamServed(16, "v1beta", "models", "model", ":generateContent", "POST", "gemini.generate", RouteStatus.Unsupported);
    ParamServed(17, "v1beta", "models", "model", ":streamGenerateContent", "POST", "gemini.generate",
                RouteStatus.Unsupported);
  }
}
