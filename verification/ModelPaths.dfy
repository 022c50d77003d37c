/** What the route matcher answers to a GET for one model, given the path the router sees. */
module ModelPaths {
  import opened Wrappers
  import opened Text
  import opened Routes
  import opened RouteMatrix

  function ModelPath(text: string): string {
    "/v1/models/" + text
  }

  lemma PathOfSegments(text: string)
    ensures JoinPath(["v1", "models", text]) == ModelPath(text)
  {
    assert ["v1", "models", text][1..] == ["models", text];
    assert ["models", text][1..] == [text];
    assert [text][1..] == [];
    assert JoinPath([text]) == "/" + text;
    assert JoinPath(["models", text]) == "/models" + ("/" + text);
    assert JoinPath(["v1", "models", text]) == "/v1" + ("/models" + ("/" + text));
    assert "/v1" + ("/models" + ("/" + text)) == ("/v1" + "/models" + "/") + text;
    assert "/v1" + "/models" + "/" == "/v1/models/";
  }

  // ---------- What the metadata row answers ----------

  lemma MetadataRow(path: string, text: string)
    requires SplitRoutePath(path) == ["v1", "models", text] && text != ""
    ensures |Matrix()| == ROWS
    ensures MatchPath(Matrix()[3].pattern, path) ==
            match PathUnescape(text)
            case None => None
            case Some(name) => Some(map["model" := name])
  {
    hide Trim, PathUnescape, Split, MatchRouteSegment, JoinPath, SplitRoutePath;
    var segments := ["v1", "models", text];
    var texts := ["v1", "models", ParamPattern("", "model", "")];
    SplitRoutePathJoined(texts);
    assert Texts(RouteAt(3).segments) == texts;
    LiteralMatches("v1", "v1");
    LiteralMatches("models", "models");
    ParamMatches("model", "", text);
    assert text == text + "";
    ModelSegments(texts, segments);
  }

  lemma ModelSegments(texts: seq<string>, segments: seq<string>)
    requires |texts| == |segments| == 3
    requires MatchRouteSegment(texts[0], segments[0]) == Exact && MatchRouteSegment(texts[1], segments[1]) == Exact
    requires MatchRouteSegment(texts[2], segments[2]) == Bound("model", segments[2])
    ensures MatchSegments(texts, segments) ==
            match PathUnescape(segments[2])
            case None => None
            case Some(name) => Some(map["model" := name])
  {
    assert texts[..2][..1] == texts[..1] && segments[..2][..1] == segments[..1];
    assert MatchSegments(texts[..1], segments[..1]) == Some(map[]);
    assert MatchSegments(texts[..2], segments[..2]) == Some(map[]);
  }

  // Whatever hits such a path is the metadata row.
  lemma OnlyMetadataRow(i: nat, path: string, text: string)
    requires i < ROWS && SplitRoutePath(path) == ["v1", "models", text]
    ensures Hits(Matrix()[i], path) ==> i == 3
  {
    hide PathUnescape, SplitRoutePath, Hits, Matrix;
    RowHits(i, path);
    var ss := SplitRoutePath(path);
    if FitsAll(RouteAt(i).segments, ss) {
      RowClassified(i, ss);
      assert RouteAt(i).httpMethod == "GET" || RouteAt(i).httpMethod == "POST";
      assert RouteAt(i).segments[1] == Fixed("models");
    }
  }

  // The answer to GET for a name that fits one segment: the name decoded once more, or nothing
  // when its percent signs do not spell an escape.
  lemma DecodedAgain(d: Dispatch, text: string)
    requires Plain(text) && Routes.Answers(d, Matrix(), "GET", ModelPath(text))
    ensures d == match PathUnescape(text)
                 case None => NotFound
                 case Some(name) => Handled(3, map["model" := name])
  {
    hide Routes.Answers, MatchPath, Matrix, PathUnescape, SplitRoutePath, JoinPath, ModelPath;
    var path := ModelPath(text);
    assert AllPlain(["v1", "models", text]);
    PathOfSegments(text);
    SplitRoutePathJoined(["v1", "models", text]);
    MatrixShape();
    MetadataRow(path, text);
    AnswerKinds(d, Matrix(), "GET", path);
    forall i | 0 <= i < ROWS
      ensures Hits(Matrix()[i], path) ==> i == 3
    {
      OnlyMetadataRow(i, path, text);
    }
    if PathUnescape(text).Some? {
      assert Hits(Matrix()[3], path);
      HandledRow(d, "GET", path);
    }
  }

  // ---------- When a model is reached under its own name ----------

  // A three-segment path that starts like a model path ends in text no longer than what was asked for.
  lemma LastSegment(path: string, asked: string, text: string)
    requires path == ModelPath(asked) && SplitRoutePath(path) == ["v1", "models", text]
    ensures |text| <= |asked| && '/' !in text
    ensures |text| == |asked| ==> text == asked
  {
    hide Trim, Split, JoinPath;
    var t := Trim(path, Slashes);
    assert path == ['/'] + path[1..];
    TrimIgnoresFront('/', path[1..], Slashes);
    TrimmedFixed(path[1..], Slashes);
    JoinSplit(t);
    PiecesPlain(t, '/');
    PathOfSegments(text);
    assert "/" + t == ModelPath(text);
    assert |t| <= |path| - 1;
    if |text| == |asked| {
      assert t == path[1..];
      assert text == ModelPath(text)[11..] == ModelPath(asked)[11..] == asked;
    }
  }

  lemma HandledText(d: Dispatch, path: string, name: string) returns (text: string)
    requires d == Handled(3, map["model" := name]) && Routes.Answers(d, Matrix(), "GET", path)
    ensures SplitRoutePath(path) == ["v1", "models", text] && PathUnescape(text) == Some(name)
  {
    hide PathUnescape, SplitRoutePath, MatchSegments, Trim, Split;
    HandledRow(d, "GET", path);
    assert Hits(Matrix()[3], path);
    RowHits(3, path);
    var ss := SplitRoutePath(path);
    text := ss[2];
    assert ss == ["v1", "models", text];
    MetadataRow(path, text);
    var params: Params := map["model" := name];
    assert params["model"] == name;
    if PathUnescape(text).Some? {
      var found: Params := map["model" := PathUnescape(text).value];
      assert found["model"] == PathUnescape(text).value;
      assert found == params;
    }
  }

  // A model path is answered with the metadata of that very name exactly when the name holds
  // neither a slash nor a percent sign.
  lemma NamedExactly(d: Dispatch, model: string)
    requires model != "" && Routes.Answers(d, Matrix(), "GET", ModelPath(model))
    ensures d == Handled(3, map["model" := model]) <==> '/' !in model && '%' !in model
  {
    hide Routes.Answers, Matrix, ModelPath, PathUnescape, SplitRoutePath;
    UnescapeShortens(model);
    if '/' !in model && '%' !in model {
      DecodedAgain(d, model);
    }
    if d == Handled(3, map["model" := model]) {
      var text := HandledText(d, ModelPath(model), model);
      LastSegment(ModelPath(model), model, text);
      UnescapeShortens(text);
    }
  }

  // ---------- Paths that are too long ----------

  lemma LongPathsMiss(d: Dispatch, httpMethod: string, path: string)
    requires |SplitRoutePath(path)| > 3 && Routes.Answers(d, Matrix(), httpMethod, path)
    ensures d == NotFound
  {
    hide SplitRoutePath, Hits, MatchPath, Matrix, RouteAt;
    MatrixShape();
    AnswerKinds(d, Matrix(), httpMethod, path);
    forall i | 0 <= i < ROWS
      ensures !Hits(Matrix()[i], path)
    {
      RowHits(i, path);
      RowsShort(i);
    }
  }

  lemma RowsShort(i: nat)
    requires i < ROWS
    ensures |RouteAt(i).segments| <= 3
  {
  }

  lemma FourJoined()
    ensures JoinPath(["v1", "models", "a", "b"]) == ModelPath("a/b")
  {
    var ss := ["v1", "models", "a", "b"];
    assert ss[1..] == ["models", "a", "b"];
    assert ["models", "a", "b"][1..] == ["a", "b"];
    assert ["a", "b"][1..] == ["b"];
    assert ["b"][1..] == [];
    assert JoinPath(ss) == "/" + "v1" + ("/" + "models" + ("/" + "a" + ("/" + "b" + "")));
  }

  lemma FourSegments()
    ensures |SplitRoutePath(ModelPath("a/b"))| == 4
  {
    hide SplitRoutePath, JoinPath, ModelPath;
    assert AllPlain(["v1", "models", "a", "b"]);
    FourJoined();
    SplitRoutePathJoined(["v1", "models", "a", "b"]);
  }
}
