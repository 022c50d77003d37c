/**
  Asking for one model over the wire. The server decodes the path of a request, and its
  multiplexer redirects paths that are not clean, before the router sees the decoded path; the
  route matcher then decodes the parameter once more.
 */
module ModelRequests {
  import opened Wrappers
  import opened Text
  import opened Routes
  import opened RouteMatrix
  import opened ModelPaths

  // ---------- What the server does first ----------

  // The path of a request's target ends at the first question mark.
  function PathPart(target: string): string {
    target[..IndexOf(target, '?')]
  }

  // A raw space ends the target in the middle of the request line, and controls are refused.
  predicate Sendable(target: string) {
    forall i :: 0 <= i < |target| ==> target[i] as int > 32 && target[i] as int != 127
  }

  // The decoded path; malformed escapes are refused.
  function UrlPath(wire: string): Option<string> {
    PathUnescape(wire)
  }

  predicate WellEncoded(wire: string) {
    forall i :: 0 <= i < |wire| ==>
      || 'a' <= wire[i] <= 'z' || 'A' <= wire[i] <= 'Z' || '0' <= wire[i] <= '9'
      || wire[i] in "-_.~$&+,/:;=@!'()*[]%"
  }

  // The text the multiplexer matches: what was sent, or the decoded path escaped anew when the
  // sender left characters raw that have to be escaped. Escaping anew keeps slashes and dots.
  function RoutedText(wire: string): string {
    if WellEncoded(wire) || UrlPath(wire).None? then wire else UrlPath(wire).value
  }

  predicate Dots(segment: string) {
    segment == "." || segment == ".."
  }

  // A path that cleaning leaves alone: no dot segments, and nothing empty but after a final slash.
  predicate Canonical(text: string) {
    && text != "" && text[0] == '/'
    && var parts := Split(text[1..], '/');
       forall i :: 0 <= i < |parts| ==> !Dots(parts[i]) && (parts[i] == "" ==> i == |parts| - 1)
  }

  datatype Served = Refused | Redirected | Routed(path: string)

  function Serve(target: string): Served {
    var wire := PathPart(target);
    if !Sendable(target) || wire == "" || wire[0] != '/' || UrlPath(wire).None? then Refused
    else if !Canonical(RoutedText(wire)) then Redirected
    else Routed(UrlPath(wire).value)
  }

  // What a GET comes to: the router's answer if it gets that far.
  ghost predicate Comes(target: string, d: Option<Dispatch>) {
    match Serve(target)
    case Routed(path) => d.Some? && Routes.Answers(d.value, Matrix(), "GET", path)
    case _ => d == None
  }

  function Metadata(model: string): Option<Dispatch> {
    Some(Handled(3, map["model" := model]))
  }

  // ---------- Which model paths are clean ----------

  lemma UnescapeAround(a: string, b: string)
    requires PathUnescape(a + "/" + b).Some?
    ensures PathUnescape(a).Some? && PathUnescape(b).Some?
    ensures PathUnescape(a + "/" + b).value == PathUnescape(a).value + "/" + PathUnescape(b).value
    decreases |a|
  {
    var s := a + "/" + b;
    if a == "" {
      assert s == ['/'] + b && s[1..] == b;
      assert "" + "/" + PathUnescape(b).value == ['/'] + PathUnescape(b).value;
    } else if a[0] != '%' {
      assert s[1..] == a[1..] + "/" + b;
      UnescapeAround(a[1..], b);
      assert [a[0]] + (PathUnescape(a[1..]).value + "/" + PathUnescape(b).value)
          == [a[0]] + PathUnescape(a[1..]).value + "/" + PathUnescape(b).value;
    } else {
      assert s[|a|] == '/' && IsHex(s[1]) && IsHex(s[2]);
      assert |a| >= 3 && a[1] == s[1] && a[2] == s[2];
      assert s[3..] == a[3..] + "/" + b;
      UnescapeAround(a[3..], b);
      var c := (HexValue(a[1]) * 16 + HexValue(a[2])) as char;
      assert [c] + (PathUnescape(a[3..]).value + "/" + PathUnescape(b).value)
          == [c] + PathUnescape(a[3..]).value + "/" + PathUnescape(b).value;
    }
  }

  // A part sent without percent signs is still a part after decoding.
  lemma {:induction false} RawPartStays(wire: string, part: string)
    requires PathUnescape(wire).Some? && part in Split(wire, '/') && '%' !in part
    ensures part in Split(PathUnescape(wire).value, '/')
    decreases |wire|
  {
    hide PathUnescape, Split;
    if '/' in wire {
      var k := IndexOf(wire, '/');
      var a, b := wire[..k], wire[k + 1..];
      assert wire == a + "/" + b;
      SplitWhole(a, '/');
      SplitAround(a, b);
      UnescapeAround(a, b);
      SplitAround(PathUnescape(a).value, PathUnescape(b).value);
      if part == a {
        UnescapeShortens(a);
      } else {
        RawPartStays(b, part);
      }
    } else {
      SplitWhole(wire, '/');
      UnescapeShortens(wire);
    }
  }

  lemma SplitModelPath(model: string)
    requires Plain(model)
    ensures Split(ModelPath(model)[1..], '/') == ["v1", "models", model]
  {
    hide JoinPath;
    var segments := ["v1", "models", model];
    assert AllPlain(segments);
    PathOfSegments(model);
    SplitJoined(segments);
    assert Split(ModelPath(model), '/') == [""] + Split(ModelPath(model)[1..], '/');
    assert ([""] + segments)[1..] == segments;
  }

  lemma PlainModelPath(model: string)
    requires Plain(model)
    ensures Canonical(ModelPath(model)) <==> !Dots(model)
  {
    hide Dots;
    SplitModelPath(model);
    assert !Dots("v1") && !Dots("models") by {
      NoDots();
    }
    var parts := ["v1", "models", model];
    assert parts[2] == model;
  }

  lemma NoDots()
    ensures !Dots("v1") && !Dots("models") && !Dots("")
  {
  }

  // However its path is escaped, only the two dot names can be redirected.
  lemma CleanUnlessDots(wire: string, model: string)
    requires wire != "" && wire[0] == '/' && UrlPath(wire) == Some(ModelPath(model)) && Plain(model) && !Dots(model)
    ensures Canonical(RoutedText(wire))
  {
    hide WellEncoded, Split, PathUnescape, Dots, ModelPath;
    PlainModelPath(model);
    SplitModelPath(model);
    assert wire == "" + "/" + wire[1..];
    UnescapeAround("", wire[1..]);
    UnescapeEmpty();
    var rest := PathUnescape(wire[1..]).value;
    assert ModelPath(model) == "" + "/" + rest;
    assert rest == ModelPath(model)[1..];
    var parts := Split(wire[1..], '/');
    forall i | 0 <= i < |parts|
      ensures !Dots(parts[i]) && parts[i] != ""
    {
      if '%' !in parts[i] {
        assert parts[i] in parts;
        RawPartStays(wire[1..], parts[i]);
        NoDots();
      } else {
        PercentIsNoDot(parts[i]);
      }
    }
  }

  lemma PercentIsNoDot(part: string)
    requires '%' in part
    ensures !Dots(part) && part != ""
  {
  }

  // ---------- When a model is reached under its own name ----------

  // A GET that names a model in its path, however the client escaped it, reaches the metadata of
  // that very name exactly when its target can be sent, the name holds neither a slash nor a
  // percent sign and, if it is one of the two dot names, the client escaped the dots.
  lemma ModelReachedExactly(target: string, d: Option<Dispatch>, model: string)
    requires var wire := PathPart(target); wire != "" && wire[0] == '/' && UrlPath(wire) == Some(ModelPath(model))
    requires model != "" && Comes(target, d)
    ensures d == Metadata(model) <==>
              && (forall i :: 0 <= i < |target| ==> target[i] as int > 32 && target[i] as int != 127)
              && '/' !in model && '%' !in model
              && (model == "." || model == ".." ==> Canonical(RoutedText(PathPart(target))))
  {
    hide Routes.Answers, Matrix, ModelPath, UrlPath, Canonical, RoutedText, PathPart;
    if d.Some? {
      NamedExactly(d.value, model);
    }
    if '/' !in model && '%' !in model && !Dots(model) {
      CleanUnlessDots(PathPart(target), model);
    }
  }

  // ---------- Escaping once, escaping twice ----------

  // A target that holds no question mark is all path.
  lemma AllPath(target: string)
    requires '?' !in target
    ensures PathPart(target) == target
  {
  }

  lemma EscapedPath(model: string)
    ensures UrlPath(ModelPath(Escape(model))) == Some(ModelPath(model))
    ensures ModelPath(Escape(model)) != "" && ModelPath(Escape(model))[0] == '/'
    ensures PathPart(ModelPath(Escape(model))) == ModelPath(Escape(model)) && Sendable(ModelPath(Escape(model)))
  {
    hide PathUnescape, Escape, PathPart;
    EscapeRoundTrip(model);
    UnescapeAfter("/v1/models/", Escape(model));
    PrefixSendable();
    assert '?' !in ModelPath(Escape(model));
    AllPath(ModelPath(Escape(model)));
  }

  lemma PrefixSendable()
    ensures Sendable("/v1/models/") && '?' !in "/v1/models/"
  {
  }

  lemma {:induction false} EscapeKeeps(s: string)
    ensures (forall i :: 0 <= i < |s| ==> !MustEscape(s[i])) ==> Escape(s) == s
    ensures Dots(Escape(s)) ==> Escape(s) == s
  {
    hide HexDigit, MustEscape, PathUnescape;
    if s != "" {
      EscapeKeeps(s[1..]);
      assert s == [s[0]] + s[1..];
      EscapeRoundTrip(s[1..]);
      if Dots(Escape(s)) {
        assert Escape(s)[0] == '.';
        assert Escape(s)[1..] == Escape(s[1..]);
      }
    }
  }

  lemma DotsRedirected(model: string)
    requires Dots(model)
    ensures Plain(model) && Escape(model) == model && !Canonical(RoutedText(ModelPath(model)))
    ensures UrlPath(ModelPath(model)) == Some(ModelPath(model))
  {
    hide WellEncoded, PathUnescape, Escape;
    EscapeKeeps(model);
    EscapedPath(model);
    PlainModelPath(model);
  }

  // Escaped once, as clients do, a name is reached exactly when it holds neither a slash nor a
  // percent sign and is not one of the two dot names.
  lemma EscapedOnceExactly(d: Option<Dispatch>, model: string)
    requires model != "" && Comes(ModelPath(Escape(model)), d)
    ensures d == Metadata(model) <==> '/' !in model && '%' !in model && model != "." && model != ".."
  {
    hide Comes, ModelPath, Escape, UrlPath, Canonical, RoutedText, PathPart;
    EscapedPath(model);
    ModelReachedExactly(ModelPath(Escape(model)), d, model);
    if Dots(model) {
      DotsRedirected(model);
    }
  }

  // Escaped twice, every name is reached but the two dot names.
  lemma EscapedTwiceExactly(d: Option<Dispatch>, model: string)
    requires model != "" && Comes(ModelPath(Escape(Escape(model))), d)
    ensures d == Metadata(model) <==> model != "." && model != ".."
  {
    hide ModelPath, Escape, UrlPath, Canonical, RoutedText, Routes.Answers, PathUnescape, Matrix, PathPart, Sendable;
    EscapedPath(Escape(model));
    EscapeRoundTrip(model);
    EscapeKeeps(model);
    if Dots(Escape(model)) {
      DotsRedirected(Escape(model));
      EscapeRoundTrip(Escape(model));
    } else {
      CleanUnlessDots(ModelPath(Escape(Escape(model))), Escape(model));
      DecodedAgain(d.value, Escape(model));
    }
    if Dots(model) {
      DotsRedirected(model);
    }
  }

  // The dot names are reached with their dots escaped.
  lemma EscapedDots(one: Option<Dispatch>, two: Option<Dispatch>)
    requires Comes("/v1/models/%2E", one) && Comes("/v1/models/%2E%2E", two)
    ensures one == Metadata(".") && two == Metadata("..")
  {
    hide Comes, ModelPath, UrlPath, Canonical, RoutedText, PathPart;
    CodedDots();
    DotsSendable();
    ModelReachedExactly("/v1/models/%2E", one, ".");
    ModelReachedExactly("/v1/models/%2E%2E", two, "..");
  }

  lemma DotsSendable()
    ensures PathPart("/v1/models/%2E") == "/v1/models/%2E" && Sendable("/v1/models/%2E")
    ensures PathPart("/v1/models/%2E%2E") == "/v1/models/%2E%2E" && Sendable("/v1/models/%2E%2E")
  {
    hide PathPart;
    AllPath("/v1/models/%2E");
    AllPath("/v1/models/%2E%2E");
  }

  lemma CodedDots()
    ensures UrlPath("/v1/models/%2E") == Some(ModelPath(".")) && Canonical(RoutedText("/v1/models/%2E"))
    ensures UrlPath("/v1/models/%2E%2E") == Some(ModelPath("..")) && Canonical(RoutedText("/v1/models/%2E%2E"))
  {
    hide PathUnescape, WellEncoded, Canonical;
    UnescapedDots();
    UnescapeAfter("/v1/models/", "%2E");
    UnescapeAfter("/v1/models/", "%2E%2E");
    DotsEncoded();
    assert "/v1/models/" + "%2E" == "/v1/models/%2E" && "/v1/models/" + "%2E%2E" == "/v1/models/%2E%2E";
    PercentIsNoDot("%2E");
    PercentIsNoDot("%2E%2E");
    PlainModelPath("%2E");
    PlainModelPath("%2E%2E");
  }

  lemma UnescapedDots()
    ensures PathUnescape("%2E") == Some(".") && PathUnescape("%2E%2E") == Some("..")
  {
    hide PathUnescape;
    UnescapeEmpty();
    UnescapeCoded('2', 'E', "");
    assert HexValue('2') == 2 && HexValue('E') == 14 && 46 as char == '.';
    assert ['%', '2', 'E'] + "" == "%2E" && ['.'] + "" == ".";
    UnescapeCoded('2', 'E', "%2E");
    assert ['%', '2', 'E'] + "%2E" == "%2E%2E" && ['.'] + "." == "..";
  }

  lemma DotsEncoded()
    ensures WellEncoded("/v1/models/%2E") && WellEncoded("/v1/models/%2E%2E")
  {
    var allowed := "-_.~$&+,/:;=@!'()*[]%";
    assert allowed[2] == '.' && allowed[8] == '/' && allowed[20] == '%';
  }

  // ---------- Names that are missed or mistaken ----------

  // Whatever follows a raw question mark is not part of the path.
  lemma CutAtQuery(path: string, query: string)
    requires '?' !in path && Sendable(path + "?" + query)
    ensures Serve(path + "?" + query) == Serve(path)
  {
    hide UrlPath, Canonical, RoutedText;
    var target := path + "?" + query;
    assert target[|path|] == '?' && forall i :: 0 <= i < |path| ==> target[i] == path[i];
    assert IndexOf(target, '?') == |path|;
    assert target[..|path|] == path;
    AllPath(path);
  }

  // Sent raw, a name with a question mark is answered as the part before it, and one with a
  // space is refused.
  lemma RawNames(question: Option<Dispatch>, space: Option<Dispatch>)
    requires Comes("/v1/models/a?b", question) && Comes("/v1/models/a b", space)
    ensures question == Metadata("a") && space == None
  {
    hide UrlPath, Canonical, RoutedText, Escape, ModelPath, Serve, Routes.Answers, PathPart;
    assert "/v1/models/a" + "?" + "b" == "/v1/models/a?b";
    RawSamples();
    CutAtQuery("/v1/models/a", "b");
    EscapeKeeps("a");
    assert !MustEscape("a"[0]);
    EscapedOnceExactly(question, "a");
    SpaceRefused();
  }

  lemma RawSamples()
    ensures '?' !in "/v1/models/a" && Sendable("/v1/models/a?b") && ModelPath("a") == "/v1/models/a"
    ensures !Dots("a")
  {
  }

  lemma SpaceRefused()
    ensures Serve("/v1/models/a b") == Refused
  {
    hide UrlPath, Canonical, RoutedText, PathPart;
    assert "/v1/models/a b"[12] == ' ';
  }

  // Escaped once, a name whose escape is clean is answered as the router answers its bare path.
  lemma CleanName(model: string, d: Option<Dispatch>)
    requires Comes(ModelPath(Escape(model)), d) && Canonical(RoutedText(ModelPath(Escape(model))))
    ensures d.Some? && Routes.Answers(d.value, Matrix(), "GET", ModelPath(model))
  {
    hide Routes.Answers, Matrix, ModelPath, Escape, UrlPath, Canonical, RoutedText, PathPart, Sendable;
    EscapedPath(model);
  }

  // A name of one segment is answered as the router decodes it once more.
  lemma CleanSegment(model: string, d: Option<Dispatch>)
    requires Plain(model) && !Dots(model) && Comes(ModelPath(Escape(model)), d)
    ensures d.Some? && Routes.Answers(d.value, Matrix(), "GET", ModelPath(model))
  {
    hide Comes, Routes.Answers, Matrix, ModelPath, Escape, UrlPath, Canonical, RoutedText, Dots, Plain, PathPart, Sendable;
    EscapedPath(model);
    CleanUnlessDots(ModelPath(Escape(model)), model);
    CleanName(model, d);
  }

  // Escaped once, a name with a slash makes the path too long, a stray percent sign makes it
  // unreadable, a name that looks escaped is answered as another model, and dots are redirected.
  lemma MissedNames(slash: Option<Dispatch>, percent: Option<Dispatch>, escaped: Option<Dispatch>, dots: Option<Dispatch>)
    requires Comes(ModelPath(Escape("a/b")), slash) && Comes(ModelPath(Escape("50%")), percent)
    requires Comes(ModelPath(Escape("%41")), escaped) && Comes(ModelPath(Escape("..")), dots)
    ensures slash == Some(NotFound) && percent == Some(NotFound) && escaped == Metadata("A") && dots == None
  {
    hide Comes, ModelPath, Escape, UrlPath, Canonical, RoutedText, Routes.Answers, Matrix, SplitRoutePath, PathUnescape,
      PathPart, Sendable;
    SlashClean();
    CleanName("a/b", slash);
    FourSegments();
    LongPathsMiss(slash.value, "GET", ModelPath("a/b"));
    UnescapedSamples();
    CleanSegment("50%", percent);
    DecodedAgain(percent.value, "50%");
    CleanSegment("%41", escaped);
    DecodedAgain(escaped.value, "%41");
    DotsMissed(dots);
  }

  lemma DotsMissed(d: Option<Dispatch>)
    requires Comes(ModelPath(Escape("..")), d)
    ensures d == None
  {
    hide ModelPath, Escape, UrlPath, Canonical, RoutedText, Routes.Answers, Matrix, PathPart, Sendable;
    EscapedPath("..");
    DotsRedirected("..");
  }

  lemma SlashClean()
    ensures Canonical(RoutedText(ModelPath(Escape("a/b"))))
  {
    hide WellEncoded, ModelPath, Escape, PathUnescape, Canonical;
    EscapedPath("a/b");
    EscapeRoundTrip("a/b");
    LongerIsNoDots();
    PlainModelPath(Escape("a/b"));
    SlashPathClean();
  }

  lemma LongerIsNoDots()
    ensures !Dots(Escape("a/b"))
  {
    EscapeKeeps("a/b");
    EscapeRoundTrip("a/b");
    assert "a/b"[1] == '/';
  }

  lemma SlashPathClean()
    ensures Canonical(ModelPath("a/b"))
  {
    hide Split;
    var ss := ["v1", "models", "a", "b"];
    assert AllPlain(ss);
    FourJoined();
    SplitJoined(ss);
    SplitAround("", ModelPath("a/b")[1..]);
    SplitWhole("", '/');
    assert ModelPath("a/b") == "" + "/" + ModelPath("a/b")[1..];
    assert ([""] + ss)[1..] == ss;
  }

  lemma UnescapedSamples()
    ensures PathUnescape("50%") == None && PathUnescape("%41") == Some("A")
  {
    assert "50%"[1..] == "0%" && "0%"[1..] == "%";
    UnescapeEmpty();
    UnescapeCoded('4', '1', "");
    assert HexValue('4') == 4 && HexValue('1') == 1 && 65 as char == 'A';
    assert PathUnescape("%41") == Some(['A'] + "");
    assert ['A'] + "" == "A";
    assert ['%', '4', '1'] + "" == "%41";
  }
}
