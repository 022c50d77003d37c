/** The route matcher: path splitting, segment patterns, dispatch over a matrix of descriptors. */
module Routes {
  import opened Wrappers
  import opened Text
  import opened Sorting

  // ---------- Percent decoding (url.PathUnescape) ----------

  predicate IsHex(c: char) {
    '0' <= c <= '9' || 'a' <= c <= 'f' || 'A' <= c <= 'F'
  }

  function HexValue(c: char): (v: nat)
    requires IsHex(c)
    ensures v < 16
  {
    if c <= '9' then c as int - '0' as int
    else if c <= 'F' then c as int - 'A' as int + 10
    else c as int - 'a' as int + 10
  }

  function PathUnescape(s: string): Option<string> {
    if s == "" then Some("")
    else if s[0] != '%' then
      var rest := PathUnescape(s[1..]);
      if rest.Some? then Some([s[0]] + rest.value) else None
    else if |s| < 3 || !IsHex(s[1]) || !IsHex(s[2]) then None
    else
      var rest := PathUnescape(s[3..]);
      if rest.Some? then Some([(HexValue(s[1]) * 16 + HexValue(s[2])) as char] + rest.value) else None
  }

  // What cannot stand raw in a segment of a request's path: separators, the escape sign, the
  // marks that end the path, white space and controls.
  predicate MustEscape(c: char) {
    c as int <= 32 || c as int == 127 || c == '%' || c == '/' || c == '?' || c == '#'
  }

  function HexDigit(n: nat): (c: char)
    requires n < 16
    ensures IsHex(c) && HexValue(c) == n
  {
    if n < 10 then ('0' as int + n) as char else ('A' as int + n - 10) as char
  }

  // A client's escaping of a text for one segment.
  function Escape(s: string): string {
    if s == "" then ""
    else
      (if MustEscape(s[0]) then ['%', HexDigit(s[0] as int / 16), HexDigit(s[0] as int % 16)] else [s[0]]) + Escape(s[1..])
  }

  lemma UnescapeCoded(a: char, b: char, rest: string)
    requires IsHex(a) && IsHex(b) && PathUnescape(rest).Some?
    ensures PathUnescape(['%', a, b] + rest) == Some([(HexValue(a) * 16 + HexValue(b)) as char] + PathUnescape(rest).value)
  {
    var s := ['%', a, b] + rest;
    assert s[3..] == rest;
  }

  lemma UnescapePlain(c: char, rest: string)
    requires c != '%' && PathUnescape(rest).Some?
    ensures PathUnescape([c] + rest) == Some([c] + PathUnescape(rest).value)
  {
    var s := [c] + rest;
    assert s[1..] == rest;
  }

  lemma CodedDigits(c: char)
    requires MustEscape(c)
    ensures var a, b := HexDigit(c as int / 16), HexDigit(c as int % 16);
            && (HexValue(a) * 16 + HexValue(b)) as char == c
            && !MustEscape(a) && !MustEscape(b)
  {
  }

  lemma {:induction false} EscapeRoundTrip(s: string)
    ensures PathUnescape(Escape(s)) == Some(s)
    ensures forall i :: 0 <= i < |Escape(s)| ==> Escape(s)[i] == '%' || !MustEscape(Escape(s)[i])
    ensures '/' !in Escape(s)
    ensures s != "" ==> Escape(s) != ""
  {
    hide PathUnescape, HexDigit;
    if s == "" {
      UnescapeEmpty();
    } else {
      EscapeRoundTrip(s[1..]);
      var rest := Escape(s[1..]);
      assert s == [s[0]] + s[1..];
      if MustEscape(s[0]) {
        CodedDigits(s[0]);
        UnescapeCoded(HexDigit(s[0] as int / 16), HexDigit(s[0] as int % 16), rest);
      } else {
        UnescapePlain(s[0], rest);
      }
      assert forall i :: 0 <= i < |Escape(s)| ==> Escape(s)[i] == '%' || !MustEscape(Escape(s)[i]);
      assert forall i :: 0 <= i < |Escape(s)| ==> Escape(s)[i] != '/';
    }
  }

  // Both casings of the hexadecimal digits are decoded, and no other character is.
  lemma HexDigits(c: char)
    ensures IsHex(c) <==> exists n: nat :: n < 16 && LowerChar(HexDigit(n)) == LowerChar(c)
    ensures IsHex(c) ==> LowerChar(HexDigit(HexValue(c))) == LowerChar(c)
  {
    if '0' <= c <= '9' {
      assert HexDigit(c as int - '0' as int) == c;
    } else if IsHex(c) {
      var n: nat := LowerChar(c) as int - 'a' as int + 10;
      assert LowerChar(HexDigit(n)) == LowerChar(c);
    }
  }

  lemma UnescapeEmpty()
    ensures PathUnescape("") == Some("")
  {
  }

  // Decoding a string without a percent sign changes nothing; with one it makes it shorter.
  lemma {:induction false} UnescapeShortens(s: string)
    ensures '%' !in s ==> PathUnescape(s) == Some(s)
    ensures PathUnescape(s).Some? ==> |PathUnescape(s).value| <= |s|
    ensures PathUnescape(s).Some? && '%' in s ==> |PathUnescape(s).value| < |s|
  {
    if s != "" {
      assert s == [s[0]] + s[1..];
      if s[0] != '%' {
        UnescapeShortens(s[1..]);
      } else if |s| >= 3 {
        UnescapeShortens(s[3..]);
      }
    }
  }

  lemma {:induction false} UnescapeAfter(a: string, b: string)
    requires '%' !in a && PathUnescape(b).Some?
    ensures PathUnescape(a + b) == Some(a + PathUnescape(b).value)
  {
    hide PathUnescape;
    if a == "" {
      assert a + b == b && a + PathUnescape(b).value == PathUnescape(b).value;
    } else {
      UnescapeAfter(a[1..], b);
      UnescapePlain(a[0], a[1..] + b);
      assert [a[0]] + (a[1..] + b) == a + b;
      assert [a[0]] + (a[1..] + PathUnescape(b).value) == a + PathUnescape(b).value;
    }
  }

  // ---------- Splitting ----------

  function SplitRoutePath(path: string): seq<string> {
    var p := Trim(path, Slashes);
    if p == "" then [] else Split(p, '/')
  }

  function JoinPath(segments: seq<string>): string {
    if segments == [] then "" else "/" + segments[0] + JoinPath(segments[1..])
  }

  // A segment that can stand anywhere in a path.
  predicate Plain(segment: string) {
    segment != "" && '/' !in segment
  }

  predicate AllPlain(segments: seq<string>) {
    forall i :: 0 <= i < |segments| ==> Plain(segments[i])
  }

  lemma {:induction false} SplitWhole(s: string, sep: char)
    requires sep !in s
    ensures Split(s, sep) == [s]
  {
    if s != "" {
      SplitWhole(s[1..], sep);
      assert [s[0]] + s[1..] == s;
    }
  }

  lemma SplitSlash(b: string)
    ensures Split("/" + b, '/') == [""] + Split(b, '/')
  {
    assert ("/" + b)[1..] == b;
  }

  lemma SplitAround(a: string, b: string)
    ensures Split(a + "/" + b, '/') == Split(a, '/') + Split(b, '/')
  {
    hide Split;
    var x := Split(a, '/');
    SplitConcat(a, "/" + b, '/');
    SplitSlash(b);
    assert a + ("/" + b) == a + "/" + b;
    assert x[|x| - 1] + "" == x[|x| - 1];
    assert x[..|x| - 1] + [x[|x| - 1]] == x;
  }

  // One more segment in front of a joined path.
  lemma SplitFront(first: string, rest: string, segments: seq<string>)
    requires '/' !in first && Split(rest, '/') == [""] + segments
    requires rest == "" || rest[0] == '/'
    ensures Split("/" + (first + rest), '/') == [""] + ([first] + segments)
  {
    hide Split;
    SplitWhole(first, '/');
    SplitSlash(first + rest);
    if rest == "" {
      SplitWhole("", '/');
      assert first + rest == first;
    } else {
      var tail := rest[1..];
      assert rest == "/" + tail;
      assert first + rest == first + "/" + tail;
      SplitSlash(tail);
      SplitAround(first, tail);
      assert ([""] + Split(tail, '/'))[1..] == Split(tail, '/');
      assert ([""] + segments)[1..] == segments;
    }
  }

  lemma {:induction false} SplitJoined(segments: seq<string>)
    requires AllPlain(segments)
    ensures Split(JoinPath(segments), '/') == [""] + segments
  {
    hide Split;
    if segments == [] {
      SplitWhole("", '/');
    } else {
      var first, rest := segments[0], JoinPath(segments[1..]);
      SplitJoined(segments[1..]);
      SplitFront(first, rest, segments[1..]);
      assert JoinPath(segments) == "/" + (first + rest);
      assert segments == [first] + segments[1..];
    }
  }

  lemma {:induction false} PiecesPlain(s: string, sep: char)
    ensures forall x :: x in Split(s, sep) ==> sep !in x
  {
    if s != "" {
      PiecesPlain(s[1..], sep);
      var rest := Split(s[1..], sep);
      assert rest[0] in rest;
    }
  }

  lemma JoinFirst(x: string, rest: seq<string>)
    ensures JoinPath([x] + rest) == "/" + (x + JoinPath(rest))
  {
    assert ([x] + rest)[1..] == rest;
  }

  // Joining undoes splitting.
  lemma {:induction false} JoinSplit(s: string)
    ensures JoinPath(Split(s, '/')) == "/" + s
  {
    if s == "" {
      JoinFirst("", []);
    } else {
      hide JoinPath;
      var rest := Split(s[1..], '/');
      JoinSplit(s[1..]);
      if s[0] == '/' {
        JoinFirst("", rest);
        assert s == "/" + s[1..];
      } else {
        JoinFirst(rest[0], rest[1..]);
        JoinFirst([s[0]] + rest[0], rest[1..]);
        assert rest == [rest[0]] + rest[1..];
        SameAfterSlash(rest[0] + JoinPath(rest[1..]), s[1..]);
        assert [s[0]] + rest[0] + JoinPath(rest[1..]) == [s[0]] + (rest[0] + JoinPath(rest[1..]));
        assert s == [s[0]] + s[1..];
      }
    }
  }

  lemma SameAfterSlash(a: string, b: string)
    requires "/" + a == "/" + b
    ensures a == b
  {
    assert a == ("/" + a)[1..] && b == ("/" + b)[1..];
  }

  lemma {:induction false} JoinedEnd(segments: seq<string>)
    requires AllPlain(segments) && segments != []
    ensures var p := JoinPath(segments); |p| > 1 && p[0] == '/' && p[1] != '/' && p[|p| - 1] != '/'
  {
    if |segments| > 1 {
      JoinedEnd(segments[1..]);
    }
  }

  lemma TrimJoined(p: string)
    requires |p| > 1 && p[0] == '/' && p[1] != '/' && p[|p| - 1] != '/'
    ensures Trim(p, Slashes) == p[1..] == Trim(p + "/", Slashes)
  {
    TrimIgnoresBack(p, '/', Slashes);
    TrimIgnoresFront('/', p[1..], Slashes);
    assert p == ['/'] + p[1..];
    TrimmedFixed(p[1..], Slashes);
  }

  // Splitting undoes joining, with or without a slash at the end.
  lemma SplitRoutePathJoined(segments: seq<string>)
    requires AllPlain(segments)
    ensures SplitRoutePath(JoinPath(segments)) == segments
    ensures SplitRoutePath(JoinPath(segments) + "/") == segments
  {
    var p := JoinPath(segments);
    if segments != [] {
      JoinedEnd(segments);
      TrimJoined(p);
      SplitJoined(segments);
      assert ([""] + segments)[1..] == segments;
    } else {
      TrimIgnoresFront('/', "", Slashes);
      TrimmedFixed("", Slashes);
      assert p + "/" == ['/'] + "";
    }
  }

  // ---------- Segments ----------

  // strings.Index, with |s| standing for "absent".
  function IndexOf(s: string, c: char): (i: nat)
    ensures i <= |s|
    ensures i < |s| <==> c in s
    ensures i < |s| ==> s[i] == c
    ensures forall k :: 0 <= k < i ==> s[k] != c
  {
    if s == "" || s[0] == c then 0 else 1 + IndexOf(s[1..], c)
  }

  datatype SegmentMatch = NoMatch | Exact | Bound(name: string, value: string)

  function MatchRouteSegment(pattern: string, segment: string): SegmentMatch {
    var open, close := IndexOf(pattern, '{'), IndexOf(pattern, '}');
    if open == |pattern| || close == |pattern| || close < open then
      if pattern == segment then Exact else NoMatch
    else
      var prefix, name, suffix := pattern[..open], pattern[open + 1..close], pattern[close + 1..];
      if name == "" || !HasPrefix(segment, prefix) || !HasSuffix(segment, suffix) then NoMatch
      else
        var value := TrimSuffix(TrimPrefix(segment, prefix), suffix);
        if value == "" then NoMatch else Bound(name, value)
  }

  predicate NoBraces(s: string) {
    '{' !in s && '}' !in s
  }

  function ParamPattern(prefix: string, name: string, suffix: string): string {
    prefix + "{" + name + "}" + suffix
  }

  lemma ParamPatternParts(prefix: string, name: string, suffix: string)
    requires NoBraces(prefix) && NoBraces(name)
    ensures var p := ParamPattern(prefix, name, suffix);
            && IndexOf(p, '{') == |prefix| < |p| && IndexOf(p, '}') == |prefix| + 1 + |name| < |p|
            && p[..|prefix|] == prefix && p[|prefix| + 1..|prefix| + 1 + |name|] == name
            && p[|prefix| + 2 + |name|..] == suffix
  {
    var p := ParamPattern(prefix, name, suffix);
    assert p[|prefix|] == '{' && p[|prefix| + 1 + |name|] == '}';
    assert forall k :: 0 <= k < |prefix| ==> p[k] == prefix[k];
    assert forall k :: 0 <= k < |name| ==> p[|prefix| + 1 + k] == name[k];
  }

  lemma ParamMatch(prefix: string, name: string, suffix: string, segment: string)
    requires NoBraces(prefix) && NoBraces(name) && name != ""
    ensures MatchRouteSegment(ParamPattern(prefix, name, suffix), segment) ==
            var value := TrimSuffix(TrimPrefix(segment, prefix), suffix);
            if HasPrefix(segment, prefix) && HasSuffix(segment, suffix) && value != "" then Bound(name, value)
            else NoMatch
  {
    hide IndexOf, HasPrefix, HasSuffix, TrimPrefix, TrimSuffix, ParamPattern;
    ParamPatternParts(prefix, name, suffix);
  }

  lemma SuffixCut(segment: string, suffix: string)
    ensures forall value :: segment == value + suffix <==> HasSuffix(segment, suffix) && value == TrimSuffix(segment, suffix)
  {
    forall value
      ensures segment == value + suffix <==> HasSuffix(segment, suffix) && value == TrimSuffix(segment, suffix)
    {
      if segment == value + suffix {
        assert segment[|segment| - |suffix|..] == suffix && segment[..|segment| - |suffix|] == value;
      }
      if HasSuffix(segment, suffix) {
        assert segment == segment[..|segment| - |suffix|] + suffix;
      }
    }
  }

  // Without a fixed prefix, as in every pattern of the router's matrix, a parameter matches
  // exactly the segments that are a non-empty value followed by the fixed suffix.
  lemma ParamMatches(name: string, suffix: string, segment: string)
    requires NoBraces(name) && name != ""
    ensures var m := MatchRouteSegment(ParamPattern("", name, suffix), segment);
            && (forall value :: m == Bound(name, value) <==> value != "" && segment == value + suffix)
            && (m.Bound? || m.NoMatch?)
            && (m.Bound? ==> m.name == name)
  {
    hide MatchRouteSegment, ParamPattern, HasSuffix, TrimSuffix;
    ParamMatch("", name, suffix, segment);
    SuffixCut(segment, suffix);
    assert TrimPrefix(segment, "") == segment;
  }

  lemma CutBetween(prefix: string, suffix: string, segment: string)
    requires HasPrefix(segment, prefix) && HasSuffix(segment, suffix)
    ensures var value := TrimSuffix(TrimPrefix(segment, prefix), suffix);
            && (value != "" <==> segment != prefix && segment != prefix + suffix)
            && (segment == prefix + value + suffix <==> |prefix| + |suffix| <= |segment|)
  {
    var rest := segment[|prefix|..];
    assert segment == prefix + rest;
    if |prefix| + |suffix| <= |segment| {
      assert rest[|rest| - |suffix|..] == segment[|segment| - |suffix|..];
      assert rest == rest[..|rest| - |suffix|] + suffix;
    }
  }

  // With a prefix and a suffix the two may overlap in a short segment: the match then succeeds
  // with a value that does not rebuild the segment. It does rebuild it exactly when the segment
  // is long enough to hold both.
  lemma PrefixedMatches(prefix: string, name: string, suffix: string, segment: string)
    requires NoBraces(prefix) && NoBraces(name) && name != ""
    ensures var m := MatchRouteSegment(ParamPattern(prefix, name, suffix), segment);
            && (m.Bound? <==> HasPrefix(segment, prefix) && HasSuffix(segment, suffix)
                              && segment != prefix && segment != prefix + suffix)
            && (m.Bound? ==> (segment == prefix + m.value + suffix <==> |prefix| + |suffix| <= |segment|))
  {
    ParamMatch(prefix, name, suffix, segment);
    if HasPrefix(segment, prefix) && HasSuffix(segment, suffix) {
      CutBetween(prefix, suffix, segment);
    }
  }

  lemma OverlapExample()
    ensures MatchRouteSegment("ab{x}bc", "abc") == Bound("x", "c")
  {
    hide MatchRouteSegment;
    ParamMatch("ab", "x", "bc", "abc");
    assert ParamPattern("ab", "x", "bc") == "ab{x}bc";
    assert "abc"[..2] == "ab" && "abc"[1..] == "bc" && "abc"[2..] == "c";
  }

  lemma LiteralMatches(pattern: string, segment: string)
    requires NoBraces(pattern)
    ensures MatchRouteSegment(pattern, segment) == if pattern == segment then Exact else NoMatch
  {
  }

  // A pattern without a name between its braces matches nothing.
  lemma NamelessMatchesNothing(prefix: string, suffix: string, segment: string)
    requires NoBraces(prefix)
    ensures MatchRouteSegment(ParamPattern(prefix, "", suffix), segment) == NoMatch
  {
    var pattern := ParamPattern(prefix, "", suffix);
    assert pattern[|prefix|] == '{' && pattern[|prefix| + 1] == '}';
    assert forall k :: 0 <= k < |prefix| ==> pattern[k] == prefix[k];
  }

  // ---------- Paths ----------

  type Params = map<string, string>

  // The parameters of the leading segments, later names replacing earlier ones.
  function MatchSegments(pattern: seq<string>, segments: seq<string>): Option<Params>
    requires |pattern| == |segments|
  {
    if pattern == [] then Some(map[])
    else
      var n := |pattern| - 1;
      var before := MatchSegments(pattern[..n], segments[..n]);
      if before.None? then None
      else
        match MatchRouteSegment(pattern[n], segments[n])
        case NoMatch => None
        case Exact => before
        case Bound(name, value) =>
          var decoded := PathUnescape(value);
          if decoded.Some? then Some(before.value[name := decoded.value]) else None
  }

  function MatchPath(pattern: string, path: string): Option<Params> {
    var ps, ss := SplitRoutePath(pattern), SplitRoutePath(path);
    if |ps| != |ss| then None else MatchSegments(ps, ss)
  }

  predicate SegmentMatches(pattern: string, segment: string) {
    match MatchRouteSegment(pattern, segment)
    case NoMatch => false
    case Exact => true
    case Bound(_, value) => PathUnescape(value).Some?
  }

  // A path matches exactly when each of its segments does.
  lemma {:induction false} MatchesPointwise(pattern: seq<string>, segments: seq<string>)
    requires |pattern| == |segments|
    ensures MatchSegments(pattern, segments).Some? <==>
            forall i :: 0 <= i < |pattern| ==> SegmentMatches(pattern[i], segments[i])
  {
    hide MatchRouteSegment, PathUnescape;
    if pattern != [] {
      var n := |pattern| - 1;
      MatchesPointwise(pattern[..n], segments[..n]);
      assert forall i :: 0 <= i < n ==> pattern[..n][i] == pattern[i] && segments[..n][i] == segments[i];
    }
  }

  method MatchRoutePath(pattern: string, path: string) returns (r: Option<Params>)
    ensures r == MatchPath(pattern, path)
  {
    hide MatchRouteSegment, PathUnescape, SplitRoutePath;
    var ps := SplitRoutePath(pattern);
    var ss := SplitRoutePath(path);
    if |ps| != |ss| {
      return None;
    }
    var params: Params := map[];
    for i := 0 to |ps|
      invariant MatchSegments(ps[..i], ss[..i]) == Some(params)
    {
      assert ps[..i + 1][..i] == ps[..i] && ss[..i + 1][..i] == ss[..i];
      var m := MatchRouteSegment(ps[i], ss[i]);
      var decoded := if m.Bound? then PathUnescape(m.value) else None;
      if m.NoMatch? || (m.Bound? && decoded.None?) {
        assert MatchSegments(ps[..i + 1], ss[..i + 1]) == None;
        StaysUnmatched(ps, ss, i + 1);
        return None;
      }
      if m.Bound? {
        params := params[m.name := decoded.value];
      }
    }
    assert ps[..|ps|] == ps && ss[..|ss|] == ss;
    return Some(params);
  }

  lemma StaysUnmatched(pattern: seq<string>, segments: seq<string>, n: nat)
    requires n <= |pattern| == |segments| && MatchSegments(pattern[..n], segments[..n]).None?
    ensures MatchSegments(pattern, segments).None?
  {
    MatchesPointwise(pattern[..n], segments[..n]);
    MatchesPointwise(pattern, segments);
    assert forall i :: 0 <= i < n ==> pattern[..n][i] == pattern[i] && segments[..n][i] == segments[i];
  }

  // ---------- Dispatch ----------

  datatype RouteStatus = Implemented | Metadata | Unsupported

  datatype Descriptor = Descriptor(httpMethod: string, pattern: string, capability: string, status: RouteStatus)

  datatype Dispatch =
    | Handled(row: nat, params: Params)
    | MethodNotAllowed(allow: seq<string>)
    | NotFound

  predicate Hits(d: Descriptor, path: string) {
    MatchPath(d.pattern, path).Some?
  }

  ghost predicate Answers(d: Dispatch, matrix: seq<Descriptor>, httpMethod: string, path: string) {
    match d
    case Handled(row, params) =>
      && row < |matrix| && matrix[row].httpMethod == httpMethod
      && MatchPath(matrix[row].pattern, path) == Some(params)
      && forall i :: 0 <= i < row ==> matrix[i].httpMethod != httpMethod || !Hits(matrix[i], path)
    case MethodNotAllowed(allow) =>
      && allow != [] && Distinct(allow) && SortedBy(allow, StringLe) && httpMethod !in allow
      && forall m :: m in allow <==> exists i :: 0 <= i < |matrix| && matrix[i].httpMethod == m && Hits(matrix[i], path)
    case NotFound => forall i :: 0 <= i < |matrix| ==> !Hits(matrix[i], path)
  }

  function MethodsOf(ds: seq<Descriptor>): set<string> {
    set d | d in ds :: d.httpMethod
  }

  // The Allow list: each method once, in order.
  method WriteMethodNotAllowed(matched: seq<Descriptor>) returns (allow: seq<string>)
    ensures Distinct(allow) && SortedBy(allow, StringLe)
    ensures forall m :: m in allow <==> m in MethodsOf(matched)
  {
    var methods: seq<string> := [];
    var seen: set<string> := {};
    for i := 0 to |matched|
      invariant seen == MethodsOf(matched[..i])
      invariant Distinct(methods)
      invariant forall m :: m in methods <==> m in seen
    {
      assert matched[..i + 1] == matched[..i] + [matched[i]];
      if matched[i].httpMethod !in seen {
        seen := seen + {matched[i].httpMethod};
        methods := methods + [matched[i].httpMethod];
      }
    }
    assert matched[..|matched|] == matched;
    StringLeOrders();
    SortSorts(methods, StringLe);
    allow := Sort(methods, StringLe);
    DistinctCounts(methods);
    DistinctCounts(allow);
  }

  method RelayRoute(matrix: seq<Descriptor>, httpMethod: string, path: string) returns (d: Dispatch)
    ensures Answers(d, matrix, httpMethod, path)
  {
    hide MatchPath, StringLe;
    var pathMatched: seq<Descriptor> := [];
    for i := 0 to |matrix|
      invariant forall k :: 0 <= k < i ==> matrix[k].httpMethod != httpMethod || !Hits(matrix[k], path)
      invariant forall x :: x in pathMatched <==> exists k :: 0 <= k < i && matrix[k] == x && Hits(x, path)
    {
      var params := MatchRoutePath(matrix[i].pattern, path);
      if params.None? {
        continue;
      }
      pathMatched := pathMatched + [matrix[i]];
      if matrix[i].httpMethod != httpMethod {
        continue;
      }
      return Handled(i, params.value);
    }
    if pathMatched != [] {
      var allow := WriteMethodNotAllowed(pathMatched);
      assert pathMatched[0].httpMethod in MethodsOf(pathMatched);
      return MethodNotAllowed(allow);
    }
    return NotFound;
  }

  // The answer is determined by the matrix, the method and the path, and each of the three
  // kinds of answer is given exactly when it should be.
  lemma AnswerKinds(d: Dispatch, matrix: seq<Descriptor>, httpMethod: string, path: string)
    requires Answers(d, matrix, httpMethod, path)
    ensures d.NotFound? <==> forall i :: 0 <= i < |matrix| ==> !Hits(matrix[i], path)
    ensures d.Handled? <==> exists i :: 0 <= i < |matrix| && matrix[i].httpMethod == httpMethod && Hits(matrix[i], path)
  {
    if d.MethodNotAllowed? {
      assert d.allow[0] in d.allow;
    }
  }

  // At most one row of the matrix serves any method and path.
  ghost predicate Unambiguous(matrix: seq<Descriptor>) {
    forall i, j, path: string :: 0 <= i < j < |matrix| && matrix[i].httpMethod == matrix[j].httpMethod ==>
      !Hits(matrix[i], path) || !Hits(matrix[j], path)
  }

  lemma SortedOnce(a: seq<string>, b: seq<string>)
    requires Distinct(a) && Distinct(b) && SortedBy(a, StringLe) && SortedBy(b, StringLe)
    requires forall m :: m in a <==> m in b
    ensures a == b
  {
    StringLeOrders();
    forall x, y | StringLe(x, y) && StringLe(y, x) ensures x == y {
      StringLeTotal(x, y);
    }
    DistinctCounts(a);
    DistinctCounts(b);
    forall m ensures multiset(a)[m] == multiset(b)[m] {
      assert m in multiset(a) <==> m in a;
      assert m in multiset(b) <==> m in b;
    }
    assert multiset(a) == multiset(b);
    SortedUnique(a, b, StringLe);
  }

  // An unambiguous matrix may be written in any order: the same row answers, with the same
  // parameters, or the same list of methods is allowed.
  lemma OrderIrrelevant(
      a: Dispatch, b: Dispatch, matrix: seq<Descriptor>, shuffled: seq<Descriptor>, httpMethod: string, path: string)
    requires Unambiguous(matrix) && multiset(matrix) == multiset(shuffled)
    requires Answers(a, matrix, httpMethod, path) && Answers(b, shuffled, httpMethod, path)
    ensures a.Handled? <==> b.Handled?
    ensures a.Handled? ==> matrix[a.row] == shuffled[b.row] && a.params == b.params
    ensures !a.Handled? ==> a == b
  {
    hide MatchPath, StringLe;
    SameElements(matrix, shuffled);
    AnswerKinds(a, matrix, httpMethod, path);
    AnswerKinds(b, shuffled, httpMethod, path);
    SameMethods(matrix, shuffled, httpMethod, path);
    if a.Handled? && b.Handled? {
      assert shuffled[b.row] in matrix;
    } else if a.MethodNotAllowed? && b.MethodNotAllowed? {
      forall m ensures m in a.allow <==> m in b.allow {
        SameMethods(matrix, shuffled, m, path);
      }
      SortedOnce(a.allow, b.allow);
    }
  }

  lemma SameMethods(matrix: seq<Descriptor>, shuffled: seq<Descriptor>, m: string, path: string)
    requires multiset(matrix) == multiset(shuffled)
    ensures (exists i :: 0 <= i < |matrix| && matrix[i].httpMethod == m && Hits(matrix[i], path)) <==>
            (exists i :: 0 <= i < |shuffled| && shuffled[i].httpMethod == m && Hits(shuffled[i], path))
    ensures (forall i :: 0 <= i < |matrix| ==> !Hits(matrix[i], path)) <==>
            (forall i :: 0 <= i < |shuffled| ==> !Hits(shuffled[i], path))
  {
    SameElements(matrix, shuffled);
    assert forall i :: 0 <= i < |matrix| ==> matrix[i] in shuffled;
    assert forall i :: 0 <= i < |shuffled| ==> shuffled[i] in matrix;
  }
}
