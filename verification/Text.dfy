/** The string functions of Go's standard library that the router relies on. */
module Text {
  import opened Sorting

  // unicode.IsSpace
  predicate IsSpace(c: char) {
    var n := c as int;
    || 9 <= n <= 13 || n == 32 || n == 0x85 || n == 0xA0 || n == 0x1680
    || 0x2000 <= n <= 0x200A || n == 0x2028 || n == 0x2029 || n == 0x202F || n == 0x205F || n == 0x3000
  }

  predicate IsComma(c: char) { c == ',' }

  predicate IsSlash(c: char) { c == '/' }

  // What a call of strings.Trim is told to cut.
  datatype Cutset = Spaces | Commas | Slashes

  predicate Cuts(cut: Cutset, c: char) {
    match cut
    case Spaces => IsSpace(c)
    case Commas => IsComma(c)
    case Slashes => IsSlash(c)
  }

  function TrimLeft(s: string, cut: Cutset): string {
    if s == "" || !Cuts(cut, s[0]) then s else TrimLeft(s[1..], cut)
  }

  function TrimRight(s: string, cut: Cutset): string {
    if s == "" || !Cuts(cut, s[|s| - 1]) then s else TrimRight(s[..|s| - 1], cut)
  }

  // TrimLeft removes the longest prefix of cut characters.
  lemma {:induction false} TrimLeftCuts(s: string, cut: Cutset)
    ensures var r := TrimLeft(s, cut);
            && |r| <= |s| && r == s[|s| - |r|..]
            && (forall i :: 0 <= i < |s| - |r| ==> Cuts(cut, s[i]))
            && (r != "" ==> !Cuts(cut, r[0]))
  {
    if s != "" && Cuts(cut, s[0]) {
      TrimLeftCuts(s[1..], cut);
      assert s == [s[0]] + s[1..];
    }
  }

  // TrimRight removes the longest suffix of cut characters.
  lemma {:induction false} TrimRightCuts(s: string, cut: Cutset)
    ensures var r := TrimRight(s, cut);
            && |r| <= |s| && r == s[..|r|]
            && (forall i :: |r| <= i < |s| ==> Cuts(cut, s[i]))
            && (r != "" ==> !Cuts(cut, r[|r| - 1]))
  {
    if s != "" && Cuts(cut, s[|s| - 1]) {
      TrimRightCuts(s[..|s| - 1], cut);
    }
  }

  function Trim(s: string, cut: Cutset): string {
    TrimRight(TrimLeft(s, cut), cut)
  }

  function TrimSpace(s: string): string {
    Trim(s, Spaces)
  }

  // A string starts and ends with characters that trimming would keep.
  predicate Trimmed(s: string, cut: Cutset) {
    s != "" ==> !Cuts(cut, s[0]) && !Cuts(cut, s[|s| - 1])
  }

  lemma TrimmedFixed(s: string, cut: Cutset)
    ensures Trimmed(Trim(s, cut), cut)
    ensures Trim(s, cut) == s <==> Trimmed(s, cut)
    ensures |Trim(s, cut)| <= |s|
    ensures |Trim(s, cut)| == |s| ==> Trim(s, cut) == s
  {
    var l := TrimLeft(s, cut);
    var r := TrimRight(l, cut);
    TrimLeftCuts(s, cut);
    TrimRightCuts(l, cut);
    if r != "" {
      assert r[0] == l[0];
    }
  }

  lemma TrimSpaceFixed(s: string)
    ensures Trimmed(TrimSpace(s), Spaces)
    ensures TrimSpace(s) == s <==> Trimmed(s, Spaces)
    ensures |TrimSpace(s)| <= |s|
  {
    TrimmedFixed(s, Spaces);
  }

  lemma TrimTwice(s: string)
    ensures TrimSpace(TrimSpace(s)) == TrimSpace(s)
  {
    TrimSpaceFixed(s);
    TrimSpaceFixed(TrimSpace(s));
  }

  lemma {:induction false} TrimLeftSkips(x: string, s: string, cut: Cutset)
    requires forall i :: 0 <= i < |x| ==> Cuts(cut, x[i])
    ensures TrimLeft(x + s, cut) == TrimLeft(s, cut)
  {
    if x == "" {
      assert x + s == s;
    } else {
      assert (x + s)[1..] == x[1..] + s;
      TrimLeftSkips(x[1..], s, cut);
    }
  }

  lemma {:induction false} TrimRightSkips(s: string, x: string, cut: Cutset)
    requires forall i :: 0 <= i < |x| ==> Cuts(cut, x[i])
    ensures TrimRight(s + x, cut) == TrimRight(s, cut)
  {
    if x == "" {
      assert s + x == s;
    } else {
      assert (s + x)[..|s + x| - 1] == s + x[..|x| - 1];
      TrimRightSkips(s, x[..|x| - 1], cut);
    }
  }

  // A cutting character at either end of a string does not show in its trimmed form.
  lemma TrimIgnoresFront(c: char, s: string, cut: Cutset)
    requires Cuts(cut, c)
    ensures Trim([c] + s, cut) == Trim(s, cut)
  {
    TrimLeftSkips([c], s, cut);
  }

  lemma {:induction false} TrimLeftAppend(s: string, t: string, cut: Cutset)
    ensures TrimLeft(s + t, cut) ==
            if TrimLeft(s, cut) == "" then TrimLeft(t, cut) else TrimLeft(s, cut) + t
  {
    if s == "" {
      assert s + t == t;
    } else {
      assert (s + t)[1..] == s[1..] + t;
      assert (s + t)[0] == s[0];
      TrimLeftAppend(s[1..], t, cut);
    }
  }

  lemma TrimIgnoresBack(s: string, c: char, cut: Cutset)
    requires Cuts(cut, c)
    ensures Trim(s + [c], cut) == Trim(s, cut)
  {
    TrimLeftAppend(s, [c], cut);
    if TrimLeft(s, cut) != "" {
      TrimRightSkips(TrimLeft(s, cut), [c], cut);
    }
  }

  lemma TrimSpaceIgnores(s: string, c: char)
    requires IsSpace(c)
    ensures TrimSpace([c] + s) == TrimSpace(s) == TrimSpace(s + [c])
  {
    TrimIgnoresFront(c, s, Spaces);
    TrimIgnoresBack(s, c, Spaces);
  }

  predicate HasPrefix(s: string, p: string) {
    |p| <= |s| && s[..|p|] == p
  }

  predicate HasSuffix(s: string, x: string) {
    |x| <= |s| && s[|s| - |x|..] == x
  }

  function TrimPrefix(s: string, p: string): string {
    if HasPrefix(s, p) then s[|p|..] else s
  }

  function TrimSuffix(s: string, x: string): string {
    if HasSuffix(s, x) then s[..|s| - |x|] else s
  }

  function LowerChar(c: char): char {
    if 'A' <= c <= 'Z' then (c as int + 32) as char else c
  }

  function ToLower(s: string): (r: string)
    ensures |r| == |s|
    ensures forall i :: 0 <= i < |s| ==> r[i] == LowerChar(s[i])
  {
    seq(|s|, i requires 0 <= i < |s| => LowerChar(s[i]))
  }

  function ToUpper(s: string): (r: string)
    ensures |r| == |s|
    ensures forall i :: 0 <= i < |s| ==> LowerChar(r[i]) == LowerChar(s[i]) && !('a' <= r[i] <= 'z')
  {
    seq(|s|, i requires 0 <= i < |s| => if 'a' <= s[i] <= 'z' then (s[i] as int - 32) as char else s[i])
  }

  function Split(s: string, sep: char): (parts: seq<string>)
    ensures |parts| > 0
  {
    if s == "" then [""]
    else
      var rest := Split(s[1..], sep);
      if s[0] == sep then [""] + rest else [[s[0]] + rest[0]] + rest[1..]
  }

  // Two split strings joined: the pieces that meet in the middle become one.
  function Glue(x: seq<string>, y: seq<string>): (r: seq<string>)
    requires |x| > 0 && |y| > 0
    ensures |r| == |x| + |y| - 1
  {
    x[..|x| - 1] + [x[|x| - 1] + y[0]] + y[1..]
  }

  lemma GlueStart(p: string, x: seq<string>, y: seq<string>)
    requires |x| > 0 && |y| > 0
    ensures Glue([p] + x, y) == [p] + Glue(x, y)
  {
  }

  lemma GlueFirst(p: string, x: seq<string>, y: seq<string>)
    requires |x| > 0 && |y| > 0
    ensures Glue([p + x[0]] + x[1..], y) == [p + Glue(x, y)[0]] + Glue(x, y)[1..]
  {
    if |x| == 1 {
      assert p + (x[0] + y[0]) == p + x[0] + y[0];
    }
  }

  lemma {:induction false} SplitConcat(a: string, b: string, sep: char)
    ensures Split(a + b, sep) == Glue(Split(a, sep), Split(b, sep))
  {
    if a == "" {
      assert a + b == b;
      assert "" + Split(b, sep)[0] == Split(b, sep)[0];
    } else {
      assert (a + b)[1..] == a[1..] + b;
      SplitConcat(a[1..], b, sep);
      if a[0] == sep {
        GlueStart("", Split(a[1..], sep), Split(b, sep));
      } else {
        GlueFirst([a[0]], Split(a[1..], sep), Split(b, sep));
      }
    }
  }

  // The loop shared by splitCSV and compactStrings: trim every part, drop the empty ones.
  function Compact(parts: seq<string>): seq<string> {
    if parts == [] then []
    else
      var p := TrimSpace(parts[|parts| - 1]);
      Compact(parts[..|parts| - 1]) + if p == "" then [] else [p]
  }

  lemma {:induction false} CompactConcat(a: seq<string>, b: seq<string>)
    ensures Compact(a + b) == Compact(a) + Compact(b)
  {
    if b == [] {
      assert a + b == a;
    } else {
      assert (a + b)[..|a + b| - 1] == a + b[..|b| - 1];
      CompactConcat(a, b[..|b| - 1]);
    }
  }

  // The entries of a comma separated list, read directly: split everywhere, trim, drop blanks.
  function Entries(value: string): seq<string> {
    Compact(Split(value, ','))
  }

  lemma {:induction false} CompactMembers(parts: seq<string>)
    ensures forall x :: x in Compact(parts) ==> x != "" && Trimmed(x, Spaces)
  {
    if parts != [] {
      CompactMembers(parts[..|parts| - 1]);
      TrimmedFixed(parts[|parts| - 1], Spaces);
    }
  }

  lemma CompactSingle(p: string)
    ensures Compact([p]) == if TrimSpace(p) == "" then [] else [TrimSpace(p)]
  {
    assert [p][..0] == [];
  }

  lemma CompactBlank()
    ensures Compact([""]) == []
  {
    CompactSingle("");
  }

  lemma EntriesIgnoreFront(c: char, s: string)
    requires IsSpace(c) || IsComma(c)
    ensures Entries([c] + s) == Entries(s)
  {
    var parts := Split(s, ',');
    assert ([c] + s)[1..] == s;
    if c == ',' {
      assert Split([c] + s, ',') == [""] + parts;
      CompactConcat([""], parts);
      CompactBlank();
    } else {
      assert Split([c] + s, ',') == [[c] + parts[0]] + parts[1..];
      assert parts == [parts[0]] + parts[1..];
      TrimSpaceIgnores(parts[0], c);
      CompactConcat([[c] + parts[0]], parts[1..]);
      CompactConcat([parts[0]], parts[1..]);
      CompactSingle([c] + parts[0]);
      CompactSingle(parts[0]);
    }
  }

  lemma EntriesIgnoreComma(s: string)
    ensures Entries(s + [',']) == Entries(s)
  {
    var parts := Split(s, ',');
    var n := |parts| - 1;
    SplitConcat(s, [','], ',');
    assert [','][1..] == "";
    assert Split([','], ',') == ["", ""];
    assert parts[n] + "" == parts[n];
    assert Split(s + [','], ',') == parts + [""];
    CompactConcat(parts, [""]);
    CompactBlank();
  }

  lemma EntriesIgnoreSpace(s: string, c: char)
    requires IsSpace(c)
    ensures Entries(s + [c]) == Entries(s)
  {
    var parts := Split(s, ',');
    var n := |parts| - 1;
    SplitConcat(s, [c], ',');
    assert [c][1..] == "" && [c] + "" == [c];
    assert Split([c], ',') == [[c]];
    assert Split(s + [c], ',') == parts[..n] + [parts[n] + [c]];
    assert parts == parts[..n] + [parts[n]];
    TrimSpaceIgnores(parts[n], c);
    CompactConcat(parts[..n], [parts[n] + [c]]);
    CompactConcat(parts[..n], [parts[n]]);
    CompactSingle(parts[n] + [c]);
    CompactSingle(parts[n]);
  }

  lemma EntriesIgnoreBack(s: string, c: char)
    requires IsSpace(c) || IsComma(c)
    ensures Entries(s + [c]) == Entries(s)
  {
    if IsComma(c) {
      EntriesIgnoreComma(s);
    } else {
      EntriesIgnoreSpace(s, c);
    }
  }

  lemma {:induction false} EntriesIgnoreLeft(s: string, cut: Cutset)
    requires cut != Slashes
    ensures Entries(TrimLeft(s, cut)) == Entries(s)
  {
    hide Entries;
    if s != "" && Cuts(cut, s[0]) {
      EntriesIgnoreLeft(s[1..], cut);
      assert s == [s[0]] + s[1..];
      EntriesIgnoreFront(s[0], s[1..]);
    }
  }

  lemma {:induction false} EntriesIgnoreRight(s: string, cut: Cutset)
    requires cut != Slashes
    ensures Entries(TrimRight(s, cut)) == Entries(s)
  {
    hide Entries;
    if s != "" && Cuts(cut, s[|s| - 1]) {
      var init := s[..|s| - 1];
      EntriesIgnoreRight(init, cut);
      assert s == init + [s[|s| - 1]];
      EntriesIgnoreBack(init, s[|s| - 1]);
    }
  }

  lemma EntriesIgnoreTrim(s: string, cut: Cutset)
    requires cut != Slashes
    ensures Entries(Trim(s, cut)) == Entries(s)
  {
    EntriesIgnoreLeft(s, cut);
    EntriesIgnoreRight(TrimLeft(s, cut), cut);
  }

  // The normalisation the router applies before splitting never changes the entries.
  lemma EntriesIgnoreNormalisation(s: string)
    ensures Entries(Trim(TrimSpace(s), Commas)) == Entries(s)
  {
    EntriesIgnoreTrim(s, Spaces);
    EntriesIgnoreTrim(TrimSpace(s), Commas);
  }

  lemma CompactSnoc(parts: seq<string>, i: nat)
    requires i < |parts|
    ensures Compact(parts[..i + 1]) ==
            Compact(parts[..i]) + if TrimSpace(parts[i]) == "" then [] else [TrimSpace(parts[i])]
  {
    assert parts[..i + 1][..i] == parts[..i];
  }

  method CompactLoop(parts: seq<string>) returns (out: seq<string>)
    ensures out == Compact(parts)
  {
    out := [];
    for i := 0 to |parts|
      invariant out == Compact(parts[..i])
    {
      var part := TrimSpace(parts[i]);
      CompactSnoc(parts, i);
      if part != "" {
        out := out + [part];
      }
    }
    assert parts[..|parts|] == parts;
  }

  // splitCSV with an empty fallback: normalises the whole value first, then splits and compacts.
  method SplitCSV(value: string) returns (out: seq<string>)
    ensures out == Entries(value)
    ensures forall x :: x in out ==> x != "" && Trimmed(x, Spaces)
  {
    EntriesIgnoreNormalisation(value);
    CompactMembers(Split(value, ','));
    var v := Trim(TrimSpace(value), Commas);
    if v == "" {
      CompactBlank();
      assert Entries("") == [];
      return [];
    }
    out := CompactLoop(Split(v, ','));
  }

  // Lexicographic order of code points, which is Go's byte order on well-formed UTF-8.
  predicate StringLe(a: string, b: string) {
    a == "" || (b != "" && (a[0] < b[0] || (a[0] == b[0] && StringLe(a[1..], b[1..]))))
  }

  lemma {:induction false} StringLeTotal(a: string, b: string)
    ensures StringLe(a, b) || StringLe(b, a)
    ensures StringLe(a, b) && StringLe(b, a) ==> a == b
  {
    if a != "" && b != "" {
      StringLeTotal(a[1..], b[1..]);
    }
  }

  lemma {:induction false} StringLeTransitive(a: string, b: string, c: string)
    requires StringLe(a, b) && StringLe(b, c)
    ensures StringLe(a, c)
  {
    if a != "" && a[0] == b[0] && b[0] == c[0] {
      StringLeTransitive(a[1..], b[1..], c[1..]);
    }
  }

  lemma StringLeOrders()
    ensures TotalPreorder(StringLe)
  {
    forall x, y ensures StringLe(x, y) || StringLe(y, x) {
      StringLeTotal(x, y);
    }
    forall x, y, z | StringLe(x, y) && StringLe(y, z) ensures StringLe(x, z) {
      StringLeTransitive(x, y, z);
    }
  }
}
