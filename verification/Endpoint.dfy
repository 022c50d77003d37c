/** Normalisation of a provider's base URL into the endpoint of one kind of request. */
module Endpoint {
  import opened Text

  datatype Kind = ChatCompletions | Completions

  const CHAT: string := "/chat"
  const TAIL: string := "/completions"
  const CHAT_TAIL: string := "/chat/completions"

  const DOUBLE_CHAT_TAIL: string := "/chat/chat/completions"

  lemma Names()
    ensures CHAT + TAIL == CHAT_TAIL && CHAT + CHAT_TAIL == DOUBLE_CHAT_TAIL
  {
    var a, b := CHAT + TAIL, CHAT + CHAT_TAIL;
    assert |a| == |CHAT_TAIL| && forall k :: 0 <= k < |a| ==> a[k] == CHAT_TAIL[k];
    assert |b| == |DOUBLE_CHAT_TAIL| && forall k :: 0 <= k < |b| ==> b[k] == DOUBLE_CHAT_TAIL[k];
  }

  function Base(url: string): string {
    TrimRight(TrimSpace(url), Slashes)
  }

  function NormalizeEndpoint(url: string, kind: Kind): string {
    var b := Base(url);
    match kind
    case ChatCompletions =>
      if HasSuffix(b, CHAT_TAIL) then b
      else if HasSuffix(b, TAIL) then TrimSuffix(b, TAIL) + CHAT_TAIL
      else b + CHAT_TAIL
    case Completions =>
      if HasSuffix(b, CHAT_TAIL) then TrimSuffix(b, CHAT_TAIL) + TAIL
      else if HasSuffix(b, TAIL) then b
      else b + TAIL
  }

  lemma SuffixOf(y: string, x: string, s: string)
    ensures HasSuffix(y + x, x) && TrimSuffix(y + x, x) == y
    ensures HasSuffix(y + s, x + s) <==> HasSuffix(y, x)
    ensures HasSuffix(s, x) ==> s == TrimSuffix(s, x) + x
  {
    if |x| <= |y| {
      assert (y + s)[|y| - |x|..] == y[|y| - |x|..] + s;
      if y[|y| - |x|..] + s == x + s {
        assert (y[|y| - |x|..] + s)[..|x|] == (x + s)[..|x|];
      }
    }
  }

  predicate StartsClean(y: string) {
    y == "" || !IsSpace(y[0])
  }

  lemma BaseStartsClean(url: string)
    ensures StartsClean(Base(url))
  {
    TrimSpaceFixed(url);
    TrimRightCuts(TrimSpace(url), Slashes);
    assert Base(url) != "" ==> Base(url)[0] == TrimSpace(url)[0];
  }

  // What normalisation produces is left alone by the trimming of a second one.
  lemma OutputIsBase(y: string, x: string)
    requires StartsClean(y) && (x == TAIL || x == CHAT_TAIL)
    ensures Base(y + x) == y + x
  {
    hide TrimRight, Trim, TrimSpace;
    var o := y + x;
    assert o[0] == (if y == "" then '/' else y[0]) && o[|o| - 1] == x[|x| - 1] == 's';
    TrimSpaceFixed(o);
    TrimRightCuts(o, Slashes);
    assert |TrimRight(o, Slashes)| < |o| ==> IsSlash(o[|o| - 1]);
  }

  // The base without the part that names an endpoint: both kinds put their own name after it.
  function Root(b: string): string {
    if HasSuffix(b, CHAT_TAIL) then TrimSuffix(b, CHAT_TAIL)
    else if HasSuffix(b, TAIL) then TrimSuffix(b, TAIL)
    else b
  }

  lemma ByRoot(url: string)
    ensures NormalizeEndpoint(url, ChatCompletions) == Root(Base(url)) + CHAT_TAIL
    ensures NormalizeEndpoint(url, Completions) == Root(Base(url)) + TAIL
    ensures StartsClean(Root(Base(url)))
  {
    BaseStartsClean(url);
    SuffixOf("", CHAT_TAIL, Base(url));
    SuffixOf("", TAIL, Base(url));
  }

  lemma RootOf(y: string)
    ensures Root(y + CHAT_TAIL) == y
    ensures Root(y + TAIL) == if HasSuffix(y, CHAT) then TrimSuffix(y, CHAT) else y
  {
    hide HasSuffix, TrimSuffix, CHAT, TAIL, CHAT_TAIL;
    SuffixOf(y, CHAT_TAIL, "");
    SuffixOf(y, TAIL, "");
    SuffixOf(y, CHAT, TAIL);
    Names();
    if HasSuffix(y, CHAT) {
      SuffixOf("", CHAT, y);
      var z := TrimSuffix(y, CHAT);
      assert y + TAIL == z + (CHAT + TAIL);
      SuffixOf(z, CHAT_TAIL, "");
    }
  }

  // A base without the name of an endpoint gets the name asked for, whichever name, or slash, it
  // comes with.
  lemma EndpointForms(y: string, tail: string)
    requires y != "" && Trimmed(y, Spaces) && y[|y| - 1] != '/'
    requires !HasSuffix(y, "/chat") && !HasSuffix(y, "/completions")
    requires tail == "" || tail == "/" || tail == "/completions" || tail == "/chat/completions"
    ensures NormalizeEndpoint(y + tail, ChatCompletions) == y + "/chat/completions"
    ensures NormalizeEndpoint(y + tail, Completions) == y + "/completions"
  {
    hide TrimRight, Trim, TrimSpace, HasSuffix, NormalizeEndpoint, Root, Base;
    ByRoot(y + tail);
    RootOf(y);
    if tail == "" || tail == "/" {
      BareBase(y, tail);
      BareRoot(y);
    } else {
      OutputIsBase(y, tail);
    }
  }

  lemma BareBase(y: string, tail: string)
    requires y != "" && Trimmed(y, Spaces) && y[|y| - 1] != '/' && (tail == "" || tail == "/")
    ensures Base(y + tail) == y
  {
    hide TrimRight, Trim, TrimSpace;
    assert (y + tail)[0] == y[0];
    TrimSpaceFixed(y + tail);
    TrimRightSkips(y, tail, Slashes);
    TrimRightCuts(y, Slashes);
  }

  lemma BareRoot(y: string)
    requires !HasSuffix(y, TAIL)
    ensures Root(y) == y
  {
    hide TrimSuffix;
    LastDecides(y);
  }

  // The URLs whose completions endpoint reads as a chat endpoint of a shorter base.
  predicate EndsInChat(url: string) {
    HasSuffix(Base(url), CHAT) || HasSuffix(Base(url), DOUBLE_CHAT_TAIL)
  }

  lemma RootEndsInChat(url: string)
    ensures EndsInChat(url) <==> HasSuffix(Root(Base(url)), CHAT)
  {
    var b := Base(url);
    var r := Root(b);
    SuffixOf("", CHAT_TAIL, b);
    SuffixOf("", TAIL, b);
    SuffixOf(r, CHAT, CHAT_TAIL);
    SuffixOf(r, CHAT, TAIL);
    Names();
    LastDecides(b);
  }

  lemma LastDecides(b: string)
    ensures HasSuffix(b, CHAT) ==> !HasSuffix(b, TAIL)
    ensures HasSuffix(b, CHAT_TAIL) ==> HasSuffix(b, TAIL)
    ensures HasSuffix(b, DOUBLE_CHAT_TAIL) ==> HasSuffix(b, CHAT_TAIL)
  {
    assert HasSuffix(b, CHAT) ==> b[|b| - 5..][4] == 't';
    assert HasSuffix(b, TAIL) ==> b[|b| - 12..][11] == 's';
    if HasSuffix(b, CHAT_TAIL) {
      assert b[|b| - 12..] == b[|b| - 17..][5..];
    }
    if HasSuffix(b, DOUBLE_CHAT_TAIL) {
      assert b[|b| - 17..] == b[|b| - 22..][5..];
    }
  }

  lemma NormalizeAgain(url: string, first: Kind, second: Kind)
    ensures var again := NormalizeEndpoint(NormalizeEndpoint(url, first), second);
            var root := Root(Base(url));
            var left := if first == Completions && HasSuffix(root, CHAT) then TrimSuffix(root, CHAT) else root;
            again == left + (if second == ChatCompletions then CHAT_TAIL else TAIL)
  {
    ByRoot(url);
    var root := Root(Base(url));
    var o := root + (if first == ChatCompletions then CHAT_TAIL else TAIL);
    OutputIsBase(root, if first == ChatCompletions then CHAT_TAIL else TAIL);
    ByRoot(o);
    RootOf(root);
  }

  lemma ChatIdempotent(url: string)
    ensures NormalizeEndpoint(NormalizeEndpoint(url, ChatCompletions), ChatCompletions) ==
            NormalizeEndpoint(url, ChatCompletions)
  {
    NormalizeAgain(url, ChatCompletions, ChatCompletions);
    ByRoot(url);
  }

  lemma CompletionsAfterChat(url: string)
    ensures NormalizeEndpoint(NormalizeEndpoint(url, ChatCompletions), Completions) ==
            NormalizeEndpoint(url, Completions)
  {
    NormalizeAgain(url, ChatCompletions, Completions);
    ByRoot(url);
  }

  // Normalising for completions first loses a path segment exactly when the base URL ends in
  // "/chat", or in "/chat" before a chat endpoint: only then is it not idempotent, and only
  // then does it change what normalising for chat afterwards gives.
  lemma CompletionsIdempotentExactly(url: string)
    ensures NormalizeEndpoint(NormalizeEndpoint(url, Completions), Completions) == NormalizeEndpoint(url, Completions)
            <==> !EndsInChat(url)
    ensures NormalizeEndpoint(NormalizeEndpoint(url, Completions), ChatCompletions) == NormalizeEndpoint(url, ChatCompletions)
            <==> !EndsInChat(url)
    ensures HasSuffix(NormalizeEndpoint(url, Completions), CHAT_TAIL) <==> EndsInChat(url)
  {
    NormalizeAgain(url, Completions, Completions);
    NormalizeAgain(url, Completions, ChatCompletions);
    ByRoot(url);
    RootEndsInChat(url);
    var root := Root(Base(url));
    SuffixOf(root, CHAT, TAIL);
    Names();
    if HasSuffix(root, CHAT) {
      Shorter(root);
    }
  }

  lemma Shorter(root: string)
    requires HasSuffix(root, CHAT)
    ensures |TrimSuffix(root, CHAT)| < |root|
  {
  }
}
