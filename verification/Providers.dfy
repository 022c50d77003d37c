/** Provider and channel rows: their defaults, capability lists and the projection of one onto the other. */
module Providers {
  import opened Text
  import opened Weighted
  import opened Wrappers

  const STATUS_ENABLED := 1
  const STATUS_DISABLED := 2
  const CHANNEL_ID_OFFSET: nat := 1_000_000
  const CHAT_COMPLETIONS := "openai.chat_completions"
  const COMPLETIONS := "openai.completions"

  function DefaultCapabilities(): seq<string> {
    [CHAT_COMPLETIONS, COMPLETIONS]
  }

  function NormalizeCapability(value: string): string {
    ToLower(TrimSpace(value))
  }

  // The distinct non-blank capabilities, normalised, in order of first appearance.
  function NormalizeCapabilities(values: seq<string>): seq<string> {
    if values == [] then []
    else
      var out := NormalizeCapabilities(values[..|values| - 1]);
      var x := NormalizeCapability(values[|values| - 1]);
      if x == "" || x in out then out else out + [x]
  }

  // The loop of the router, which remembers what it has seen in a set.
  method NormalizeEndpointCapabilities(values: seq<string>) returns (out: seq<string>)
    ensures out == NormalizeCapabilities(values)
  {
    out := [];
    var seen: set<string> := {};
    for i := 0 to |values|
      invariant out == NormalizeCapabilities(values[..i])
      invariant forall x :: x in seen <==> x in out
    {
      assert values[..i + 1][..i] == values[..i];
      var normalized := NormalizeCapability(values[i]);
      if normalized != "" && normalized !in seen {
        seen := seen + {normalized};
        out := out + [normalized];
      }
    }
    assert values[..|values|] == values;
  }

  lemma NormalizeCapabilityIdempotent(value: string)
    ensures NormalizeCapability(NormalizeCapability(value)) == NormalizeCapability(value)
  {
    var x := TrimSpace(value);
    var y := ToLower(x);
    TrimSpaceFixed(value);
    TrimSpaceFixed(y);
    assert ToLower(y) == y;
  }

  // Where a normalised capability first appears.
  ghost predicate FirstAt(values: seq<string>, i: int, x: string) {
    0 <= i < |values| && NormalizeCapability(values[i]) == x
    && forall j :: 0 <= j < i ==> NormalizeCapability(values[j]) != x
  }

  lemma {:induction false} NormalizeMembers(values: seq<string>, x: string)
    ensures x in NormalizeCapabilities(values) <==> x != "" && exists i :: FirstAt(values, i, x)
  {
    hide NormalizeCapability;
    if values != [] {
      var n := |values| - 1;
      var init := values[..n];
      NormalizeMembers(init, x);
      if i :| FirstAt(values, i, x) {
        assert i < n ==> FirstAt(init, i, x);
      }
      if i :| FirstAt(init, i, x) {
        assert FirstAt(values, i, x);
      } else if NormalizeCapability(values[n]) == x {
        LeastOccurrence(values, n, x);
      }
    }
  }

  lemma {:induction false} LeastOccurrence(values: seq<string>, n: nat, x: string)
    requires n < |values| && NormalizeCapability(values[n]) == x
    ensures exists i :: FirstAt(values, i, x)
    decreases n
  {
    if j :| 0 <= j < n && NormalizeCapability(values[j]) == x {
      LeastOccurrence(values, j, x);
    } else {
      assert FirstAt(values, n, x);
    }
  }

  // Normalising keeps the order of first appearance, so nothing appears twice.
  lemma {:induction false} NormalizeKeepsOrder(values: seq<string>, a: nat, b: nat, i: int, j: int)
    requires a < b < |NormalizeCapabilities(values)|
    requires FirstAt(values, i, NormalizeCapabilities(values)[a])
    requires FirstAt(values, j, NormalizeCapabilities(values)[b])
    ensures i < j
    ensures NormalizeCapabilities(values)[a] != NormalizeCapabilities(values)[b]
  {
    hide NormalizeCapability;
    var n := |values| - 1;
    var init := values[..n];
    var out := NormalizeCapabilities(init);
    NormalizeMembers(init, NormalizeCapabilities(values)[a]);
    if b < |out| {
      NormalizeMembers(init, out[b]);
      var i' :| FirstAt(init, i', out[a]);
      var j' :| FirstAt(init, j', out[b]);
      assert FirstAt(values, i', out[a]) && FirstAt(values, j', out[b]);
      NormalizeKeepsOrder(init, a, b, i', j');
    } else {
      var i' :| FirstAt(init, i', out[a]);
      assert FirstAt(values, i', out[a]);
      var last := NormalizeCapability(values[n]);
      NormalizeMembers(init, last);
      assert j < n ==> FirstAt(init, j, last);
    }
  }

  lemma {:induction false} NormalizedAreFixed(values: seq<string>)
    ensures forall x :: x in NormalizeCapabilities(values) ==> x != "" && NormalizeCapability(x) == x
  {
    if values != [] {
      NormalizedAreFixed(values[..|values| - 1]);
      NormalizeCapabilityIdempotent(values[|values| - 1]);
    }
  }

  lemma {:induction false} NormalizePrefix(values: seq<string>, out: seq<string>, k: nat)
    requires out == NormalizeCapabilities(values) && k <= |out|
    ensures NormalizeCapabilities(out[..k]) == out[..k]
  {
    hide NormalizeCapability;
    if k > 0 {
      NormalizePrefix(values, out, k - 1);
      NormalizedAreFixed(values);
      assert out[..k][..k - 1] == out[..k - 1];
      if out[k - 1] in out[..k - 1] {
        var a :| 0 <= a < k - 1 && out[a] == out[k - 1];
        NormalizeMembers(values, out[a]);
        var i :| FirstAt(values, i, out[a]);
        NormalizeKeepsOrder(values, a, k - 1, i, i);
      }
    }
  }

  lemma NormalizeCapabilitiesIdempotent(values: seq<string>)
    ensures NormalizeCapabilities(NormalizeCapabilities(values)) == NormalizeCapabilities(values)
  {
    var out := NormalizeCapabilities(values);
    NormalizePrefix(values, out, |out|);
    assert out[..|out|] == out;
  }

  datatype Provider = Provider(
    id: nat,
    platformChannelID: nat,
    name: string,
    vendor: string,
    baseURL: string,
    apiKey: string,
    authHeader: string,
    authPrefix: string,
    models: string,
    modelMapping: map<string, string>,
    headers: map<string, string>,
    capabilities: seq<string>,
    channelType: string,
    relayFormat: string,
    status: int,
    weight: Uint64,
    priority: int)
  {
    function ModelList(): seq<string> {
      Entries(models)
    }

    predicate Enabled() {
      status == 0 || status == STATUS_ENABLED
    }

    // The public models a provider serves.
    predicate Lists(model: string) {
      Enabled() && model in ModelList()
    }

    predicate Serves() {
      Enabled() && ModelList() != []
    }

    function Defaulted(): Provider {
      this.(vendor := TrimSpace(vendor),
            name := TrimSpace(name),
            baseURL := TrimSpace(baseURL),
            channelType := TrimSpace(channelType),
            relayFormat := TrimSpace(relayFormat),
            models := Trim(TrimSpace(models), Commas),
            status := if status == 0 then STATUS_ENABLED else status,
            capabilities := NormalizedCapabilities())
    }

    // The row a save writes; the channel ID is not a column.
    function Stored(): Provider {
      Defaulted().(platformChannelID := 0)
    }

    function NormalizedCapabilities(): (caps: seq<string>)
      ensures caps != []
    {
      var caps := NormalizeCapabilities(capabilities);
      if caps == [] then DefaultCapabilities() else caps
    }

    predicate Supports(capability: string) {
      NormalizeCapability(capability) == "" || NormalizeCapability(capability) in NormalizedCapabilities()
    }

    function UpstreamModel(model: string): string {
      if model in modelMapping && TrimSpace(modelMapping[model]) != "" then modelMapping[model] else model
    }

    function AuthHeaderOrDefault(): string {
      if TrimSpace(authHeader) != "" then TrimSpace(authHeader) else "Authorization"
    }

    function AuthPrefixOrDefault(): string {
      if authPrefix != "" then authPrefix
      else if ToLower(AuthHeaderOrDefault()) == ToLower("Authorization") then "Bearer "
      else ""
    }
  }

  lemma LowerFixed(s: string)
    requires forall i :: 0 <= i < |s| ==> !('A' <= s[i] <= 'Z')
    requires Trimmed(s, Spaces)
    ensures NormalizeCapability(s) == s
  {
    TrimSpaceFixed(s);
    assert ToLower(s) == s;
  }

  lemma DefaultCapabilitiesFixed()
    ensures NormalizeCapabilities(DefaultCapabilities()) == DefaultCapabilities()
  {
    hide NormalizeCapability;
    LowerFixed(CHAT_COMPLETIONS);
    LowerFixed(COMPLETIONS);
    var d := DefaultCapabilities();
    assert d[..1] == [CHAT_COMPLETIONS];
    assert d[..1][..0] == [];
    assert NormalizeCapabilities(d[..1]) == d[..1];
  }

  lemma ListedIsTrimmed(p: Provider, model: string)
    requires model in p.ModelList() || p.Lists(model)
    ensures model != "" && TrimSpace(model) == model
  {
    CompactMembers(Split(p.models, ','));
    TrimSpaceFixed(model);
  }

  // Filling in defaults changes neither what a provider serves nor whether it is in service.
  lemma DefaultsKeepService(p: Provider)
    ensures p.Defaulted().ModelList() == p.ModelList()
    ensures p.Defaulted().Enabled() == p.Enabled()
    ensures p.Defaulted().status == STATUS_ENABLED <==> p.Enabled()
    ensures p.Defaulted().NormalizedCapabilities() == p.NormalizedCapabilities()
    ensures forall c :: p.Defaulted().Supports(c) == p.Supports(c)
    ensures forall m :: p.Defaulted().Lists(m) == p.Lists(m)
    ensures forall m :: p.Defaulted().UpstreamModel(m) == p.UpstreamModel(m)
  {
    EntriesIgnoreNormalisation(p.models);
    DefaultCapabilitiesFixed();
    NormalizeCapabilitiesIdempotent(p.capabilities);
  }

  // White space on the inner side of the outer commas of a list.
  predicate SpaceAfterCommas(t: string) {
    exists k :: 0 < k < |t| && IsSpace(t[k]) && forall i :: 0 <= i < k ==> IsComma(t[i])
  }

  predicate SpaceBeforeCommas(t: string) {
    exists k :: 0 <= k < |t| - 1 && IsSpace(t[k]) && forall i :: k < i < |t| ==> IsComma(t[i])
  }

  lemma CommaEnds(t: string) returns (a: nat, b: nat)
    ensures a <= b <= |t| && Trim(t, Commas) == t[a..b]
    ensures forall i :: 0 <= i < a || b <= i < |t| ==> IsComma(t[i])
    ensures a < b ==> !IsComma(t[a]) && !IsComma(t[b - 1])
  {
    hide TrimLeft, TrimRight;
    var l := TrimLeft(t, Commas);
    var r := TrimRight(l, Commas);
    TrimLeftCuts(t, Commas);
    TrimRightCuts(l, Commas);
    a, b := |t| - |l|, |t| - |l| + |r|;
    assert forall i :: a <= i < |t| ==> t[i] == l[i - a];
  }

  lemma FirstOfCut(t: string, a: nat, b: nat)
    requires Trimmed(t, Spaces) && a < b <= |t| && !IsComma(t[a])
    requires forall i :: 0 <= i < a ==> IsComma(t[i])
    ensures IsSpace(t[a]) <==> SpaceAfterCommas(t)
  {
    hide IsSpace;
    CommaIsNoSpace();
    if SpaceAfterCommas(t) {
      var k :| 0 < k < |t| && IsSpace(t[k]) && forall i :: 0 <= i < k ==> IsComma(t[i]);
      assert a == k;
    }
  }

  lemma LastOfCut(t: string, a: nat, b: nat)
    requires Trimmed(t, Spaces) && a < b <= |t| && !IsComma(t[b - 1])
    requires forall i :: b <= i < |t| ==> IsComma(t[i])
    ensures IsSpace(t[b - 1]) <==> SpaceBeforeCommas(t)
  {
    hide IsSpace;
    CommaIsNoSpace();
    if SpaceBeforeCommas(t) {
      var k :| 0 <= k < |t| - 1 && IsSpace(t[k]) && forall i :: k < i < |t| ==> IsComma(t[i]);
      assert b - 1 == k;
    }
  }

  lemma CutCommas(t: string)
    requires Trimmed(t, Spaces)
    ensures Trimmed(Trim(t, Commas), Spaces) <==> !SpaceAfterCommas(t) && !SpaceBeforeCommas(t)
  {
    hide Trim, IsSpace;
    CommaIsNoSpace();
    var a, b := CommaEnds(t);
    if a < b {
      hide SpaceAfterCommas, SpaceBeforeCommas;
      FirstOfCut(t, a, b);
      LastOfCut(t, a, b);
    }
  }

  lemma CommaIsNoSpace()
    ensures forall c :: IsSpace(c) ==> !IsComma(c)
  {
  }

  // The stored model string is a fixed point of the defaults exactly when no white space stands
  // on the inner side of the outer commas of the text it was made from.
  lemma ModelStringFixedExactly(p: Provider)
    ensures p.Defaulted().Defaulted().models == p.Defaulted().models <==>
            !SpaceAfterCommas(TrimSpace(p.models)) && !SpaceBeforeCommas(TrimSpace(p.models))
  {
    hide TrimSpace, Trim, SpaceAfterCommas, SpaceBeforeCommas, Provider.NormalizedCapabilities;
    var t := TrimSpace(p.models);
    var c := Trim(t, Commas);
    TrimSpaceFixed(p.models);
    CutCommas(t);
    TrimSpaceFixed(c);
    TrimmedFixed(t, Commas);
    TrimmedFixed(c, Commas);
    TrimmedFixed(TrimSpace(c), Commas);
    ShorterWhenTrimmed(c);
  }

  lemma ShorterWhenTrimmed(s: string)
    ensures |TrimSpace(s)| == |s| ==> TrimSpace(s) == s
  {
    TrimmedFixed(s, Spaces);
  }

  lemma ModelStringNotFixed(p: Provider)
    requires p.models == ", a"
    ensures p.Defaulted().Defaulted().models != p.Defaulted().models
  {
    hide TrimSpace;
    TrimSpaceFixed(", a");
    assert IsComma(", a"[0]) && IsSpace(", a"[1]);
    assert SpaceAfterCommas(", a");
    ModelStringFixedExactly(p);
  }

  datatype Channel = Channel(
    id: nat,
    name: string,
    legacyProviderID: nat,
    vendor: string,
    publicModelID: string,
    capabilities: seq<string>,
    status: int,
    priority: int,
    weight: Uint64,
    upstreamBaseURL: string,
    upstreamModel: string,
    secretRef: string,
    authHeader: string,
    authPrefix: string,
    headers: map<string, string>,
    channelType: string,
    relayFormat: string,
    billingClass: string)
  {
    // The save hook: trims, fills in defaults, and refuses rows without one plain public model.
    function Defaulted(): Result<Channel, string> {
      var c := this.(name := TrimSpace(name),
                     vendor := TrimSpace(vendor),
                     publicModelID := TrimSpace(publicModelID),
                     upstreamBaseURL := TrimSpace(upstreamBaseURL),
                     upstreamModel := TrimSpace(upstreamModel),
                     secretRef := TrimSpace(secretRef),
                     authHeader := TrimSpace(authHeader),
                     authPrefix := TrimSpace(authPrefix),
                     channelType := TrimSpace(channelType),
                     relayFormat := TrimSpace(relayFormat),
                     billingClass := TrimSpace(billingClass));
      if c.vendor == "" then Failure("provider is required")
      else if !PlainModel(c.publicModelID) then
        Failure("provider channel must have exactly one non-empty public modelId")
      else
        var caps := NormalizeCapabilities(capabilities);
        Success(c.(status := if status == 0 then STATUS_ENABLED else status,
                   capabilities := if caps == [] then DefaultCapabilities() else caps))
    }

    function ToProvider(secrets: Secrets): Provider {
      Provider(CHANNEL_ID_OFFSET + id, id, name, vendor, upstreamBaseURL, secrets.Resolve(secretRef),
               authHeader, authPrefix, publicModelID,
               if upstreamModel != "" && upstreamModel != publicModelID
               then map[publicModelID := upstreamModel] else map[],
               headers, capabilities, channelType, relayFormat, status, weight, priority)
    }
  }

  // One non-empty field without commas.
  predicate PlainModel(model: string) {
    model != "" && forall i :: 0 <= i < |model| ==> !IsComma(model[i]) && !IsSpace(model[i])
  }

  // The environment and the files that secret references point into, fixed for the model.
  datatype Secrets = Secrets(env: map<string, string>, files: map<string, string>) {
    function Resolve(ref: string): string {
      var r := TrimSpace(ref);
      if HasPrefix(r, "env:") then
        var name := TrimSpace(TrimPrefix(r, "env:"));
        if name in env then env[name] else ""
      else if HasPrefix(r, "file:") then
        var path := TrimSpace(TrimPrefix(r, "file:"));
        if path != "" && path in files then TrimSpace(files[path]) else ""
      else ""
    }
  }
}
