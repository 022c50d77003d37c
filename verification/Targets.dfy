/** Where a request is sent: the address, the key and the names of the row behind a selection. */
module Targets {
  import opened Text
  import opened Providers
  import opened RoutingIndex

  // The provider is the row, with white space trimmed from its address and names.
  ghost predicate Cleaned(q: Provider, p: Provider) {
    && q.id == p.id && q.apiKey == p.apiKey && q.authHeader == p.authHeader && q.authPrefix == p.authPrefix
    && q.headers == p.headers && q.modelMapping == p.modelMapping && q.weight == p.weight && q.priority == p.priority
    && q.baseURL == TrimSpace(p.baseURL) && q.vendor == TrimSpace(p.vendor) && q.name == TrimSpace(p.name)
    && q.channelType == TrimSpace(p.channelType) && q.relayFormat == TrimSpace(p.relayFormat)
  }

  lemma DefaultedIsCleaned(p: Provider)
    ensures Cleaned(p.Defaulted(), p) && p.Defaulted().platformChannelID == p.platformChannelID
  {
  }

  // A save keeps the row it is given, cleaned, with what it serves and whether it is in service.
  lemma StoredIsCleaned(p: Provider)
    ensures Cleaned(p.Stored(), p) && p.Stored().platformChannelID == 0
    ensures p.Stored().ModelList() == p.ModelList() && p.Stored().Enabled() == p.Enabled()
    ensures forall c :: p.Stored().Supports(c) == p.Supports(c)
  {
    DefaultsKeepService(p);
  }

  // A selected provider sends to the address of a listed row, with that row's key, headers and
  // model names; when every serving row has its own place in the index, of an eligible row of
  // highest priority.
  lemma SelectedIsCleaned(ps: seq<Provider>, model: string, capability: string, excluded: set<nat>, draw: nat)
    ensures var r := Select(BuildIndex(ps), model, capability, excluded, draw);
            r.Selected? ==>
              exists p :: p in ps && p.Enabled() && p.id !in excluded && Cleaned(r.provider, p)
                          && r.provider.platformChannelID == p.platformChannelID
    ensures var r := Select(BuildIndex(ps), model, capability, excluded, draw);
            r.Selected? && OwnRows(ps) ==>
              exists p :: TopEligible(ps, p, model, capability, excluded) && Cleaned(r.provider, p)
                          && r.provider.platformChannelID == p.platformChannelID
  {
    hide Select, BuildIndex, Provider.Defaulted, Cleaned, OwnRows, TopEligible;
    var r := Select(BuildIndex(ps), model, capability, excluded, draw);
    SelectedIsListed(ps, model, capability, excluded, draw);
    if r.Selected? {
      var p :| p in ps && p.Enabled() && p.id !in excluded && r.provider == p.Defaulted();
      DefaultedIsCleaned(p);
      if OwnRows(ps) {
        SelectRefinesScan(ps, model, capability, excluded, draw);
        var q :| TopEligible(ps, q, model, capability, excluded) && r.provider == q.Defaulted();
        DefaultedIsCleaned(q);
      }
    }
  }

  // A saved channel sends to its own upstream, with the key its secret reference stands for.
  lemma SavedChannelTarget(raw: Channel, secrets: Secrets)
    requires raw.Defaulted().Success?
    ensures var q := raw.Defaulted().value.ToProvider(secrets);
            && q.id == 1_000_000 + raw.id && q.platformChannelID == raw.id
            && q.baseURL == TrimSpace(raw.upstreamBaseURL) && q.apiKey == secrets.Resolve(TrimSpace(raw.secretRef))
            && q.vendor == TrimSpace(raw.vendor) && q.name == TrimSpace(raw.name)
            && q.authHeader == TrimSpace(raw.authHeader) && q.authPrefix == TrimSpace(raw.authPrefix)
            && q.headers == raw.headers && q.channelType == TrimSpace(raw.channelType)
            && q.relayFormat == TrimSpace(raw.relayFormat) && q.models == TrimSpace(raw.publicModelID)
            && q.weight == raw.weight && q.priority == raw.priority
            && q.status == (if raw.status == 0 then 1 else raw.status) && q.NormalizedCapabilities() == q.capabilities
    ensures var model, upstream := TrimSpace(raw.publicModelID), TrimSpace(raw.upstreamModel);
            raw.Defaulted().value.ToProvider(secrets).modelMapping
            == if upstream == "" || upstream == model then map[] else map[model := upstream]
    ensures raw.Defaulted().value.billingClass == TrimSpace(raw.billingClass)
    ensures raw.Defaulted().value.legacyProviderID == raw.legacyProviderID
  {
    hide TrimSpace, NormalizeCapabilities, PlainModel, Secrets.Resolve;
    NormalizeCapabilitiesIdempotent(raw.capabilities);
    DefaultCapabilitiesFixed();
  }

  // A reference names an environment variable, or a file whose trimmed contents are the secret;
  // everything else stands for no secret.
  lemma SecretsByReference(secrets: Secrets, name: string, ref: string)
    ensures secrets.Resolve("env:" + name) == if TrimSpace(name) in secrets.env then secrets.env[TrimSpace(name)] else ""
    ensures secrets.Resolve("file:" + name) ==
            if TrimSpace(name) != "" && TrimSpace(name) in secrets.files then TrimSpace(secrets.files[TrimSpace(name)])
            else ""
    ensures !HasPrefix(TrimSpace(ref), "env:") && !HasPrefix(TrimSpace(ref), "file:") ==> secrets.Resolve(ref) == ""
    ensures secrets.Resolve(ref) == secrets.Resolve(TrimSpace(ref))
  {
    hide TrimSpace;
    ReferenceTrimmed("env:", name);
    ReferenceTrimmed("file:", name);
    assert TrimSpace("file:" + name)[..5][0] == 'f';
    TrimSpaceFixed(ref);
    TrimSpaceFixed(TrimSpace(ref));
  }

  lemma {:induction false} ReferenceTrimmed(scheme: string, name: string)
    requires scheme == "env:" || scheme == "file:"
    ensures HasPrefix(TrimSpace(scheme + name), scheme)
    ensures TrimSpace(TrimPrefix(TrimSpace(scheme + name), scheme)) == TrimSpace(name)
  {
    hide TrimSpace;
    var s := scheme + name;
    if name != "" && IsSpace(name[|name| - 1]) {
      var n := |name| - 1;
      ReferenceTrimmed(scheme, name[..n]);
      TrimSpaceIgnores(name[..n], name[n]);
      TrimSpaceIgnores(scheme + name[..n], name[n]);
      assert name == name[..n] + [name[n]] && s == scheme + name[..n] + [name[n]];
    } else {
      assert s[0] == scheme[0] && s[|s| - 1] == if name == "" then ':' else name[|name| - 1];
      TrimSpaceFixed(s);
      assert s[..|scheme|] == scheme && s[|scheme|..] == name;
    }
  }

  // The header and prefix a key is sent under.
  lemma KeyIsSentUnder(p: Provider)
    ensures p.AuthHeaderOrDefault() == if TrimSpace(p.authHeader) == "" then "Authorization" else TrimSpace(p.authHeader)
    ensures p.authPrefix != "" ==> p.AuthPrefixOrDefault() == p.authPrefix
    ensures p.authPrefix == "" && TrimSpace(p.authHeader) == "" ==> p.AuthPrefixOrDefault() == "Bearer "
    ensures p.authPrefix == "" && ToLower(TrimSpace(p.authHeader)) == "authorization" ==>
              p.AuthPrefixOrDefault() == "Bearer "
    ensures p.authPrefix == "" && TrimSpace(p.authHeader) != "" && ToLower(TrimSpace(p.authHeader)) != "authorization" ==>
              p.AuthPrefixOrDefault() == ""
  {
    hide TrimSpace;
    assert ToLower("Authorization") == "authorization";
  }

  // The name a model is asked for upstream.
  lemma MappedName(p: Provider, model: string, name: string)
    requires TrimSpace(name) != ""
    ensures p.(modelMapping := p.modelMapping[model := name]).UpstreamModel(model) == name
    ensures model !in p.modelMapping ==> p.UpstreamModel(model) == model
    ensures model in p.modelMapping && TrimSpace(p.modelMapping[model]) == "" ==> p.UpstreamModel(model) == model
  {
  }

  // A provider that names no capability serves chat and completions, and one that names some
  // serves exactly those, in any casing and with any white space around.
  lemma ServedCapabilities(p: Provider, capability: string)
    requires NormalizeCapability(capability) != ""
    ensures (forall i :: 0 <= i < |p.capabilities| ==> NormalizeCapability(p.capabilities[i]) == "") ==>
              (p.Supports(capability) <==> NormalizeCapability(capability) == "openai.chat_completions"
                                           || NormalizeCapability(capability) == "openai.completions")
    ensures (exists i :: 0 <= i < |p.capabilities| && NormalizeCapability(p.capabilities[i]) != "") ==>
              (p.Supports(capability) <==>
               exists i :: 0 <= i < |p.capabilities|
                           && NormalizeCapability(p.capabilities[i]) == NormalizeCapability(capability))
  {
    hide NormalizeCapability, NormalizeCapabilities;
    var c, caps := NormalizeCapability(capability), NormalizeCapabilities(p.capabilities);
    NormalizedBy(p.capabilities, c);
    if i :| 0 <= i < |p.capabilities| && NormalizeCapability(p.capabilities[i]) != "" {
      NormalizedBy(p.capabilities, NormalizeCapability(p.capabilities[i]));
    } else if caps != [] {
      NormalizedAreFixed(p.capabilities);
      NormalizedBy(p.capabilities, caps[0]);
    }
  }

  lemma NormalizedBy(values: seq<string>, x: string)
    ensures x in NormalizeCapabilities(values) <==>
            x != "" && exists i :: 0 <= i < |values| && NormalizeCapability(values[i]) == x
  {
    hide NormalizeCapability, NormalizeCapabilities;
    NormalizeMembers(values, x);
    if i :| 0 <= i < |values| && NormalizeCapability(values[i]) == x {
      LeastOccurrence(values, i, x);
    }
  }

  // Casing and surrounding white space do not show in a normalised capability.
  lemma CapabilityIgnoresCase(a: string, b: string)
    requires |TrimSpace(a)| == |TrimSpace(b)|
    requires forall i :: 0 <= i < |TrimSpace(a)| ==> LowerChar(TrimSpace(a)[i]) == LowerChar(TrimSpace(b)[i])
    ensures NormalizeCapability(a) == NormalizeCapability(b)
    ensures forall i :: 0 <= i < |NormalizeCapability(a)| ==> !('A' <= NormalizeCapability(a)[i] <= 'Z')
  {
    hide TrimSpace;
  }
}
