/** The one-off import of legacy providers as channels, and the identities of routed providers. */
module LegacyImport {
  import opened Wrappers
  import opened Text
  import opened Providers
  import opened RoutingIndex
  import opened Database

  class Store {
    var tables: Tables

    constructor (initial: Tables)
      ensures tables == initial
    {
      tables := initial;
    }

    // Works on a private copy that is committed, with both versions bumped, only on success.
    method ImportLegacyProvidersAsChannels() returns (r: Result<nat, string>)
      modifies this
      ensures match Apply(old(tables), ImportLegacy(ProvidersQuery(old(tables).providers)))
              case Failure(e) => r == Failure(e) && tables == old(tables)
              case Success(next) =>
                r == Success(|next.channels| - |old(tables).channels|) && tables == next
    {
      hide Disabled, FreshId, HasProvider, ImportAll, ImportModels, Imported, LegacyChannel,
        Provider.Defaulted, Provider.ModelList, ProvidersQuery, TrimSpace, WithChannel, WithProvider,
        WithoutChannel, WithoutProvider;
      var providers := ProvidersQuery(tables.providers);
      var channels := tables.channels;
      var imported := 0;
      ImportAllStart(providers, channels);
      for i := 0 to |providers|
        invariant ImportAll(providers[..i], tables.channels) == Success(channels)
        invariant imported == |channels| - |tables.channels|
        invariant tables == old(tables)
      {
        ImportAllStep(providers, i, tables.channels);
        var provider := providers[i];
        var models := provider.ModelList();
        ghost var base := channels;
        ImportModelsStart(provider, base);
        for j := 0 to |models|
          invariant ImportModels(provider, models[..j], base) == Success(channels)
          invariant imported == |channels| - |tables.channels|
          invariant tables == old(tables)
        {
          ImportModelsStep(provider, models, j, base);
          if models[j] == "" || models[j] == "*" {
            continue;
          }
          if Imported(channels, provider.id, models[j]) {
            continue;
          }
          match LegacyChannel(provider, models[j], FreshId(channels)).Defaulted() {
            case Failure(e) =>
              ImportModelsFails(provider, models, j + 1, base);
              ImportAllFails(providers, i + 1, tables.channels);
              return Failure(e);
            case Success(channel) =>
              channels := channels + [channel];
              imported := imported + 1;
          }
        }
        assert models[..|models|] == models;
      }
      assert providers[..|providers|] == providers;
      ImportGrows(providers, tables.channels);
      r := Success(imported);
      if imported > 0 {
        tables := BumpBoth(tables.(channels := channels));
      }
    }
  }

  lemma ImportAllStep(ps: seq<Provider>, i: nat, channels: seq<Channel>)
    requires i < |ps| && ImportAll(ps[..i], channels).Success?
    ensures ImportAll(ps[..i + 1], channels) ==
            ImportModels(ps[i], ps[i].ModelList(), ImportAll(ps[..i], channels).value)
  {
    assert ps[..i + 1][..i] == ps[..i];
  }

  lemma ImportAllStart(ps: seq<Provider>, channels: seq<Channel>)
    ensures ImportAll(ps[..0], channels) == Success(channels)
  {
  }

  lemma ImportModelsStart(p: Provider, channels: seq<Channel>)
    ensures ImportModels(p, p.ModelList()[..0], channels) == Success(channels)
  {
  }

  lemma ImportModelsStep(p: Provider, models: seq<string>, j: nat, channels: seq<Channel>)
    requires j < |models| && ImportModels(p, models[..j], channels).Success?
    ensures ImportModels(p, models[..j + 1], channels) ==
            ImportOne(p, models[j], ImportModels(p, models[..j], channels).value)
  {
    assert models[..j + 1][..j] == models[..j];
  }

  // A failure stays the answer, whatever comes after it.
  lemma {:induction false} ImportModelsFails(p: Provider, models: seq<string>, k: nat, channels: seq<Channel>)
    requires k <= |models| && ImportModels(p, models[..k], channels).Failure?
    ensures ImportModels(p, models, channels) == ImportModels(p, models[..k], channels)
    decreases |models| - k
  {
    if k == |models| {
      assert models[..k] == models;
    } else {
      assert models[..k + 1][..k] == models[..k];
      ImportModelsFails(p, models, k + 1, channels);
    }
  }

  lemma {:induction false} ImportAllFails(ps: seq<Provider>, k: nat, channels: seq<Channel>)
    requires k <= |ps| && ImportAll(ps[..k], channels).Failure?
    ensures ImportAll(ps, channels) == ImportAll(ps[..k], channels)
    decreases |ps| - k
  {
    if k == |ps| {
      assert ps[..k] == ps;
    } else {
      assert ps[..k + 1][..k] == ps[..k];
      ImportAllFails(ps, k + 1, channels);
    }
  }

  // ---------- The import is complete and idempotent ----------

  // A pair the import has to cover.
  ghost predicate Wanted(p: Provider, model: string) {
    model in p.ModelList() && model != "*"
  }

  lemma ImportedStays(channels: seq<Channel>, more: seq<Channel>, id: nat, model: string)
    requires channels <= more && Imported(channels, id, model)
    ensures Imported(more, id, model)
  {
    var c :| c in channels && c.legacyProviderID == id && c.publicModelID == model;
    assert c in more;
  }

  lemma ImportOneCovers(p: Provider, model: string, channels: seq<Channel>)
    requires ImportOne(p, model, channels).Success?
    requires model != "" && model != "*" && TrimSpace(model) == model
    ensures Imported(ImportOne(p, model, channels).value, p.id, model)
  {
    hide TrimSpace, NormalizeCapabilities, Provider.NormalizedCapabilities, FreshId, SecretRefFor, Provider.UpstreamModel;
    if !Imported(channels, p.id, model) {
      var c := LegacyChannel(p, model, FreshId(channels)).Defaulted().value;
      assert c in channels + [c];
    }
  }

  lemma {:induction false} ImportModelsCover(p: Provider, models: seq<string>, channels: seq<Channel>, model: string)
    requires ImportModels(p, models, channels).Success?
    requires model in models && model != "" && model != "*" && TrimSpace(model) == model
    ensures Imported(ImportModels(p, models, channels).value, p.id, model)
  {
    hide Channel.Defaulted, FreshId, Imported, LegacyChannel, TrimSpace;
    var n := |models| - 1;
    assert models[..n + 1] == models;
    assert ImportModels(p, models[..n], channels).Success?;
    ImportModelsStep(p, models, n, channels);
    var before := ImportModels(p, models[..n], channels).value;
    if models[n] == model {
      ImportOneCovers(p, model, before);
    } else {
      ImportModelsCover(p, models[..n], channels, model);
      assert before <= ImportModels(p, models, channels).value;
      ImportedStays(before, ImportModels(p, models, channels).value, p.id, model);
    }
  }

  // After a successful import every plain model of every provider has its channel, even one listed twice.
  lemma {:induction false} ImportCovers(ps: seq<Provider>, channels: seq<Channel>, p: Provider, model: string)
    requires ImportAll(ps, channels).Success? && p in ps && Wanted(p, model)
    ensures Imported(ImportAll(ps, channels).value, p.id, model)
  {
    hide Provider.ModelList;
    var n := |ps| - 1;
    assert ps[..n + 1] == ps;
    assert ImportAll(ps[..n], channels).Success?;
    ImportAllStep(ps, n, channels);
    var before := ImportAll(ps[..n], channels).value;
    if p == ps[n] {
      ListedIsTrimmed(p, model);
      ImportModelsCover(p, p.ModelList(), before, model);
    } else {
      ImportCovers(ps[..n], channels, p, model);
      ImportModelsGrows(ps[n], ps[n].ModelList(), before);
      ImportedStays(before, ImportAll(ps, channels).value, p.id, model);
    }
  }

  lemma {:induction false} CoveredModelsImportNothing(p: Provider, models: seq<string>, channels: seq<Channel>)
    requires forall m :: m in models && m != "*" ==> Imported(channels, p.id, m)
    ensures ImportModels(p, models, channels) == Success(channels)
  {
    if models != [] {
      CoveredModelsImportNothing(p, models[..|models| - 1], channels);
    }
  }

  lemma {:induction false} CoveredImportsNothing(ps: seq<Provider>, channels: seq<Channel>)
    requires forall p, m :: p in ps && Wanted(p, m) ==> Imported(channels, p.id, m)
    ensures ImportAll(ps, channels) == Success(channels)
  {
    if ps != [] {
      var n := |ps| - 1;
      CoveredImportsNothing(ps[..n], channels);
      assert ps[n] in ps;
      assert forall m :: m in ps[n].ModelList() && m != "*" ==> Wanted(ps[n], m);
      CoveredModelsImportNothing(ps[n], ps[n].ModelList(), channels);
    }
  }

  // Importing again right after a successful import changes nothing and bumps no version.
  lemma ImportIdempotent(db: Tables)
    requires Apply(db, ImportLegacy(ProvidersQuery(db.providers))).Success?
    ensures var next := Apply(db, ImportLegacy(ProvidersQuery(db.providers))).value;
            Apply(next, ImportLegacy(ProvidersQuery(next.providers))) == Success(next)
  {
    var ps := ProvidersQuery(db.providers);
    var next := Apply(db, ImportLegacy(ps)).value;
    ImportGrows(ps, db.channels);
    assert next.channels == ImportAll(ps, db.channels).value;
    forall p, m | p in ps && Wanted(p, m) ensures Imported(next.channels, p.id, m) {
      ImportCovers(ps, db.channels, p, m);
    }
    CoveredImportsNothing(ps, next.channels);
  }

  // The import fails, and then changes nothing, exactly when a pair that still lacks its channel
  // names a blank provider or a model with white space inside.
  ghost predicate Importable(p: Provider, model: string) {
    TrimSpace(p.vendor) != "" && PlainModel(model)
  }

  lemma ImportOneFails(p: Provider, model: string, channels: seq<Channel>)
    requires model != "" && TrimSpace(model) == model
    ensures ImportOne(p, model, channels).Failure? <==>
            model != "*" && !Imported(channels, p.id, model) && !Importable(p, model)
  {
  }

  // The channel is what the import makes of the pair.
  ghost predicate Imports(p: Provider, model: string, c: Channel) {
    Wanted(p, model) && Importable(p, model) && LegacyChannel(p, model, c.id).Defaulted() == Success(c)
  }

  lemma ImportsNames(p: Provider, model: string, c: Channel)
    requires Imports(p, model, c)
    ensures c.legacyProviderID == p.id && c.publicModelID == model && Importable(p, model)
  {
    hide Provider.NormalizedCapabilities, NormalizeCapabilities, SecretRefFor, PlainModel, Entries, TrimSpace;
    ListedIsTrimmed(p, model);
  }

  // Every channel the import adds is what it makes of some pair.
  ghost predicate FromPairs(ps: seq<Provider>, channels: seq<Channel>, more: seq<Channel>) {
    forall c :: c in more && c !in channels ==> exists p, model :: p in ps && Imports(p, model, c)
  }

  ghost predicate Clean(models: seq<string>) {
    forall i :: 0 <= i < |models| ==> models[i] != "" && TrimSpace(models[i]) == models[i]
  }

  lemma ModelListClean(p: Provider)
    ensures Clean(p.ModelList())
  {
    var models := p.ModelList();
    forall i | 0 <= i < |models| ensures models[i] != "" && TrimSpace(models[i]) == models[i] {
      ListedIsTrimmed(p, models[i]);
    }
  }

  lemma ImportOneAdds(p: Provider, model: string, channels: seq<Channel>)
    requires model in p.ModelList() && model != "" && ImportOne(p, model, channels).Success?
    ensures FromPairs([p], channels, ImportOne(p, model, channels).value)
  {
    hide TrimSpace, Entries, NormalizeCapabilities, Provider.NormalizedCapabilities, FreshId, SecretRefFor,
      Provider.UpstreamModel, PlainModel, Imported;
    ListedIsTrimmed(p, model);
    var raw := LegacyChannel(p, model, FreshId(channels));
    if model != "*" && raw.Defaulted().Success? {
      assert raw.Defaulted().value.id == FreshId(channels);
      assert Imports(p, model, raw.Defaulted().value);
    }
    assert p in [p];
  }

  lemma {:induction false} ImportModelsAdd(p: Provider, models: seq<string>, channels: seq<Channel>)
    requires Clean(models) && forall m :: m in models ==> m in p.ModelList()
    requires ImportModels(p, models, channels).Success?
    ensures FromPairs([p], channels, ImportModels(p, models, channels).value)
  {
    hide Imports, ImportOne, Entries;
    if models != [] {
      var n := |models| - 1;
      assert models[..n + 1] == models;
      assert ImportModels(p, models[..n], channels).Success?;
      ImportModelsStep(p, models, n, channels);
      ImportModelsAdd(p, models[..n], channels);
      ImportOneAdds(p, models[n], ImportModels(p, models[..n], channels).value);
    }
  }

  lemma {:induction false} ImportAllAdds(ps: seq<Provider>, channels: seq<Channel>)
    requires ImportAll(ps, channels).Success?
    ensures FromPairs(ps, channels, ImportAll(ps, channels).value)
  {
    if ps != [] {
      var n := |ps| - 1;
      assert ps[..n + 1] == ps;
      assert ImportAll(ps[..n], channels).Success?;
      ImportAllStep(ps, n, channels);
      ImportAllAdds(ps[..n], channels);
      ModelListClean(ps[n]);
      ImportModelsAdd(ps[n], ps[n].ModelList(), ImportAll(ps[..n], channels).value);
      assert ps[n] in ps;
    }
  }

  lemma {:induction false} ImportModelsBlame(p: Provider, models: seq<string>, channels: seq<Channel>) returns (model: string)
    requires Clean(models)
    requires ImportModels(p, models, channels).Failure?
    ensures model in models && model != "*" && !Imported(channels, p.id, model) && !Importable(p, model)
  {
    assert models != [];
    var n := |models| - 1;
    assert models[..n + 1] == models;
    if ImportModels(p, models[..n], channels).Failure? {
      model := ImportModelsBlame(p, models[..n], channels);
    } else {
      ImportModelsStep(p, models, n, channels);
      ImportModelsGrows(p, models[..n], channels);
      model := models[n];
      var before := ImportModels(p, models[..n], channels).value;
      ImportOneFails(p, model, before);
      if Imported(channels, p.id, model) {
        ImportedStays(channels, before, p.id, model);
      }
    }
  }

  lemma {:induction false} ImportAllBlame(ps: seq<Provider>, channels: seq<Channel>) returns (p: Provider, model: string)
    requires ImportAll(ps, channels).Failure?
    ensures p in ps && Wanted(p, model) && !Imported(channels, p.id, model) && !Importable(p, model)
  {
    assert ps != [];
    var n := |ps| - 1;
    assert ps[..n + 1] == ps;
    if ImportAll(ps[..n], channels).Failure? {
      p, model := ImportAllBlame(ps[..n], channels);
    } else {
      ImportAllStep(ps, n, channels);
      ImportGrows(ps[..n], channels);
      ModelListClean(ps[n]);
      p := ps[n];
      model := ImportModelsBlame(p, p.ModelList(), ImportAll(ps[..n], channels).value);
      if Imported(channels, p.id, model) {
        ImportedStays(channels, ImportAll(ps[..n], channels).value, p.id, model);
      }
    }
  }

  lemma ImportFailsExactly(ps: seq<Provider>, channels: seq<Channel>)
    requires DistinctIds(ps)
    ensures ImportAll(ps, channels).Failure? <==>
            exists p, m :: p in ps && Wanted(p, m) && !Imported(channels, p.id, m) && !Importable(p, m)
  {
    hide ImportAll, Importable, Imports, Wanted;
    if ImportAll(ps, channels).Failure? {
      var p, m := ImportAllBlame(ps, channels);
    } else {
      ImportAllAdds(ps, channels);
      forall p, m | p in ps && Wanted(p, m) && !Imported(channels, p.id, m) ensures Importable(p, m) {
        ImportCovers(ps, channels, p, m);
        var c :| c in ImportAll(ps, channels).value && c.legacyProviderID == p.id && c.publicModelID == m;
        var q, n :| q in ps && Imports(q, n, c);
        ImportsNames(q, n, c);
        assert q == p;
      }
    }
  }

  // ---------- Projecting an imported channel back ----------

  lemma NotAReference(tail: string)
    ensures !HasPrefix("legacy-router-providers/" + tail, "env:")
    ensures !HasPrefix("legacy-router-providers/" + tail, "file:")
  {
    var s := "legacy-router-providers/" + tail;
    assert s[0] == 'l';
    assert s[..4][0] == 'l';
    assert s[..5][0] == 'l';
  }

  lemma ImportedSecretIsLost(p: Provider, secrets: Secrets)
    ensures secrets.Resolve(TrimSpace(SecretRefFor(p))) == ""
  {
    hide TrimSpace, Digits;
    TrimSpaceFixed("");
    var tail := Digits(p.id) + "/api_key";
    var s := SecretRefFor(p);
    if TrimSpace(p.apiKey) != "" {
      assert s == "legacy-router-providers/" + tail;
      assert s[0] == 'l' && s[|s| - 1] == 'y';
      TrimSpaceFixed(s);
      NotAReference(tail);
    }
  }

  function Value(digits: string): int {
    if digits == "" then 0 else Value(digits[..|digits| - 1]) * 10 + (digits[|digits| - 1] as int - '0' as int)
  }

  // The digits of a number are its decimal form.
  lemma {:induction false} DigitsValue(n: nat)
    ensures Value(Digits(n)) == n && Digits(n) != ""
    ensures forall i :: 0 <= i < |Digits(n)| ==> '0' <= Digits(n)[i] <= '9'
  {
    if n >= 10 {
      DigitsValue(n / 10);
      assert Digits(n)[..|Digits(n)| - 1] == Digits(n / 10);
    }
  }

  // Providers with keys get references of their own, written with their IDs.
  lemma ReferencesDiffer(p: Provider, q: Provider)
    requires TrimSpace(p.apiKey) != "" && p.id != q.id
    ensures SecretRefFor(p) == "legacy-router-providers/" + Digits(p.id) + "/api_key" != SecretRefFor(q)
  {
    hide TrimSpace, Digits;
    DigitsValue(p.id);
    DigitsValue(q.id);
    WithinReference(Digits(p.id));
    WithinReference(Digits(q.id));
  }

  lemma WithinReference(digits: string)
    ensures var x := "legacy-router-providers/" + digits + "/api_key"; x[24..|x| - 8] == digits
  {
  }

  ghost predicate SameService(a: Provider, b: Provider, model: string) {
    && a.priority == b.priority
    && a.weight == b.weight
    && a.Enabled() == b.Enabled()
    && a.Lists(model) == b.Lists(model)
    && a.NormalizedCapabilities() == b.NormalizedCapabilities()
    && a.headers == b.headers
    && a.AuthHeaderOrDefault() == b.AuthHeaderOrDefault()
    && a.baseURL == TrimSpace(b.baseURL) && a.vendor == TrimSpace(b.vendor) && a.name == TrimSpace(b.name)
    && a.channelType == TrimSpace(b.channelType) && a.relayFormat == TrimSpace(b.relayFormat)
  }

  // What a freshly imported channel routes to, compared with the provider it came from: the same
  // service for its model; the upstream model up to surrounding space; the authentication prefix
  // only if it had no surrounding space; and never the key.
  lemma ImportedChannelProjects(p: Provider, model: string, id: nat, secrets: Secrets)
    requires Wanted(p, model) && Importable(p, model)
    ensures LegacyChannel(p, model, id).Defaulted().Success?
    ensures var c := LegacyChannel(p, model, id).Defaulted().value; c.legacyProviderID == p.id && c.billingClass == ""
    ensures var q := LegacyChannel(p, model, id).Defaulted().value.ToProvider(secrets);
            && SameService(q, p, model)
            && q.UpstreamModel(model) == TrimSpace(p.UpstreamModel(model))
            && (q.AuthPrefixOrDefault() == p.AuthPrefixOrDefault() <==> TrimSpace(p.authPrefix) == p.authPrefix)
            && q.apiKey == ""
  {
    hide TrimSpace, Entries, NormalizeCapabilities, SecretRefFor, PlainModel, ToLower;
    TrimSpaceFixed("");
    ListedIsTrimmed(p, model);
    ImportedSecretIsLost(p, secrets);
    var caps := p.NormalizedCapabilities();
    NormalizeCapabilitiesIdempotent(p.capabilities);
    DefaultCapabilitiesFixed();
    PlainModelEntries(model);
    TrimSpaceFixed(p.authPrefix);
    TrimTwice(p.authHeader);
    TrimTwice(p.UpstreamModel(model));
    BearerIsNotBlank();
  }

  lemma BearerIsNotBlank()
    ensures TrimSpace("Bearer ") != ""
  {
    assert "Bearer " == "Bearer" + [' '];
    TrimSpaceIgnores("Bearer", ' ');
    TrimSpaceFixed("Bearer");
  }

  lemma {:induction false} SplitPlain(s: string)
    requires forall i :: 0 <= i < |s| ==> !IsComma(s[i])
    ensures Split(s, ',') == [s]
  {
    if s != "" {
      SplitPlain(s[1..]);
      assert s == [s[0]] + s[1..];
    }
  }

  lemma PlainModelEntries(model: string)
    requires PlainModel(model)
    ensures Entries(model) == [model]
  {
    SplitPlain(model);
    CompactSingle(model);
    TrimSpaceFixed(model);
  }

  // A saved channel is routed as a provider of exactly its one model, sent upstream under the
  // channel's own name for it when it has one.
  lemma SavedChannelServes(raw: Channel, secrets: Secrets)
    requires raw.Defaulted().Success?
    ensures var c := raw.Defaulted().value;
            var q := c.ToProvider(secrets);
            && (forall m :: q.Lists(m) <==> q.Enabled() && m == c.publicModelID)
            && q.UpstreamModel(c.publicModelID) ==
               (if TrimSpace(raw.upstreamModel) != "" then TrimSpace(raw.upstreamModel) else TrimSpace(raw.publicModelID))
            && (forall m :: m != c.publicModelID ==> q.UpstreamModel(m) == m)
            && (forall x :: x != "" && NormalizeCapability(x) == x ==> (q.Supports(x) <==> x in c.capabilities))
  {
    hide TrimSpace, Entries, NormalizeCapabilities, PlainModel, NormalizeCapability, Secrets.Resolve;
    var c := raw.Defaulted().value;
    TrimTwice(raw.upstreamModel);
    PlainModelEntries(c.publicModelID);
    NormalizeCapabilitiesIdempotent(raw.capabilities);
    DefaultCapabilitiesFixed();
  }
}
