/** Where requests go after a legacy import: the imported channels share the traffic, without a key. */
module ImportedTraffic {
  import opened Text
  import opened Weighted
  import opened Providers
  import opened RoutingIndex
  import opened Database
  import opened LegacyImport
  import opened RoutedIds
  import opened Collisions

  // The channel made from a pair serves the model beside its provider, at the same rank and
  // weight, once for every request the provider is in the top tier of.
  lemma ImportedJoinsTier(
      db: Tables, secrets: Secrets, p: Provider, model: string, c: Channel, capability: string, excluded: set<nat>)
    requires Keyed(db) && p in db.providers && c in db.channels && Imports(p, model, c)
    requires TopEligible(RoutingProviders(db, secrets), p, model, capability, excluded)
    requires CHANNEL_ID_OFFSET + c.id !in excluded
    ensures var ps, q := RoutingProviders(db, secrets), c.ToProvider(secrets);
            && TopEligible(ps, q, model, capability, excluded)
            && q.priority == p.priority && q.weight == p.weight && q.apiKey == ""
            && RoutingKey(ps, TrimSpace(model)) == model && multiset(q.ModelList())[model] == 1
  {
    hide RoutingProviders, TrimSpace, LegacyChannel, Channel.Defaulted, Channel.ToProvider, Provider.Enabled, Importable,
      NormalizeCapability, Provider.NormalizedCapabilities, Entries;
    var ps, q := RoutingProviders(db, secrets), c.ToProvider(secrets);
    ImportsNames(p, model, c);
    ImportedChannelProjects(p, model, c.id, secrets);
    ChannelRow(db, secrets, c);
    ProviderRow(db, secrets, p);
    ListedIsTrimmed(p, model);
    assert RoutingKey(ps, model) == model;
    OneModel(p, model, c, secrets);
  }

  lemma OneModel(p: Provider, model: string, c: Channel, secrets: Secrets)
    requires Imports(p, model, c)
    ensures c.ToProvider(secrets).ModelList() == [model]
  {
    hide Entries, Provider.NormalizedCapabilities, LegacyChannel, Channel.Defaulted, PlainModel, Secrets.Resolve;
    ImportsNames(p, model, c);
    PlainModelEntries(model);
  }

  // Of as many draws as the tier weighs, or as it has places when its stored total is zero, the
  // keyless channel gets as many as its provider gets for one mention of the model.
  ghost predicate SharesWith(
    ps: seq<Provider>, p: Provider, q: Provider, model: string, capability: string, excluded: set<nat>)
  {
    var tier := TierFor(BuildIndex(ps), model, capability, excluded);
    var mentions := multiset(p.ModelList())[model];
    var ofP, ofQ := SelectsFrom(ps, model, capability, excluded, p), SelectsFrom(ps, model, capability, excluded, q);
    && (Sum(Weights(tier)) < TWO_63 ==>
          CountBelow(Sum(Weights(tier)), ofQ) == p.weight && CountBelow(Sum(Weights(tier)), ofP) == p.weight * mentions)
    && (Sum(Weights(tier)) % TWO_64 == 0 ==>
          CountBelow(|tier|, ofQ) == 1 && CountBelow(|tier|, ofP) == mentions)
  }

  lemma ImportedShares(
      db: Tables, secrets: Secrets, p: Provider, model: string, c: Channel, capability: string, excluded: set<nat>)
    requires Keyed(db) && NoCollision(db) && p in db.providers && c in db.channels && Imports(p, model, c)
    requires TopEligible(RoutingProviders(db, secrets), p, model, capability, excluded)
    requires CHANNEL_ID_OFFSET + c.id !in excluded
    ensures SharesWith(RoutingProviders(db, secrets), p, c.ToProvider(secrets), model, capability, excluded)
  {
    hide RoutingProviders, TrimSpace, Channel.ToProvider, Imports, TopEligible, TierFor, BuildIndex, SelectsFrom, Keyed,
      NoCollision, DistinctIds, CountBelow, Provider.ModelList, RoutingKey;
    var ps, q := RoutingProviders(db, secrets), c.ToProvider(secrets);
    RoutedIdsDistinct(db, secrets);
    ImportedJoinsTier(db, secrets, p, model, c, capability, excluded);
    ImportedModelNamed(p, model, c);
    if Sum(Weights(TierFor(BuildIndex(ps), model, capability, excluded))) < TWO_63 {
      SelectionShare(ps, model, capability, excluded, p);
      SelectionShare(ps, model, capability, excluded, q);
    }
    if Sum(Weights(TierFor(BuildIndex(ps), model, capability, excluded))) % TWO_64 == 0 {
      EvenShare(ps, model, capability, excluded, p);
      EvenShare(ps, model, capability, excluded, q);
    }
  }

  lemma ImportedModelNamed(p: Provider, model: string, c: Channel)
    requires Imports(p, model, c)
    ensures TrimSpace(model) == model != ""
  {
    hide TrimSpace, Entries, LegacyChannel, Channel.Defaulted, Importable;
    ListedIsTrimmed(p, model);
  }

  lemma PairHasChannel(db: Tables, p: Provider, model: string) returns (c: Channel)
    requires Keyed(db) && p in db.providers && Wanted(p, model) && !Imported(db.channels, p.id, model)
    requires Apply(db, ImportLegacy(ProvidersQuery(db.providers))).Success?
    ensures c in Apply(db, ImportLegacy(ProvidersQuery(db.providers))).value.channels
    ensures c !in db.channels && Imports(p, model, c)
  {
    hide ImportAll, Wanted, Imports, ProvidersQuery;
    var ps := ProvidersQuery(db.providers);
    IdsOfSorted(db.providers);
    ImportGrows(ps, db.channels);
    var more := ImportAll(ps, db.channels).value;
    assert Apply(db, ImportLegacy(ps)).value.channels == more;
    ImportCovers(ps, db.channels, p, model);
    ImportAllAdds(ps, db.channels);
    c :| c in more && c.legacyProviderID == p.id && c.publicModelID == model;
    var x, m :| x in ps && Imports(x, m, c);
    ImportsNames(x, m, c);
    assert x == p;
  }

  // After an import into tables without collisions, a provider that gains a channel for a model
  // shares every request for it with that channel, which has no key to send upstream.
  lemma ImportSendsToKeyless(
      db: Tables, secrets: Secrets, p: Provider, model: string, capability: string, excluded: set<nat>)
    requires Keyed(db) && p in db.providers && Wanted(p, model) && !Imported(db.channels, p.id, model)
    requires Apply(db, ImportLegacy(ProvidersQuery(db.providers))).Success?
    requires var next := Apply(db, ImportLegacy(ProvidersQuery(db.providers))).value;
             && NoCollision(next) && TopEligible(RoutingProviders(next, secrets), p, model, capability, excluded)
             && forall c :: c in next.channels ==> CHANNEL_ID_OFFSET + c.id !in excluded
    ensures var next := Apply(db, ImportLegacy(ProvidersQuery(db.providers))).value;
            var ps := RoutingProviders(next, secrets);
            exists c :: c in next.channels && c !in db.channels && Imports(p, model, c)
                        && var q := c.ToProvider(secrets);
                           && q.apiKey == "" && q.weight == p.weight && q.priority == p.priority
                           && TopEligible(ps, q, model, capability, excluded)
                           && SharesWith(ps, p, q, model, capability, excluded)
  {
    hide Apply, RoutingProviders, Channel.ToProvider, Imports, TopEligible, Keyed, NoCollision, SharesWith, ProvidersQuery,
      Wanted, Imported;
    var m := ImportLegacy(ProvidersQuery(db.providers));
    var next := Apply(db, m).value;
    MutationsKeepKeys(db, m);
    ImportKeepsProviders(db, m);
    var c := PairHasChannel(db, p, model);
    ImportedJoinsTier(next, secrets, p, model, c, capability, excluded);
    ImportedShares(next, secrets, p, model, c, capability, excluded);
  }

  lemma ImportKeepsProviders(db: Tables, m: Mutation)
    requires m.ImportLegacy? && Apply(db, m).Success?
    ensures Apply(db, m).value.providers == db.providers
  {
    hide ImportAll;
  }
}
