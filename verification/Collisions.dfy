/** What happens to requests when a legacy provider and a channel are routed under one ID. */
module Collisions {
  import opened Text
  import opened Sorting
  import opened Providers
  import opened RoutingIndex
  import opened Database
  import opened ConfigSync
  import opened RoutedIds
  import opened Withdrawal

  // Rows are numbered from 1, and legacy rows carry no channel of their own.
  ghost predicate Numbered(db: Tables) {
    && (forall p :: p in db.providers ==> p.id != 0 && p.platformChannelID == 0)
    && (forall c :: c in db.channels ==> c.id != 0)
  }

  // Only legacy providers that serve nothing sit where a channel is projected to.
  ghost predicate Harmless(db: Tables) {
    forall p, c :: p in db.providers && c in db.channels && p.id == CHANNEL_ID_OFFSET + c.id ==> !p.Serves()
  }

  // For every request the index offers exactly what a plain scan of the list finds eligible.
  ghost predicate ScanAgrees(ps: seq<Provider>) {
    forall model, capability, excluded, q ::
      q in CandidatesFor(BuildIndex(ps), model, capability, excluded) <==>
      exists p :: Eligible(ps, p, model, capability, excluded) && q == p.Defaulted()
  }

  // The later of two rows with one ID is the one the table keeps.
  lemma {:induction false} IdTableJoin(a: seq<Provider>, b: seq<Provider>, id: nat)
    ensures id in IdTable(a + b) <==> id in IdTable(a) || id in IdTable(b)
    ensures id in IdTable(b) ==> IdTable(a + b)[id] == IdTable(b)[id]
    ensures id in IdTable(a) && id !in IdTable(b) ==> IdTable(a + b)[id] == IdTable(a)[id]
  {
    if b == [] {
      assert a + b == a;
    } else {
      var n := |b| - 1;
      assert (a + b)[..|a + b| - 1] == a + b[..n];
      IdTableJoin(a, b[..n], id);
    }
  }

  // The index keeps the channel's row for the ID a channel is projected to.
  lemma ChannelRow(db: Tables, secrets: Secrets, c: Channel)
    requires Keyed(db) && c in db.channels
    ensures var ps, q := RoutingProviders(db, secrets), c.ToProvider(secrets);
            && q in ps && q.id == CHANNEL_ID_OFFSET + c.id
            && q.id in IdTable(ps) && IdTable(ps)[q.id] == q.Defaulted()
  {
    hide ProvidersQuery, ChannelsQuery, IdTable, Channel.ToProvider, Provider.Defaulted, DistinctIds;
    var a, cs := ProvidersQuery(db.providers), ChannelsQuery(db.channels);
    var b := Projected(cs, secrets);
    IdsOfSortedChannels(db.channels);
    ProjectedIds(cs, secrets);
    var i :| 0 <= i < |cs| && cs[i] == c;
    assert b[i] == c.ToProvider(secrets) && b[i] in b;
    ProjectionId(c, secrets);
    IdTableLookup(b, b[i]);
    IdTableJoin(a, b, b[i].id);
  }

  // A legacy provider keeps its row when no channel is projected to its ID.
  lemma ProviderRow(db: Tables, secrets: Secrets, p: Provider)
    requires Keyed(db) && p in db.providers
    ensures p in RoutingProviders(db, secrets)
    ensures (forall c :: c in db.channels ==> p.id != CHANNEL_ID_OFFSET + c.id) ==>
              p.id in IdTable(RoutingProviders(db, secrets)) && IdTable(RoutingProviders(db, secrets))[p.id] == p.Defaulted()
  {
    hide ProvidersQuery, ChannelsQuery, IdTable, Channel.ToProvider, Provider.Defaulted, DistinctIds;
    var a, cs := ProvidersQuery(db.providers), ChannelsQuery(db.channels);
    var b := Projected(cs, secrets);
    IdsOfSorted(db.providers);
    IdsOfSortedChannels(db.channels);
    ProjectedIds(cs, secrets);
    IdTableLookup(a, p);
    IdTableDomain(b, p.id);
    IdTableJoin(a, b, p.id);
  }

  lemma RoutedSource(db: Tables, secrets: Secrets, p: Provider)
    requires Keyed(db) && p in RoutingProviders(db, secrets)
    ensures p in db.providers || exists c :: c in db.channels && p == c.ToProvider(secrets)
  {
    hide ProvidersQuery, ChannelsQuery, Channel.ToProvider, DistinctIds;
    IdsOfSorted(db.providers);
    IdsOfSortedChannels(db.channels);
    var cs := ChannelsQuery(db.channels);
    var b := Projected(cs, secrets);
    if p !in db.providers {
      var i :| 0 <= i < |b| && b[i] == p;
      assert cs[i] in db.channels;
    }
  }

  lemma ProjectionId(c: Channel, secrets: Secrets)
    ensures c.ToProvider(secrets).id == CHANNEL_ID_OFFSET + c.id
    ensures c.ToProvider(secrets).platformChannelID == c.id
  {
  }

  lemma DefaultedKeepsChannel(p: Provider)
    ensures p.Defaulted().id == p.id && p.Defaulted().platformChannelID == p.platformChannelID
  {
  }

  lemma HarmlessOwns(db: Tables, secrets: Secrets)
    requires Keyed(db) && Harmless(db)
    ensures OwnRows(RoutingProviders(db, secrets))
  {
    hide RoutingProviders, IdTable, Channel.ToProvider, Provider.Defaulted, Provider.Serves;
    var ps := RoutingProviders(db, secrets);
    forall p | p in ps && p.Serves()
      ensures p.id in IdTable(ps) && IdTable(ps)[p.id] == p.Defaulted()
    {
      RoutedSource(db, secrets, p);
      if c :| c in db.channels && p == c.ToProvider(secrets) {
        ChannelRow(db, secrets, c);
      } else {
        ProviderRow(db, secrets, p);
      }
    }
  }

  // A legacy provider that shares its ID is never among the candidates, for any request.
  lemma ShadowedIsNoCandidate(
      db: Tables, secrets: Secrets, p: Provider, c: Channel, model: string, capability: string, excluded: set<nat>)
    requires Keyed(db) && Numbered(db)
    requires p in db.providers && c in db.channels && p.id == CHANNEL_ID_OFFSET + c.id
    ensures p.Defaulted() !in CandidatesFor(BuildIndex(RoutingProviders(db, secrets)), model, capability, excluded)
  {
    hide RoutingProviders, IdsFor, Candidates, Channel.ToProvider, Provider.Defaulted, NormalizeCapability, TrimSpace,
      Postings, ListedModels;
    var ps := RoutingProviders(db, secrets);
    var ix := BuildIndex(ps);
    ChannelRow(db, secrets, c);
    ProjectionId(c, secrets);
    DefaultedKeepsChannel(p);
    DefaultedKeepsChannel(c.ToProvider(secrets));
    CandidatesMembers(ix.byID, IdsFor(ix, TrimSpace(model)), NormalizeCapability(capability), excluded, p.Defaulted());
    forall id | id in ix.byID && ix.byID[id] == p.Defaulted()
      ensures id == p.id
    {
      IdTableEntry(ps, id);
      var x :| x in ps && x.id == id && IdTable(ps)[id] == x.Defaulted();
      DefaultedKeepsChannel(x);
    }
  }

  // Collisions do no harm exactly when the legacy providers they hide serve nothing.
  lemma HarmlessExactly(db: Tables, secrets: Secrets)
    requires Keyed(db) && Numbered(db)
    ensures ScanAgrees(RoutingProviders(db, secrets)) <==> Harmless(db)
  {
    hide RoutingProviders, CandidatesFor, BuildIndex, Eligible, Provider.Defaulted, Provider.Serves, Keyed, OwnRows;
    var ps := RoutingProviders(db, secrets);
    if Harmless(db) {
      HarmlessOwns(db, secrets);
      forall model, capability, excluded
        ensures forall q :: q in CandidatesFor(BuildIndex(ps), model, capability, excluded) <==>
                            exists p :: Eligible(ps, p, model, capability, excluded) && q == p.Defaulted()
      {
        CandidatesAreEligible(ps, model, capability, excluded);
      }
    } else {
      var p, c :| p in db.providers && c in db.channels && p.id == CHANNEL_ID_OFFSET + c.id && p.Serves();
      ProviderRow(db, secrets, p);
      var model := ServedIsEligible(ps, p);
      ShadowedIsNoCandidate(db, secrets, p, c, model, "", {});
      assert Eligible(ps, p, model, "", {});
    }
  }

  lemma ServedIsEligible(ps: seq<Provider>, p: Provider) returns (model: string)
    requires p in ps && p.Serves()
    ensures Eligible(ps, p, model, "", {})
  {
    hide TrimSpace, Entries;
    model := p.ModelList()[0];
    assert p.Lists(model);
    ListedIsTrimmed(p, model);
    TrimSpaceFixed("");
  }

  // A request for a model that only the colliding rows list is answered by the channel, if it is
  // enabled, not excluded and capable, and by nothing otherwise.
  lemma CollisionMisroutes(
      db: Tables, secrets: Secrets, p: Provider, c: Channel,
      model: string, capability: string, excluded: set<nat>, draw: nat)
    requires Keyed(db) && p in db.providers && c in db.channels && p.id == CHANNEL_ID_OFFSET + c.id
    requires p.Lists(model)
    requires forall x :: x in RoutingProviders(db, secrets) && x.Lists(model) ==> x.id == p.id
    ensures var q := c.ToProvider(secrets);
            var r := Select(BuildIndex(RoutingProviders(db, secrets)), model, capability, excluded, draw);
            && (r.Selected? || r.Panicked? <==> q.Enabled() && q.Supports(capability) && p.id !in excluded)
            && (r.Selected? ==> r.provider == q.Defaulted())
  {
    hide RoutingProviders, IdsFor, Channel.ToProvider, Provider.Defaulted, Provider.Enabled, Provider.Supports, Select,
      TrimSpace, NormalizeCapability, Postings, ListedModels, Provider.Lists, Provider.NormalizedCapabilities, IdTable;
    var ps, q := RoutingProviders(db, secrets), c.ToProvider(secrets);
    var ix := BuildIndex(ps);
    ChannelRow(db, secrets, c);
    ProviderRow(db, secrets, p);
    assert ix.byID == IdTable(ps);
    ListedIsTrimmed(p, model);
    OnlyListed(ps, p, model);
    SelectedIsUsable(ix, model, capability, excluded, draw);
    AnsweredWhenUsable(ix, model, capability, excluded, draw);
    DefaultsKeepService(q);
    SupportsNormalized(q.Defaulted(), capability);
    assert Usable(ix.byID, p.id, NormalizeCapability(capability), excluded) <==>
           p.id !in excluded && q.Enabled() && q.Supports(capability);
  }

  lemma SupportsNormalized(p: Provider, capability: string)
    ensures p.Supports(NormalizeCapability(capability)) == p.Supports(capability)
  {
    hide NormalizeCapability;
    NormalizeCapabilityIdempotent(capability);
  }

  lemma OnlyListed(ps: seq<Provider>, p: Provider, model: string)
    requires p in ps && p.Lists(model) && forall x :: x in ps && x.Lists(model) ==> x.id == p.id
    ensures forall id :: id in IdsFor(BuildIndex(ps), model) <==> id == p.id
  {
    hide IdTable, Sort, Provider.Lists;
    assert RoutingKey(ps, model) == model;
    IdsForKey(ps, model);
    RankOrderTotal(IdTable(ps));
    SortSorts(Postings(ps, model), RankOrder(IdTable(ps)));
    forall id ensures id in Postings(ps, model) <==> id == p.id {
      PostingsMembers(ps, model, id);
    }
  }

  // ---------- Along runs ----------

  lemma NumberedStays(db: Tables, m: Mutation)
    requires Keyed(db) && Numbered(db) && Assigned(m) && Apply(db, m).Success?
    ensures Numbered(Apply(db, m).value)
  {
    hide Apply, Keyed, Provider.Stored, Channel.Defaulted, FreshId;
    MutationEffects(db, m);
    FreshIdIsFresh(db.channels);
    if m.CreateProvider? || m.SaveProvider? {
      StoredKeepsId(m.provider);
    } else if m.CreateChannel? || m.SaveChannel? {
      DefaultedChannelId(m.channel);
    }
  }

  lemma {:induction false} RunKeepsNumbered(states: seq<State>, steps: seq<Step>, secrets: Secrets, j: nat)
    requires Run(states, steps, secrets) && Init(states[0]) && j <= |steps|
    requires Keyed(Db(states[0])) && Numbered(Db(states[0]))
    ensures states[j].history != [] && Keyed(Db(states[j])) && Numbered(Db(states[j]))
  {
    hide Apply, Keyed, Numbered, ChannelsQuery, Projected, ProvidersQuery;
    if j > 0 {
      RunKeepsNumbered(states, steps, secrets, j - 1);
      RunKeepsKeys(states, steps, secrets, j - 1, j);
      if steps[j - 1].Write? {
        NumberedStays(Db(states[j - 1]), steps[j - 1].mutation);
      }
    }
  }

  // In every run, while the label is current, the cache offers what a plain scan finds eligible,
  // for all requests, exactly when no serving provider is hidden in the tables of that moment.
  lemma CacheHarmlessExactly(states: seq<State>, steps: seq<Step>, secrets: Secrets, j: nat)
    requires Run(states, steps, secrets) && Init(states[0]) && j <= |steps|
    requires Keyed(Db(states[0])) && Numbered(Db(states[0]))
    ensures states[j].history != []
    ensures states[j].tag == Db(states[j]).providersVersion ==>
              (ScanAgrees(states[j].cached) <==> Harmless(Db(states[j])))
  {
    hide After, Enabled, RoutingProviders, ScanAgrees, Harmless, Keyed, Numbered;
    InSyncIsCurrent(states, steps, secrets, j);
    RunKeepsNumbered(states, steps, secrets, j);
    if states[j].tag == Db(states[j]).providersVersion {
      HarmlessExactly(Db(states[j]), secrets);
    }
  }

  // In every run, while the label is current and no serving provider is hidden, selecting from
  // the cache agrees with scanning the providers and channels the database holds at that moment.
  lemma CacheRoutesLikeDatabase(states: seq<State>, steps: seq<Step>, secrets: Secrets, j: nat,
                                model: string, capability: string, excluded: set<nat>, draw: nat)
    requires Run(states, steps, secrets) && Init(states[0]) && Keyed(Db(states[0])) && j <= |steps|
    ensures states[j].history != []
    ensures states[j].tag == Db(states[j]).providersVersion && Harmless(Db(states[j])) ==>
              var ps := RoutingProviders(Db(states[j]), secrets);
              var r := Select(BuildIndex(states[j].cached), model, capability, excluded, draw);
              && (r.Selected? || r.Panicked? <==>
                    TrimSpace(model) != "" && exists p :: Eligible(ps, p, model, capability, excluded))
              && (r.Selected? ==>
                    exists p :: TopEligible(ps, p, model, capability, excluded) && r.provider == p.Defaulted())
  {
    hide After, Enabled, RoutingProviders, Select, TrimSpace, Harmless;
    InSyncIsCurrent(states, steps, secrets, j);
    RunKeepsKeys(states, steps, secrets, 0, j);
    if states[j].tag == Db(states[j]).providersVersion && Harmless(Db(states[j])) {
      HarmlessOwns(Db(states[j]), secrets);
      SelectRefinesScan(RoutingProviders(Db(states[j]), secrets), model, capability, excluded, draw);
    }
  }
}
