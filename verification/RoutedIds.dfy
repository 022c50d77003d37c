/** The identity of rows and of routed providers. */
module RoutedIds {
  import opened Text
  import opened Sorting
  import opened Providers
  import opened RoutingIndex
  import opened Database
  import opened ConfigSync

  // The primary keys of both tables.
  ghost predicate Keyed(db: Tables) {
    DistinctIds(db.providers) && DistinctChannels(db.channels)
  }

  // ---------- Every transaction keeps the primary keys ----------

  ghost predicate WritesProvider(before: seq<Provider>, after: seq<Provider>, row: Provider) {
    forall p :: p in after <==> p == row || (p in before && p.id != row.id)
  }

  ghost predicate WritesChannel(before: seq<Channel>, after: seq<Channel>, row: Channel) {
    forall c :: c in after <==> c == row || (c in before && c.id != row.id)
  }

  lemma {:induction false} WithProviderKeys(rows: seq<Provider>, row: Provider)
    requires DistinctIds(rows)
    ensures DistinctIds(WithProvider(rows, row)) && WritesProvider(rows, WithProvider(rows, row), row)
  {
    if rows != [] {
      assert rows == [rows[0]] + rows[1..];
      assert forall p :: p in rows[1..] ==> p.id != rows[0].id;
      if rows[0].id != row.id {
        WithProviderKeys(rows[1..], row);
        var rest := WithProvider(rows[1..], row);
        forall j | 0 <= j < |rest| ensures rest[j].id != rows[0].id {
          assert rest[j] in rest;
        }
      }
    }
  }

  lemma {:induction false} WithoutProviderKeys(rows: seq<Provider>, id: nat)
    requires DistinctIds(rows)
    ensures DistinctIds(WithoutProvider(rows, id))
    ensures forall p :: p in WithoutProvider(rows, id) <==> p in rows && p.id != id
  {
    if rows != [] {
      WithoutProviderKeys(rows[1..], id);
      assert rows == [rows[0]] + rows[1..];
      var rest := WithoutProvider(rows[1..], id);
      forall j | 0 <= j < |rest| ensures rest[j].id != rows[0].id {
        assert rest[j] in rest;
      }
    }
  }

  lemma {:induction false} WithChannelKeys(rows: seq<Channel>, row: Channel)
    requires DistinctChannels(rows)
    ensures DistinctChannels(WithChannel(rows, row)) && WritesChannel(rows, WithChannel(rows, row), row)
  {
    if rows != [] {
      assert rows == [rows[0]] + rows[1..];
      assert forall c :: c in rows[1..] ==> c.id != rows[0].id;
      if rows[0].id != row.id {
        WithChannelKeys(rows[1..], row);
        var rest := WithChannel(rows[1..], row);
        forall j | 0 <= j < |rest| ensures rest[j].id != rows[0].id {
          assert rest[j] in rest;
        }
      }
    }
  }

  lemma {:induction false} WithoutChannelKeys(rows: seq<Channel>, id: nat)
    requires DistinctChannels(rows)
    ensures DistinctChannels(WithoutChannel(rows, id))
    ensures forall c :: c in WithoutChannel(rows, id) <==> c in rows && c.id != id
  {
    if rows != [] {
      WithoutChannelKeys(rows[1..], id);
      assert rows == [rows[0]] + rows[1..];
      var rest := WithoutChannel(rows[1..], id);
      forall j | 0 <= j < |rest| ensures rest[j].id != rows[0].id {
        assert rest[j] in rest;
      }
    }
  }

  lemma {:induction false} FreshIdIsFresh(channels: seq<Channel>)
    ensures FreshId(channels) >= 1 && forall c :: c in channels ==> c.id < FreshId(channels)
  {
    if channels != [] {
      FreshIdIsFresh(channels[..|channels| - 1]);
    }
  }

  lemma ImportOneKeys(p: Provider, model: string, channels: seq<Channel>)
    requires DistinctChannels(channels) && ImportOne(p, model, channels).Success?
    ensures DistinctChannels(ImportOne(p, model, channels).value)
  {
    hide TrimSpace, NormalizeCapabilities, Provider.NormalizedCapabilities, FreshId, SecretRefFor,
         Provider.UpstreamModel, PlainModel, Imported;
    FreshIdIsFresh(channels);
  }

  lemma {:induction false} ImportModelsKeys(p: Provider, models: seq<string>, channels: seq<Channel>)
    requires DistinctChannels(channels) && ImportModels(p, models, channels).Success?
    ensures DistinctChannels(ImportModels(p, models, channels).value)
  {
    if models != [] {
      var n := |models| - 1;
      ImportModelsKeys(p, models[..n], channels);
      ImportOneKeys(p, models[n], ImportModels(p, models[..n], channels).value);
    }
  }

  lemma {:induction false} ImportAllKeys(ps: seq<Provider>, channels: seq<Channel>)
    requires DistinctChannels(channels) && ImportAll(ps, channels).Success?
    ensures DistinctChannels(ImportAll(ps, channels).value)
  {
    if ps != [] {
      var n := |ps| - 1;
      ImportAllKeys(ps[..n], channels);
      ImportModelsKeys(ps[n], ps[n].ModelList(), ImportAll(ps[..n], channels).value);
    }
  }

  lemma MutationsKeepKeys(db: Tables, m: Mutation)
    requires Keyed(db) && Apply(db, m).Success?
    ensures Keyed(Apply(db, m).value)
  {
    hide Channel.Defaulted, Trim;
    match m
    case CreateProvider(p) =>
      StoredKeepsId(p);
    case SaveProvider(p) => WithProviderKeys(db.providers, p.Stored());
    case DeleteProvider(id) => WithoutProviderKeys(db.providers, id);
    case CreateChannel(c) =>
      DefaultedChannelId(c);
    case SaveChannel(c) => WithChannelKeys(db.channels, c.Defaulted().value);
    case DisableChannel(id) =>
    case DeleteChannel(id) => WithoutChannelKeys(db.channels, id);
    case ImportLegacy(read) => ImportAllKeys(read, db.channels);
  }

  lemma StoredKeepsId(p: Provider)
    ensures p.Stored().id == p.id && p.Stored().platformChannelID == 0 && p.Stored().Enabled() == p.Enabled()
  {
  }

  lemma DefaultedChannelId(c: Channel)
    ensures c.Defaulted().Success? ==> c.Defaulted().value.id == c.id
  {
  }

  // ---------- IDs of the routing list ----------

  lemma IdsOfSorted(rows: seq<Provider>)
    requires DistinctIds(rows)
    ensures DistinctIds(ProvidersQuery(rows))
    ensures forall p :: p in ProvidersQuery(rows) <==> p in rows
  {
    assert TotalPreorder(ProviderOrder);
    SortSorts(rows, ProviderOrder);
    var out := ProvidersQuery(rows);
    DistinctCounts(rows);
    DistinctCounts(out);
    forall i, j | 0 <= i < j < |out| ensures out[i].id != out[j].id {
      assert out[i] in rows && out[j] in rows;
    }
  }

  lemma IdsOfSortedChannels(rows: seq<Channel>)
    requires DistinctChannels(rows)
    ensures DistinctChannels(ChannelsQuery(rows))
    ensures forall c :: c in ChannelsQuery(rows) <==> c in rows
  {
    assert TotalPreorder(ChannelOrder);
    SortSorts(rows, ChannelOrder);
    var out := ChannelsQuery(rows);
    DistinctCounts(rows);
    DistinctCounts(out);
    forall i, j | 0 <= i < j < |out| ensures out[i].id != out[j].id {
      assert out[i] in rows && out[j] in rows;
    }
  }

  // No legacy provider sits where a channel is projected to.
  ghost predicate NoCollision(db: Tables) {
    forall p, c :: p in db.providers && c in db.channels ==> p.id != CHANNEL_ID_OFFSET + c.id
  }

  lemma DistinctJoin(a: seq<Provider>, b: seq<Provider>)
    requires DistinctIds(a) && DistinctIds(b)
    ensures DistinctIds(a + b) <==> forall p, q :: p in a && q in b ==> p.id != q.id
  {
    if DistinctIds(a + b) {
      forall p, q | p in a && q in b ensures p.id != q.id {
        var i :| 0 <= i < |a| && a[i] == p;
        var j :| 0 <= j < |b| && b[j] == q;
        assert (a + b)[i].id != (a + b)[|a| + j].id;
      }
    }
  }

  lemma ProjectedIds(cs: seq<Channel>, secrets: Secrets)
    requires DistinctChannels(cs)
    ensures DistinctIds(Projected(cs, secrets))
    ensures forall q :: q in Projected(cs, secrets) ==> exists c :: c in cs && q.id == CHANNEL_ID_OFFSET + c.id
    ensures forall c :: c in cs ==> exists q :: q in Projected(cs, secrets) && q.id == CHANNEL_ID_OFFSET + c.id
  {
    var qs := Projected(cs, secrets);
    forall j | 0 <= j < |cs| ensures qs[j].id == CHANNEL_ID_OFFSET + cs[j].id && qs[j] in qs {
    }
  }

  // Routed IDs are distinct exactly when no legacy ID equals the offset plus a channel ID.
  lemma RoutedIdsDistinct(db: Tables, secrets: Secrets)
    requires Keyed(db)
    ensures DistinctIds(RoutingProviders(db, secrets)) <==> NoCollision(db)
  {
    IdsOfSorted(db.providers);
    IdsOfSortedChannels(db.channels);
    ProjectedIds(ChannelsQuery(db.channels), secrets);
    DistinctJoin(ProvidersQuery(db.providers), Projected(ChannelsQuery(db.channels), secrets));
  }

  // ---------- Along runs ----------

  lemma {:induction false} RunKeepsKeys(states: seq<State>, steps: seq<Step>, secrets: Secrets, i: nat, j: nat)
    requires Run(states, steps, secrets) && i <= j <= |steps|
    requires states[i].history != [] && Keyed(Db(states[i]))
    ensures states[j].history != [] && Keyed(Db(states[j]))
    decreases j - i
  {
    if i < j {
      if steps[i].Write? {
        MutationsKeepKeys(Db(states[i]), steps[i].mutation);
      }
      RunKeepsKeys(states, steps, secrets, i + 1, j);
    }
  }
}
