/** Taking a provider or a channel out of service: what the mutations write, and that nothing withdrawn is selected. */
module Withdrawal {
  import opened Sorting
  import opened Providers
  import opened RoutingIndex
  import opened Database
  import opened ConfigSync
  import opened RoutedIds

  // ---------- What the mutations leave in the tables ----------

  ghost predicate Disables(before: seq<Channel>, after: seq<Channel>, id: nat) {
    forall c :: c in after <==>
      (c in before && c.id != id) || (exists row :: row in before && row.id == id && c == row.(status := 2))
  }

  // The rows a mutation is asked to leave, whatever order the tables hold them in.
  ghost predicate Effect(db: Tables, m: Mutation, next: Tables) {
    match m
    case CreateProvider(p) =>
      WritesProvider(db.providers, next.providers, p.Stored()) && next.channels == db.channels
    case SaveProvider(p) =>
      WritesProvider(db.providers, next.providers, p.Stored()) && next.channels == db.channels
    case DeleteProvider(id) =>
      (forall p :: p in next.providers <==> p in db.providers && p.id != id) && next.channels == db.channels
    case CreateChannel(c) =>
      c.Defaulted().Success? && WritesChannel(db.channels, next.channels, c.Defaulted().value)
      && next.providers == db.providers
    case SaveChannel(c) =>
      c.Defaulted().Success? && WritesChannel(db.channels, next.channels, c.Defaulted().value)
      && next.providers == db.providers
    case DisableChannel(id) =>
      Disables(db.channels, next.channels, id) && next.providers == db.providers
    case DeleteChannel(id) =>
      (forall c :: c in next.channels <==> c in db.channels && c.id != id) && next.providers == db.providers
    case ImportLegacy(_) =>
      && (forall c :: c in db.channels ==> c in next.channels)
      && (forall c :: c in next.channels ==> c in db.channels || c.id >= FreshId(db.channels))
      && next.providers == db.providers
  }

  lemma DisabledRows(rows: seq<Channel>, id: nat)
    ensures Disables(rows, Disabled(rows, id), id)
  {
    var out := Disabled(rows, id);
    forall i | 0 <= i < |rows|
      ensures out[i] == (if rows[i].id == id then rows[i].(status := STATUS_DISABLED) else rows[i]) && out[i] in out
    {
    }
  }

  lemma FreshIdMoves(channels: seq<Channel>, c: Channel)
    requires c.id == FreshId(channels)
    ensures FreshId(channels + [c]) >= FreshId(channels)
  {
    assert (channels + [c])[..|channels|] == channels;
  }

  // Imported channels are numbered from the first free ID on.
  lemma {:induction false} ImportModelsFresh(p: Provider, models: seq<string>, channels: seq<Channel>)
    requires ImportModels(p, models, channels).Success?
    ensures FreshId(ImportModels(p, models, channels).value) >= FreshId(channels)
    ensures forall c :: c in ImportModels(p, models, channels).value ==> c in channels || c.id >= FreshId(channels)
  {
    hide LegacyChannel, Channel.Defaulted, FreshId, Imported;
    if models != [] {
      var n := |models| - 1;
      ImportModelsFresh(p, models[..n], channels);
      ImportOneFresh(p, models[n], ImportModels(p, models[..n], channels).value);
    }
  }

  lemma ImportOneFresh(p: Provider, model: string, channels: seq<Channel>)
    requires ImportOne(p, model, channels).Success?
    ensures FreshId(ImportOne(p, model, channels).value) >= FreshId(channels)
    ensures forall c :: c in ImportOne(p, model, channels).value ==> c in channels || c.id == FreshId(channels)
  {
    hide Channel.Defaulted, FreshId, Imported;
    var raw := LegacyChannel(p, model, FreshId(channels));
    DefaultedChannelId(raw);
    if raw.Defaulted().Success? {
      FreshIdMoves(channels, raw.Defaulted().value);
    }
  }

  lemma {:induction false} ImportIsFresh(ps: seq<Provider>, channels: seq<Channel>)
    requires ImportAll(ps, channels).Success?
    ensures FreshId(ImportAll(ps, channels).value) >= FreshId(channels)
    ensures forall c :: c in ImportAll(ps, channels).value ==> c in channels || c.id >= FreshId(channels)
  {
    hide ImportModels, FreshId, Provider.ModelList;
    if ps != [] {
      var n := |ps| - 1;
      ImportIsFresh(ps[..n], channels);
      ImportModelsFresh(ps[n], ps[n].ModelList(), ImportAll(ps[..n], channels).value);
    }
  }

  // A committed mutation writes the row it was given, or removes or disables the row it names,
  // and no other.
  lemma MutationEffects(db: Tables, m: Mutation)
    requires Keyed(db) && Apply(db, m).Success?
    ensures Effect(db, m, Apply(db, m).value)
  {
    hide Channel.Defaulted, Provider.Stored, ImportAll, DistinctIds, DistinctChannels, WithProvider, WithChannel,
      WithoutProvider, WithoutChannel, Disabled, Disables;
    match m
    case CreateProvider(p) => StoredKeepsId(p);
    case SaveProvider(p) => WithProviderKeys(db.providers, p.Stored());
    case DeleteProvider(id) => WithoutProviderKeys(db.providers, id);
    case CreateChannel(c) => DefaultedChannelId(c);
    case SaveChannel(c) => WithChannelKeys(db.channels, c.Defaulted().value);
    case DisableChannel(id) => DisabledRows(db.channels, id);
    case DeleteChannel(id) => WithoutChannelKeys(db.channels, id);
    case ImportLegacy(read) =>
      ImportGrows(read, db.channels);
      ImportIsFresh(read, db.channels);
  }

  // ---------- Out of service ----------

  predicate InService(status: int) {
    status == 0 || status == STATUS_ENABLED
  }

  ghost predicate NoProviderAt(rows: seq<Provider>, id: nat) {
    forall p :: p in rows && p.id == id ==> !InService(p.status)
  }

  ghost predicate NoChannelAt(rows: seq<Channel>, id: nat) {
    forall c :: c in rows && CHANNEL_ID_OFFSET + c.id == id ==> !InService(c.status)
  }

  // No enabled row of either table is routed under the ID.
  ghost predicate OutOfService(db: Tables, id: nat) {
    NoProviderAt(db.providers, id) && NoChannelAt(db.channels, id)
  }

  // The mutation deletes or disables the row behind a routed ID.
  predicate Withdraws(db: Tables, m: Mutation, id: nat) {
    match m
    case SaveProvider(p) => p.id == id && HasProvider(db.providers, id) && !InService(p.status)
    case DeleteProvider(p) => p == id && HasProvider(db.providers, id)
    case SaveChannel(c) => CHANNEL_ID_OFFSET + c.id == id && HasChannel(db.channels, c.id) && !InService(c.status)
    case DisableChannel(c) => CHANNEL_ID_OFFSET + c == id && HasChannel(db.channels, c)
    case DeleteChannel(c) => CHANNEL_ID_OFFSET + c == id && HasChannel(db.channels, c)
    case _ => false
  }

  // The mutation puts an enabled row under the ID, or may do so.
  predicate MayRestore(db: Tables, m: Mutation, id: nat) {
    match m
    case CreateProvider(p) => p.id == id && InService(p.status)
    case SaveProvider(p) => p.id == id && InService(p.status)
    case CreateChannel(c) => CHANNEL_ID_OFFSET + c.id == id && InService(c.status)
    case SaveChannel(c) => CHANNEL_ID_OFFSET + c.id == id && InService(c.status)
    case ImportLegacy(_) => id >= CHANNEL_ID_OFFSET + FreshId(db.channels)
    case _ => false
  }

  lemma ProviderDefaultsKeep(p: Provider)
    ensures p.Stored().id == p.Defaulted().id == p.id
    ensures InService(p.Stored().status) == InService(p.Defaulted().status) == InService(p.status)
  {
  }

  lemma ChannelDefaultsKeep(c: Channel)
    ensures c.Defaulted().Success? ==>
              c.Defaulted().value.id == c.id && (InService(c.Defaulted().value.status) <==> InService(c.status))
  {
  }

  lemma DefaultsKeep(m: Mutation)
    ensures m.CreateProvider? || m.SaveProvider? ==>
              && m.provider.Stored().id == m.provider.id
              && (InService(m.provider.Stored().status) <==> InService(m.provider.status))
    ensures (m.CreateChannel? || m.SaveChannel?) && m.channel.Defaulted().Success? ==>
              && m.channel.Defaulted().value.id == m.channel.id
              && (InService(m.channel.Defaulted().value.status) <==> InService(m.channel.status))
  {
    hide Provider.Stored, Provider.Defaulted, Channel.Defaulted, InService;
    if m.CreateProvider? || m.SaveProvider? {
      ProviderDefaultsKeep(m.provider);
    } else if m.CreateChannel? || m.SaveChannel? {
      ChannelDefaultsKeep(m.channel);
    }
  }

  lemma WithdrawalTakesOut(db: Tables, m: Mutation, id: nat)
    requires Keyed(db) && NoCollision(db) && Apply(db, m).Success? && Withdraws(db, m, id)
    ensures OutOfService(Apply(db, m).value, id)
  {
    hide Apply, Keyed, Provider.Stored, Channel.Defaulted;
    MutationEffects(db, m);
    DefaultsKeep(m);
  }

  lemma StaysOut(db: Tables, m: Mutation, id: nat)
    requires Keyed(db) && Apply(db, m).Success? && OutOfService(db, id) && !MayRestore(db, m, id)
    ensures OutOfService(Apply(db, m).value, id)
  {
    hide Apply, Keyed, Channel.Defaulted, Provider.Stored, FreshId;
    MutationEffects(db, m);
    DefaultsKeep(m);
  }

  // Every routed provider is a provider row or the projection of a channel row.
  lemma RoutedRow(providerRows: seq<Provider>, channelRows: seq<Channel>, secrets: Secrets, p: Provider)
    requires p in Routing(providerRows, channelRows, secrets)
    ensures p in providerRows
            || exists c :: c in channelRows && p.id == CHANNEL_ID_OFFSET + c.id && p.status == c.status
  {
    hide Sort, Secrets.Resolve;
    assert TotalPreorder(ProviderOrder) && TotalPreorder(ChannelOrder);
    SortSorts(providerRows, ProviderOrder);
    SortSorts(channelRows, ChannelOrder);
    var cs := ChannelsQuery(channelRows);
    var qs := Projected(cs, secrets);
    if p !in providerRows {
      var i :| 0 <= i < |qs| && qs[i] == p;
      assert cs[i] in channelRows;
    }
  }

  // Routing skips what is out of service, whatever is asked for, even in a list put together
  // from tables read at different moments and whatever IDs collide in it.
  lemma OutIsNotSelected(
      providerRows: seq<Provider>, channelRows: seq<Channel>, secrets: Secrets, id: nat,
      model: string, capability: string, excluded: set<nat>, draw: nat)
    requires NoProviderAt(providerRows, id) && NoChannelAt(channelRows, id)
    ensures var r := Select(BuildIndex(Routing(providerRows, channelRows, secrets)), model, capability, excluded, draw);
            r.Selected? ==> r.provider.id != id
  {
    hide Select, BuildIndex, Routing, Provider.Defaulted;
    var ps := Routing(providerRows, channelRows, secrets);
    SelectedIsListed(ps, model, capability, excluded, draw);
    var r := Select(BuildIndex(ps), model, capability, excluded, draw);
    if r.Selected? {
      var p :| p in ps && p.Enabled() && p.id !in excluded && r.provider == p.Defaulted();
      ProviderDefaultsKeep(p);
      RoutedRow(providerRows, channelRows, secrets, p);
    }
  }

  // Every table committed since state i, up to state j, has the ID out of service.
  ghost predicate OutSince(states: seq<State>, i: nat, j: nat, id: nat)
    requires i <= j < |states|
  {
    && states[i].history != [] && |states[i].history| <= |states[j].history|
    && forall t :: |states[i].history| - 1 <= t < |states[j].history| ==> OutOfService(states[j].history[t], id)
  }

  lemma {:induction false} RunStaysOut(
      states: seq<State>, steps: seq<Step>, secrets: Secrets, i: nat, j: nat, id: nat)
    requires Run(states, steps, secrets) && Init(states[0]) && Keyed(Db(states[0])) && i <= j <= |steps|
    requires states[i].history != [] && OutOfService(Db(states[i]), id)
    requires forall k :: i <= k < j && steps[k].Write? ==>
               states[k].history != [] && !MayRestore(Db(states[k]), steps[k].mutation, id)
    ensures OutSince(states, i, j, id)
  {
    hide Apply, Keyed, OutOfService, MayRestore, Init;
    if i < j {
      RunStaysOut(states, steps, secrets, i, j - 1, id);
      RunKeepsKeys(states, steps, secrets, 0, j - 1);
      if steps[j - 1].Write? {
        StaysOut(Db(states[j - 1]), steps[j - 1].mutation, id);
      }
      OutSinceStep(states[j - 1], steps[j - 1], secrets);
    }
  }

  lemma OutSinceStep(s: State, step: Step, secrets: Secrets)
    requires Enabled(s, step)
    ensures After(s, step, secrets).history ==
            if step.Write? then s.history + [Apply(Db(s), step.mutation).value] else s.history
  {
    hide Apply, ChannelsQuery, Projected, ProvidersQuery;
  }

  // After a provider or channel is deleted or disabled, and until it may have been put back, no
  // cache whose label has reached the version of that change selects it, however stale the label
  // has become through other writes since.
  lemma WithdrawnIsNotRouted(
      states: seq<State>, steps: seq<Step>, secrets: Secrets, i: nat, j: nat, id: nat,
      model: string, capability: string, excluded: set<nat>, draw: nat)
    requires Run(states, steps, secrets) && Init(states[0]) && Keyed(Db(states[0])) && i < j <= |steps|
    requires states[i].history != [] && states[i + 1].history != [] && NoCollision(Db(states[i]))
    requires steps[i].Write? && Withdraws(Db(states[i]), steps[i].mutation, id)
    requires forall k :: i < k < j && steps[k].Write? ==>
               states[k].history != [] && !MayRestore(Db(states[k]), steps[k].mutation, id)
    requires states[j].tag >= Db(states[i + 1]).providersVersion
    ensures var r := Select(BuildIndex(states[j].cached), model, capability, excluded, draw);
            r.Selected? ==> r.provider.id != id
  {
    hide Apply, Keyed, OutOfService, MayRestore, Select, BuildIndex, NoCollision, Init, Inv, Routing, Withdraws;
    RunKeepsKeys(states, steps, secrets, 0, i);
    WithdrawalTakesOut(Db(states[i]), steps[i].mutation, id);
    OutSinceStep(states[i], steps[i], secrets);
    RunStaysOut(states, steps, secrets, i + 1, j, id);
    var from := |states[i + 1].history| - 1;
    InitInv(states[0], secrets);
    RunKeepsInv(states, steps, secrets, 0, i + 1);
    RunKeepsInv(states, steps, secrets, i + 1, j);
    VersionsPositive(states[i + 1], secrets);
    assert states[j].history[from] == states[i + 1].history[from];
    LabelReflects(states[j], from, secrets);
    ReflectedIsNotSelected(states[j], from, secrets, id, model, capability, excluded, draw);
  }

  lemma VersionsPositive(s: State, secrets: Secrets)
    requires Inv(s, secrets)
    ensures s.history != [] && Db(s).providersVersion >= 1
  {
  }

  lemma ReflectedIsNotSelected(
      s: State, from: nat, secrets: Secrets, id: nat, model: string, capability: string, excluded: set<nat>, draw: nat)
    requires ReflectsSince(s, from, secrets)
    requires forall t :: from <= t < |s.history| ==> OutOfService(s.history[t], id)
    ensures var r := Select(BuildIndex(s.cached), model, capability, excluded, draw);
            r.Selected? ==> r.provider.id != id
  {
    hide Select, BuildIndex, Routing;
    var a, b :| from <= a < |s.history| && from <= b < |s.history|
                && s.cached == Routing(s.history[a].providers, s.history[b].channels, secrets);
    OutIsNotSelected(s.history[a].providers, s.history[b].channels, secrets, id, model, capability, excluded, draw);
  }
}
