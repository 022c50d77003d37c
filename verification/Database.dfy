/** The control-plane tables: committed transactions on them, the routing query and the legacy import. */
module Database {
  import opened Wrappers
  import opened Text
  import opened Sorting
  import opened Providers

  datatype Tables = Tables(
    providers: seq<Provider>,
    channels: seq<Channel>,
    providersVersion: int,
    channelsVersion: int)

  datatype Mutation =
    | CreateProvider(provider: Provider)
    | SaveProvider(provider: Provider)
    | DeleteProvider(id: nat)
    | CreateChannel(channel: Channel)
    | SaveChannel(channel: Channel)
    | DisableChannel(id: nat)
    | DeleteChannel(id: nat)
    | ImportLegacy(read: seq<Provider>)

  // The mutation carries the ID the database gave its row.
  predicate Assigned(m: Mutation) {
    match m
    case CreateProvider(p) => p.id != 0
    case SaveProvider(p) => p.id != 0
    case CreateChannel(c) => c.id != 0
    case SaveChannel(c) => c.id != 0
    case _ => true
  }

  // ---------- Rows by primary key ----------

  function WithProvider(rows: seq<Provider>, row: Provider): seq<Provider> {
    if rows == [] then [row]
    else if rows[0].id == row.id then [row] + rows[1..]
    else [rows[0]] + WithProvider(rows[1..], row)
  }

  function WithoutProvider(rows: seq<Provider>, id: nat): seq<Provider> {
    if rows == [] then []
    else (if rows[0].id == id then [] else [rows[0]]) + WithoutProvider(rows[1..], id)
  }

  function WithChannel(rows: seq<Channel>, row: Channel): seq<Channel> {
    if rows == [] then [row]
    else if rows[0].id == row.id then [row] + rows[1..]
    else [rows[0]] + WithChannel(rows[1..], row)
  }

  function WithoutChannel(rows: seq<Channel>, id: nat): seq<Channel> {
    if rows == [] then []
    else (if rows[0].id == id then [] else [rows[0]]) + WithoutChannel(rows[1..], id)
  }

  function Disabled(rows: seq<Channel>, id: nat): seq<Channel> {
    seq(|rows|, i requires 0 <= i < |rows| =>
      if rows[i].id == id then rows[i].(status := STATUS_DISABLED) else rows[i])
  }

  predicate HasProvider(rows: seq<Provider>, id: nat) {
    exists p :: p in rows && p.id == id
  }

  predicate HasChannel(rows: seq<Channel>, id: nat) {
    exists c :: c in rows && c.id == id
  }

  ghost predicate DistinctChannels(rows: seq<Channel>) {
    forall i, j :: 0 <= i < j < |rows| ==> rows[i].id != rows[j].id
  }

  // ---------- The legacy import ----------

  function Digits(n: nat): string {
    if n < 10 then [('0' as int + n) as char] else Digits(n / 10) + [('0' as int + n % 10) as char]
  }

  function SecretRefFor(p: Provider): string {
    if TrimSpace(p.apiKey) != "" then "legacy-router-providers/" + Digits(p.id) + "/api_key" else ""
  }

  function LegacyChannel(p: Provider, model: string, id: nat): Channel {
    Channel(id, p.name, p.id, p.vendor, model, p.NormalizedCapabilities(), p.status, p.priority, p.weight,
            p.baseURL, p.UpstreamModel(model), SecretRefFor(p), p.authHeader, p.authPrefix, p.headers,
            p.channelType, p.relayFormat, "")
  }

  predicate Imported(channels: seq<Channel>, providerID: nat, model: string) {
    exists c :: c in channels && c.legacyProviderID == providerID && c.publicModelID == model
  }

  function FreshId(channels: seq<Channel>): nat {
    if channels == [] then 1
    else
      var rest := FreshId(channels[..|channels| - 1]);
      var id := channels[|channels| - 1].id;
      if id < rest then rest else id + 1
  }

  function ImportOne(p: Provider, model: string, channels: seq<Channel>): Result<seq<Channel>, string> {
    if model == "" || model == "*" || Imported(channels, p.id, model) then Success(channels)
    else
      match LegacyChannel(p, model, FreshId(channels)).Defaulted()
      case Failure(e) => Failure(e)
      case Success(channel) => Success(channels + [channel])
  }

  function ImportModels(p: Provider, models: seq<string>, channels: seq<Channel>): Result<seq<Channel>, string> {
    if models == [] then Success(channels)
    else
      match ImportModels(p, models[..|models| - 1], channels)
      case Failure(e) => Failure(e)
      case Success(before) => ImportOne(p, models[|models| - 1], before)
  }

  function ImportAll(ps: seq<Provider>, channels: seq<Channel>): Result<seq<Channel>, string> {
    if ps == [] then Success(channels)
    else
      match ImportAll(ps[..|ps| - 1], channels)
      case Failure(e) => Failure(e)
      case Success(before) => ImportModels(ps[|ps| - 1], ps[|ps| - 1].ModelList(), before)
  }

  // ---------- Transactions ----------

  function BumpProviders(db: Tables): Tables {
    db.(providersVersion := db.providersVersion + 1)
  }

  function BumpBoth(db: Tables): Tables {
    db.(providersVersion := db.providersVersion + 1, channelsVersion := db.channelsVersion + 1)
  }

  // The committed effect of a transaction; a failed one is rolled back and changes nothing.
  function Apply(db: Tables, m: Mutation): Result<Tables, string> {
    match m
    case CreateProvider(p) =>
      if HasProvider(db.providers, p.id) then Failure("duplicate key")
      else Success(BumpProviders(db.(providers := db.providers + [p.Stored()])))
    case SaveProvider(p) =>
      Success(BumpProviders(db.(providers := WithProvider(db.providers, p.Stored()))))
    case DeleteProvider(id) =>
      Success(BumpProviders(db.(providers := WithoutProvider(db.providers, id))))
    case CreateChannel(c) =>
      (match c.Defaulted()
       case Failure(e) => Failure(e)
       case Success(row) =>
         if HasChannel(db.channels, c.id) then Failure("duplicate key")
         else Success(BumpBoth(db.(channels := db.channels + [row]))))
    case SaveChannel(c) =>
      (match c.Defaulted()
       case Failure(e) => Failure(e)
       case Success(row) => Success(BumpBoth(db.(channels := WithChannel(db.channels, row)))))
    case DisableChannel(id) =>
      Success(BumpBoth(db.(channels := Disabled(db.channels, id))))
    case DeleteChannel(id) =>
      Success(BumpBoth(db.(channels := WithoutChannel(db.channels, id))))
    case ImportLegacy(read) =>
      match ImportAll(read, db.channels)
      case Failure(e) => Failure(e)
      case Success(channels) =>
        if |channels| == |db.channels| then Success(db) else Success(BumpBoth(db.(channels := channels)))
  }

  // ---------- Queries ----------

  predicate ProviderOrder(a: Provider, b: Provider) {
    a.priority > b.priority || (a.priority == b.priority && a.id <= b.id)
  }

  predicate ChannelOrder(a: Channel, b: Channel) {
    a.priority > b.priority || (a.priority == b.priority && a.id <= b.id)
  }

  function ProvidersQuery(rows: seq<Provider>): seq<Provider> {
    Sort(rows, ProviderOrder)
  }

  function ChannelsQuery(rows: seq<Channel>): seq<Channel> {
    Sort(rows, ChannelOrder)
  }

  function Projected(channels: seq<Channel>, secrets: Secrets): seq<Provider> {
    seq(|channels|, i requires 0 <= i < |channels| => channels[i].ToProvider(secrets))
  }

  // The routing list that two separate reads combine to.
  function Routing(providerRows: seq<Provider>, channelRows: seq<Channel>, secrets: Secrets): seq<Provider> {
    ProvidersQuery(providerRows) + Projected(ChannelsQuery(channelRows), secrets)
  }

  function RoutingProviders(db: Tables, secrets: Secrets): seq<Provider> {
    Routing(db.providers, db.channels, secrets)
  }

  // The routing list: every row once, legacy providers first, each part by descending priority
  // and then by ID.
  lemma RoutingInOrder(db: Tables, secrets: Secrets)
    ensures var rows, n := RoutingProviders(db, secrets), |db.providers|;
            && |rows| == n + |db.channels| && multiset(rows[..n]) == multiset(db.providers)
            && (forall i, j :: 0 <= i < j < n || n <= i < j < |rows| ==>
                  rows[i].priority > rows[j].priority || (rows[i].priority == rows[j].priority && rows[i].id <= rows[j].id))
            && forall q :: q in rows[n..] <==> exists c :: c in db.channels && q == c.ToProvider(secrets)
  {
    hide Channel.ToProvider, Sort, ProvidersQuery, ChannelsQuery;
    var rows, n, cs := RoutingProviders(db, secrets), |db.providers|, ChannelsQuery(db.channels);
    QueriesInOrder(db);
    assert rows[..n] == ProvidersQuery(db.providers) && rows[n..] == Projected(cs, secrets);
    forall i | n <= i < |rows|
      ensures rows[i] == cs[i - n].ToProvider(secrets)
      ensures rows[i].id == CHANNEL_ID_OFFSET + cs[i - n].id && rows[i].priority == cs[i - n].priority
    {
      ProjectedRank(cs[i - n], secrets);
    }
    forall c | c in db.channels ensures c.ToProvider(secrets) in rows[n..] {
      var k :| 0 <= k < |cs| && cs[k] == c;
      assert rows[n..][k] == c.ToProvider(secrets);
    }
  }

  lemma QueriesInOrder(db: Tables)
    ensures SortedBy(ProvidersQuery(db.providers), ProviderOrder) && SortedBy(ChannelsQuery(db.channels), ChannelOrder)
    ensures multiset(ProvidersQuery(db.providers)) == multiset(db.providers)
    ensures |ProvidersQuery(db.providers)| == |db.providers| && |ChannelsQuery(db.channels)| == |db.channels|
    ensures forall c :: c in ChannelsQuery(db.channels) <==> c in db.channels
  {
    hide Sort;
    assert TotalPreorder(ProviderOrder) && TotalPreorder(ChannelOrder);
    SortSorts(db.providers, ProviderOrder);
    SortSorts(db.channels, ChannelOrder);
  }

  lemma ProjectedRank(c: Channel, secrets: Secrets)
    ensures c.ToProvider(secrets).id == CHANNEL_ID_OFFSET + c.id && c.ToProvider(secrets).priority == c.priority
  {
  }

  // ---------- Every change is announced ----------

  lemma {:induction false} ImportGrows(ps: seq<Provider>, channels: seq<Channel>)
    requires ImportAll(ps, channels).Success?
    ensures channels <= ImportAll(ps, channels).value
  {
    if ps != [] {
      var n := |ps| - 1;
      ImportGrows(ps[..n], channels);
      ImportModelsGrows(ps[n], ps[n].ModelList(), ImportAll(ps[..n], channels).value);
    }
  }

  lemma {:induction false} ImportModelsGrows(p: Provider, models: seq<string>, channels: seq<Channel>)
    requires ImportModels(p, models, channels).Success?
    ensures channels <= ImportModels(p, models, channels).value
  {
    if models != [] {
      ImportModelsGrows(p, models[..|models| - 1], channels);
    }
  }

  // A transaction either changes no routing table and no version, or bumps the provider version by one.
  lemma MutationsAnnounce(db: Tables, m: Mutation)
    requires Apply(db, m).Success?
    ensures var next := Apply(db, m).value;
            next == db || next.providersVersion == db.providersVersion + 1
    ensures var next := Apply(db, m).value;
            next.channelsVersion == db.channelsVersion
                                    + if m.CreateProvider? || m.SaveProvider? || m.DeleteProvider? || next == db then 0 else 1
    ensures var next := Apply(db, m).value;
            next == db <==> m.ImportLegacy? && next.channels == db.channels
  {
    hide TrimSpace;
    if m.ImportLegacy? {
      ImportGrows(m.read, db.channels);
    }
  }
}
