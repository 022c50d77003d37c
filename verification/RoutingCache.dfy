/** The in-memory routing cache: rebuilt from a provider list, queried by every request. */
module RoutingCache {
  import opened Text
  import opened Sorting
  import opened Weighted
  import opened Providers
  import opened RoutingIndex

  // ---------- Filling the index ----------

  function Entry(byModel: map<string, seq<nat>>, model: string): seq<nat> {
    if model in byModel then byModel[model] else []
  }

  ghost predicate NoBlanks(byModel: map<string, seq<nat>>) {
    forall m :: m in byModel ==> byModel[m] != []
  }

  lemma ListingsStep(models: seq<string>, j: nat, m: string, id: nat)
    requires j < |models|
    ensures Listings(models[..j + 1], m, id) ==
            Listings(models[..j], m, id) + if models[j] == m then [id] else []
  {
    assert models[..j + 1][..j] == models[..j];
  }

  lemma PostingsStep(ps: seq<Provider>, i: nat, m: string)
    requires i < |ps|
    ensures Postings(ps[..i + 1], m) ==
            Postings(ps[..i], m) + if ps[i].Enabled() then Listings(ps[i].ModelList(), m, ps[i].id) else []
  {
    assert ps[..i + 1][..i] == ps[..i];
  }

  lemma IdTableStep(ps: seq<Provider>, i: nat)
    requires i < |ps|
    ensures IdTable(ps[..i + 1]) == IdTable(ps[..i])[ps[i].id := ps[i].Defaulted()]
  {
    assert ps[..i + 1][..i] == ps[..i];
  }

  lemma PostStep(before: seq<nat>, was: seq<nat>, models: seq<string>, j: nat, m: string, id: nat)
    requires j < |models| && was == before + Listings(models[..j], m, id)
    ensures (if models[j] == m then was + [id] else was) == before + Listings(models[..j + 1], m, id)
  {
    ListingsStep(models, j, m, id);
  }

  // Appends an ID to the lists of the models it serves, creating the lists that are missing.
  method PostListings(models: seq<string>, id: nat, before: map<string, seq<nat>>) returns (byModel: map<string, seq<nat>>)
    requires NoBlanks(before)
    ensures NoBlanks(byModel)
    ensures forall m :: Entry(byModel, m) == Entry(before, m) + Listings(models, m, id)
  {
    byModel := before;
    assert forall m :: Listings(models[..0], m, id) == [];
    assert forall m :: Entry(before, m) + [] == Entry(before, m);
    for j := 0 to |models|
      invariant NoBlanks(byModel)
      invariant forall m :: Entry(byModel, m) == Entry(before, m) + Listings(models[..j], m, id)
    {
      ghost var was := byModel;
      byModel := byModel[models[j] := Entry(byModel, models[j]) + [id]];
      forall m ensures Entry(byModel, m) == Entry(before, m) + Listings(models[..j + 1], m, id) {
        PostStep(Entry(before, m), Entry(was, m), models, j, m, id);
      }
    }
    assert models[..|models|] == models;
  }

  method PostProviders(providers: seq<Provider>) returns (byID: map<nat, Provider>, byModel: map<string, seq<nat>>)
    ensures byID == IdTable(providers) && NoBlanks(byModel)
    ensures forall m :: Entry(byModel, m) == Postings(providers, m)
  {
    hide TrimLeft, TrimRight, TrimSpace;
    byID, byModel := map[], map[];
    for i := 0 to |providers|
      invariant byID == IdTable(providers[..i]) && NoBlanks(byModel)
      invariant forall m :: Entry(byModel, m) == Postings(providers[..i], m)
    {
      var provider := providers[i].Defaulted();
      DefaultsKeepService(providers[i]);
      DefaultedKeepsRank(providers[i]);
      IdTableStep(providers, i);
      byID := byID[provider.id := provider];
      forall m {
        PostingsStep(providers, i, m);
      }
      if provider.status == STATUS_ENABLED {
        var models := SplitCSV(provider.models);
        assert models == provider.ModelList();
        byModel := PostListings(models, provider.id, byModel);
      }
    }
    assert providers[..|providers|] == providers;
  }

  // Sorts every list of the index by rank, in whatever order the map yields its keys.
  method SortLists(byID: map<nat, Provider>, before: map<string, seq<nat>>) returns (byModel: map<string, seq<nat>>)
    ensures byModel == map m | m in before :: Sort(before[m], RankOrder(byID))
  {
    byModel := before;
    var todo := before.Keys;
    while todo != {}
      invariant todo <= before.Keys == byModel.Keys
      invariant forall m :: m in before ==>
                  byModel[m] == if m in todo then before[m] else Sort(before[m], RankOrder(byID))
      decreases todo
    {
      var m :| m in todo;
      byModel := byModel[m := Sort(byModel[m], RankOrder(byID))];
      todo := todo - {m};
    }
  }

  lemma PostedIsIndex(providers: seq<Provider>, byModel: map<string, seq<nat>>)
    requires NoBlanks(byModel)
    requires forall m :: Entry(byModel, m) == Postings(providers, m)
    ensures (map m | m in byModel :: Sort(byModel[m], RankOrder(IdTable(providers)))) == BuildIndex(providers).byModel
  {
    hide IdTable, ListedModels;
    forall m ensures m in byModel <==> m in ListedModels(providers) {
      ListedModelsPosted(providers, m);
      assert Entry(byModel, m) == Postings(providers, m);
    }
    forall m | m in byModel ensures byModel[m] == Postings(providers, m) {
      assert Entry(byModel, m) == Postings(providers, m);
    }
  }

  // ---------- Choosing by weight ----------

  // The sampler over the first n slots of an array; draw stands for the random source.
  method PickWeighted(providers: array<Provider>, n: nat, draw: nat) returns (r: Draw)
    requires n <= providers.Length
    ensures r == Pick(Weights(providers[..n]), draw)
    ensures r.Chosen? ==> r.index < n
  {
    hide Sum, Weights, Wrap64;
    ghost var ws := Weights(providers[..n]);
    WeightsAt(providers[..n]);
    if n == 0 {
      return Draw.Panicked;
    }
    if n == 1 {
      return Chosen(0);
    }
    var total := 0;
    BeforeStart(ws);
    for i := 0 to n
      invariant total == Wrap64(Before(ws, i))
    {
      BeforeStep(ws, i);
      WrapSteps(Before(ws, i), ws[i]);
      total := Wrap64(total + Wrap64(providers[i].weight));
      assert providers[i].weight == ws[i];
    }
    assert total == Wrap64(Sum(ws)) by {
      assert ws[..n] == ws;
    }
    if total == 0 {
      return Chosen(draw % n);
    }
    if total < 0 {
      return Draw.Panicked;
    }
    var left := draw % total;
    for i := 0 to n
      invariant Walk(ws, left, i) == Walk(ws, draw % total, 0)
    {
      assert providers[i].weight == ws[i];
      left := Wrap64(left - Wrap64(providers[i].weight));
      if left < 0 {
        return Chosen(i);
      }
    }
    return Chosen(n - 1);
  }

  lemma WeightsAt(ps: seq<Provider>)
    ensures |Weights(ps)| == |ps|
    ensures forall i :: 0 <= i < |ps| ==> Weights(ps)[i] == ps[i].weight
  {
  }

  // ---------- Model metadata ----------

  datatype ModelMetadata = ModelMetadata(id: string, capabilities: seq<string>)

  predicate MetadataLe(a: ModelMetadata, b: ModelMetadata) {
    StringLe(a.id, b.id)
  }

  lemma StringOrder()
    ensures TotalPreorder(StringLe)
    ensures TotalPreorder(MetadataLe)
  {
    hide StringLe;
    StringLeOrders();
  }

  ghost predicate StrictlySorted(xs: seq<string>) {
    forall i, j :: 0 <= i < j < |xs| ==> StringLe(xs[i], xs[j]) && xs[i] != xs[j]
  }

  // Collects a set into a list and sorts it.
  method SortedList(items: set<string>) returns (out: seq<string>)
    ensures StrictlySorted(out)
    ensures forall x :: x in out <==> x in items
  {
    out := [];
    var todo := items;
    while todo != {}
      invariant todo <= items && Distinct(out)
      invariant forall x :: x in out <==> x in items && x !in todo
      decreases todo
    {
      var x :| x in todo;
      out := out + [x];
      todo := todo - {x};
    }
    StringOrder();
    SortSorts(out, StringLe);
    DistinctCounts(out);
    DistinctCounts(Sort(out, StringLe));
    out := Sort(out, StringLe);
  }

  // What the capability list of a model must hold.
  ghost predicate Offers(ix: Index, model: string, capability: string) {
    exists id :: id in Entry(ix.byModel, model) && id in ix.byID && ix.byID[id].status == STATUS_ENABLED
                 && capability in ix.byID[id].NormalizedCapabilities()
  }

  ghost predicate Describes(ix: Index, m: ModelMetadata) {
    && m.id in ix.byModel && m.id != "*" && m.capabilities != []
    && StrictlySorted(m.capabilities)
    && forall c :: c in m.capabilities <==> Offers(ix, m.id, c)
  }

  // Sorted by model, one entry for every model that offers something.
  ghost predicate Catalogue(ix: Index, models: seq<ModelMetadata>) {
    && (forall i, j :: 0 <= i < j < |models| ==>
          StringLe(models[i].id, models[j].id) && models[i].id != models[j].id)
    && (forall x :: x in models ==> Describes(ix, x))
    && (forall m, c :: m in ix.byModel && m != "*" && Offers(ix, m, c) ==> exists x :: x in models && x.id == m)
  }

  method CapabilitiesOf(ix: Index, model: string) returns (caps: set<string>)
    ensures forall c :: c in caps <==> Offers(ix, model, c)
  {
    caps := {};
    var ids := Entry(ix.byModel, model);
    for k := 0 to |ids|
      invariant forall c :: c in caps <==>
                  exists id :: id in ids[..k] && id in ix.byID && ix.byID[id].status == STATUS_ENABLED
                               && c in ix.byID[id].NormalizedCapabilities()
    {
      assert ids[..k + 1] == ids[..k] + [ids[k]];
      if ids[k] in ix.byID && ix.byID[ids[k]].status == STATUS_ENABLED {
        var configured := ix.byID[ids[k]].NormalizedCapabilities();
        caps := caps + set c | c in configured;
      }
    }
    assert ids[..|ids|] == ids;
  }

  ghost predicate Collected(ix: Index, models: seq<ModelMetadata>, todo: set<string>) {
    && (forall i, j :: 0 <= i < j < |models| ==> models[i].id != models[j].id)
    && (forall x :: x in models ==> Describes(ix, x) && x.id !in todo)
    && (forall m, c :: m in ix.byModel && m !in todo && m != "*" && Offers(ix, m, c) ==>
          exists x :: x in models && x.id == m)
  }

  lemma CollectedSorts(ix: Index, models: seq<ModelMetadata>)
    requires Collected(ix, models, {})
    ensures Catalogue(ix, Sort(models, MetadataLe))
  {
    StringOrder();
    SortSorts(models, MetadataLe);
    var out := Sort(models, MetadataLe);
    assert Distinct(models);
    DistinctCounts(models);
    DistinctCounts(out);
    forall i, j | 0 <= i < j < |out|
      ensures StringLe(out[i].id, out[j].id) && out[i].id != out[j].id
    {
      assert MetadataLe(out[i], out[j]);
      assert out[i] in models && out[j] in models;
      var a :| 0 <= a < |models| && models[a] == out[i];
      var b :| 0 <= b < |models| && models[b] == out[j];
      assert a != b;
    }
    assert forall x :: x in out <==> x in models;
  }

  class Cache {
    var version: int
    var byID: map<nat, Provider>
    var byModel: map<string, seq<nat>>

    constructor ()
      ensures version == 0 && CurrentIndex() == BuildIndex([])
    {
      version := 0;
      byID := map[];
      byModel := map[];
      new;
      assert ListedModels([]) == {};
    }

    function CurrentIndex(): Index
      reads this
    {
      Index(byID, byModel)
    }

    method Replace(providers: seq<Provider>, newVersion: int)
      modifies this
      ensures version == newVersion && CurrentIndex() == BuildIndex(providers)
    {
      var rows, posted := PostProviders(providers);
      var sorted := SortLists(rows, posted);
      PostedIsIndex(providers, posted);
      version := newVersion;
      byID := rows;
      byModel := sorted;
    }

    // Keeps the candidates in an array and compacts those of top priority to its front.
    method SelectForCapability(model: string, capability: string, excluded: set<nat>, draw: nat) returns (r: Selection)
      ensures r == Select(CurrentIndex(), model, capability, excluded, draw)
    {
      hide TrimSpace;
      var m := TrimSpace(model);
      if m == "" {
        return ModelRequired;
      }
      var cap := NormalizeCapability(capability);
      var ids := IdsFor(Index(byID, byModel), m);
      if ids == [] {
        return NoProvider(m);
      }
      ghost var cs := Candidates(byID, ids, cap, excluded);
      var buffer := new Provider[|ids|];
      var n := Collect(ids, cap, excluded, buffer);
      if n == 0 {
        return NoRemaining(m, cap);
      }
      var kept := CompactTop(buffer, n);
      var picked := PickWeighted(buffer, kept, draw);
      if picked.Panicked? {
        return Selection.Panicked;
      }
      return Selected(buffer[picked.index]);
    }

    method Collect(ids: seq<nat>, capability: string, excluded: set<nat>, buffer: array<Provider>) returns (n: nat)
      requires buffer.Length == |ids|
      modifies buffer
      ensures n <= buffer.Length && buffer[..n] == Candidates(byID, ids, capability, excluded)
    {
      hide TrimSpace;
      n := 0;
      for i := 0 to |ids|
        invariant n <= i && buffer[..n] == Candidates(byID, ids[..i], capability, excluded)
      {
        assert ids[..i + 1][..i] == ids[..i];
        var id := ids[i];
        if id !in excluded && id in byID && byID[id].status == STATUS_ENABLED && byID[id].Supports(capability) {
          ghost var was := buffer[..n];
          buffer[n] := byID[id];
          n := n + 1;
          assert buffer[..n] == was + [byID[id]];
        }
      }
      assert ids[..|ids|] == ids;
    }

    method Models() returns (models: seq<ModelMetadata>)
      ensures Catalogue(CurrentIndex(), models)
    {
      hide MetadataLe, Offers, Sort;
      var ix := CurrentIndex();
      models := [];
      assert ix.byModel.Keys == byModel.Keys;
      var todo := byModel.Keys;
      while todo != {}
        invariant todo <= byModel.Keys && Collected(ix, models, todo)
        decreases todo
      {
        var model :| model in todo;
        todo := todo - {model};
        if model != "*" {
          var caps := CapabilitiesOf(ix, model);
          if caps != {} {
            var list := SortedList(caps);
            var entry := ModelMetadata(model, list);
            assert Describes(ix, entry) by {
              var c :| c in caps;
              assert c in list;
            }
            models := models + [entry];
          }
        }
      }
      CollectedSorts(ix, models);
      models := Sort(models, MetadataLe);
    }
  }

  lemma TopTierNonEmpty(ps: seq<Provider>)
    requires ps != []
    ensures TopTier(ps) == AtPriority(ps, ps[0].priority) != []
  {
    AtPriorityMembers(ps, ps[0].priority, ps[0]);
  }

  // Filters the first n slots in place: reads run ahead of the writes to the same array.
  method CompactTop(buffer: array<Provider>, n: nat) returns (kept: nat)
    requires 0 < n <= buffer.Length
    modifies buffer
    ensures 0 < kept <= n && buffer[..kept] == TopTier(old(buffer[..n]))
  {
    hide *;
    var top := buffer[0].priority;
    ghost var was := buffer[..n];
    ghost var front: seq<Provider> := [];
    AtPriorityStart(was, top);
    kept := 0;
    for i := 0 to n
      invariant kept == |front| <= i && front == AtPriority(was[..i], top)
      invariant forall j :: 0 <= j < kept ==> buffer[j] == front[j]
      invariant forall j :: i <= j < n ==> buffer[j] == was[j]
    {
      AtPriorityStep(was, i, top);
      var candidate := buffer[i];
      if candidate.priority == top {
        buffer[kept] := candidate;
        kept := kept + 1;
        front := front + [candidate];
      }
    }
    assert was[..n] == was;
    assert buffer[..kept] == front;
    TopTierNonEmpty(was);
  }

  lemma AtPriorityStart(ps: seq<Provider>, top: int)
    ensures AtPriority(ps[..0], top) == []
  {
  }

  lemma AtPriorityStep(ps: seq<Provider>, i: nat, top: int)
    requires i < |ps|
    ensures AtPriority(ps[..i + 1], top) == AtPriority(ps[..i], top) + if ps[i].priority == top then [ps[i]] else []
  {
    assert ps[..i + 1][..i] == ps[..i];
  }

  // ---------- The catalogue agrees with selection ----------

  lemma EntryMembers(ps: seq<Provider>, model: string, id: nat)
    ensures id in Entry(BuildIndex(ps).byModel, model) <==> exists p :: p in ps && p.id == id && p.Lists(model)
  {
    ListedModelsPosted(ps, model);
    PostingsMembers(ps, model, id);
    RankOrderTotal(IdTable(ps));
    SortSorts(Postings(ps, model), RankOrder(IdTable(ps)));
  }

  lemma OffersSupported(ps: seq<Provider>, model: string, capability: string)
    requires OwnRows(ps)
    ensures Offers(BuildIndex(ps), model, capability) <==>
            exists p :: p in ps && p.Lists(model) && capability in p.NormalizedCapabilities()
  {
    hide ListedModels, Provider.Defaulted, Provider.ModelList, Provider.NormalizedCapabilities,
      Provider.Supports, RankOrder, TrimSpace;
    var ix := BuildIndex(ps);
    assert ix.byID == IdTable(ps);
    if id :| id in Entry(ix.byModel, model) && id in ix.byID && ix.byID[id].status == STATUS_ENABLED
             && capability in ix.byID[id].NormalizedCapabilities() {
      EntryMembers(ps, model, id);
      var p :| p in ps && p.id == id && p.Lists(model);
      DefaultsKeepService(p);
    }
    if p :| p in ps && p.Lists(model) && capability in p.NormalizedCapabilities() {
      EntryMembers(ps, model, p.id);
      DefaultsKeepService(p);
    }
  }

  // The catalogue names exactly the plain models of enabled providers, and a capability
  // appears with a model exactly when a request for the two finds a provider.
  lemma CatalogueMatchesSelection(ps: seq<Provider>, models: seq<ModelMetadata>, m: string, capability: string)
    requires OwnRows(ps) && Catalogue(BuildIndex(ps), models)
    ensures (exists x :: x in models && x.id == m) <==> m != "*" && exists p :: p in ps && p.Lists(m)
    ensures forall x :: x in models && x.id == m && NormalizeCapability(capability) != "" ==>
              (NormalizeCapability(capability) in x.capabilities <==>
               exists p :: Eligible(ps, p, m, capability, {}))
  {
    hide OwnRows, IdTable, ListedModels, Offers, Postings, Provider.Lists,
      Provider.NormalizedCapabilities, StrictlySorted, TrimSpace;
    var ix := BuildIndex(ps);
    assert m in ix.byModel <==> exists p :: p in ps && p.Lists(m) by {
      ListedModelsPosted(ps, m);
    }
    if p :| p in ps && p.Lists(m) {
      var c := p.NormalizedCapabilities()[0];
      assert c in p.NormalizedCapabilities();
      OffersSupported(ps, m, c);
    }
    var c := NormalizeCapability(capability);
    OffersSupported(ps, m, c);
    forall x | x in models && x.id == m && c != ""
      ensures c in x.capabilities <==> exists p :: Eligible(ps, p, m, capability, {})
    {
      var q :| q in ps && q.Lists(m);
      ListedIsTrimmed(q, m);
      assert RoutingKey(ps, m) == m;
      if p :| p in ps && p.Lists(m) && c in p.NormalizedCapabilities() {
        assert Eligible(ps, p, m, capability, {});
      }
      if p :| Eligible(ps, p, m, capability, {}) {
        assert p.Lists(m) && c in p.NormalizedCapabilities();
      }
    }
  }
}
