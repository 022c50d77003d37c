/** The routing index as a value: what it holds for a provider list and what a selection from it returns. */
module RoutingIndex {
  import opened Text
  import opened Sorting
  import opened Weighted
  import opened Providers

  datatype Index = Index(byID: map<nat, Provider>, byModel: map<string, seq<nat>>)

  datatype Selection =
    | Selected(provider: Provider)
    | ModelRequired
    | NoProvider(model: string)
    | NoRemaining(model: string, capability: string)
    | Panicked

  // Later rows with the same ID win, as in a map that is filled in order.
  function IdTable(ps: seq<Provider>): map<nat, Provider> {
    if ps == [] then map[]
    else
      var p := ps[|ps| - 1];
      IdTable(ps[..|ps| - 1])[p.id := p.Defaulted()]
  }

  // One entry per mention of the model.
  function Listings(models: seq<string>, model: string, id: nat): seq<nat> {
    if models == [] then []
    else Listings(models[..|models| - 1], model, id) + if models[|models| - 1] == model then [id] else []
  }

  function PostingsOf(p: Provider, model: string): seq<nat> {
    if p.Enabled() then Listings(p.ModelList(), model, p.id) else []
  }

  function Postings(ps: seq<Provider>, model: string): seq<nat> {
    if ps == [] then []
    else Postings(ps[..|ps| - 1], model) + PostingsOf(ps[|ps| - 1], model)
  }

  function ListedModels(ps: seq<Provider>): set<string> {
    set p, m | p in ps && p.Enabled() && m in p.ModelList() :: m
  }

  function Priority(byID: map<nat, Provider>, id: nat): int {
    if id in byID then byID[id].priority else 0
  }

  // Higher priority first, then smaller ID.
  predicate Outranks(byID: map<nat, Provider>, a: nat, b: nat) {
    || Priority(byID, a) > Priority(byID, b)
    || (Priority(byID, a) == Priority(byID, b) && a <= b)
  }

  function RankOrder(byID: map<nat, Provider>): (nat, nat) -> bool {
    (a: nat, b: nat) => Outranks(byID, a, b)
  }

  lemma RankOrderTotal(byID: map<nat, Provider>)
    ensures TotalPreorder(RankOrder(byID)) && Antisymmetric(RankOrder(byID))
  {
  }

  function BuildIndex(ps: seq<Provider>): Index {
    var byID := IdTable(ps);
    Index(byID, map m | m in ListedModels(ps) :: Sort(Postings(ps, m), RankOrder(byID)))
  }

  function IdsFor(ix: Index, model: string): seq<nat> {
    if model in ix.byModel && ix.byModel[model] != [] then ix.byModel[model]
    else if "*" in ix.byModel then ix.byModel["*"]
    else []
  }

  predicate Usable(byID: map<nat, Provider>, id: nat, capability: string, excluded: set<nat>) {
    id !in excluded && id in byID && byID[id].status == STATUS_ENABLED && byID[id].Supports(capability)
  }

  function Candidates(byID: map<nat, Provider>, ids: seq<nat>, capability: string, excluded: set<nat>): seq<Provider> {
    if ids == [] then []
    else
      var id := ids[|ids| - 1];
      Candidates(byID, ids[..|ids| - 1], capability, excluded)
      + if Usable(byID, id, capability, excluded) then [byID[id]] else []
  }

  function AtPriority(ps: seq<Provider>, priority: int): seq<Provider> {
    if ps == [] then []
    else
      var p := ps[|ps| - 1];
      AtPriority(ps[..|ps| - 1], priority) + if p.priority == priority then [p] else []
  }

  // The candidates of highest priority, given that they are listed in rank order.
  function TopTier(candidates: seq<Provider>): seq<Provider> {
    if candidates == [] then [] else AtPriority(candidates, candidates[0].priority)
  }

  function Weights(ps: seq<Provider>): seq<Uint64> {
    seq(|ps|, i requires 0 <= i < |ps| => ps[i].weight)
  }

  function CandidatesFor(ix: Index, model: string, capability: string, excluded: set<nat>): seq<Provider> {
    Candidates(ix.byID, IdsFor(ix, TrimSpace(model)), NormalizeCapability(capability), excluded)
  }

  function TierFor(ix: Index, model: string, capability: string, excluded: set<nat>): seq<Provider> {
    TopTier(CandidatesFor(ix, model, capability, excluded))
  }

  // What selecting returns, for the number the random source happens to produce.
  function Select(ix: Index, model: string, capability: string, excluded: set<nat>, draw: nat): Selection {
    var m := TrimSpace(model);
    if m == "" then ModelRequired
    else if IdsFor(ix, m) == [] then NoProvider(m)
    else
      var tier := TierFor(ix, model, capability, excluded);
      if tier == [] then NoRemaining(m, NormalizeCapability(capability))
      else
        match Pick(Weights(tier), draw)
        case Panicked => Selection.Panicked
        case Chosen(i) => Selected(tier[i])
  }

  // ---------- The scan that the index has to agree with ----------

  ghost predicate DistinctIds(ps: seq<Provider>) {
    forall i, j :: 0 <= i < j < |ps| ==> ps[i].id != ps[j].id
  }

  // The index holds its own row for every provider that serves anything, whatever other rows
  // repeat its ID.
  ghost predicate OwnRows(ps: seq<Provider>) {
    forall p :: p in ps && p.Serves() ==> p.id in IdTable(ps) && IdTable(ps)[p.id] == p.Defaulted()
  }

  // Exact listings hide the wildcard, whether or not they can serve the request.
  ghost function RoutingKey(ps: seq<Provider>, model: string): string {
    if exists p :: p in ps && p.Lists(model) then model else "*"
  }

  ghost predicate Eligible(ps: seq<Provider>, p: Provider, model: string, capability: string, excluded: set<nat>) {
    p in ps && p.Lists(RoutingKey(ps, TrimSpace(model))) && p.id !in excluded && p.Supports(capability)
  }

  ghost predicate TopEligible(ps: seq<Provider>, p: Provider, model: string, capability: string, excluded: set<nat>) {
    && Eligible(ps, p, model, capability, excluded)
    && forall q :: Eligible(ps, q, model, capability, excluded) ==> q.priority <= p.priority
  }

  // ---------- The index holds the listings ----------

  lemma {:induction false} IdTableDomain(ps: seq<Provider>, id: nat)
    ensures id in IdTable(ps) <==> exists p :: p in ps && p.id == id
  {
    hide Trim;
    if ps != [] {
      var n := |ps| - 1;
      IdTableDomain(ps[..n], id);
      assert ps == ps[..n] + [ps[n]];
    }
  }

  lemma {:induction false} IdTableLookup(ps: seq<Provider>, p: Provider)
    requires DistinctIds(ps) && p in ps
    ensures p.id in IdTable(ps) && IdTable(ps)[p.id] == p.Defaulted()
  {
    hide Provider.Defaulted;
    var n := |ps| - 1;
    assert ps == ps[..n] + [ps[n]];
    if p != ps[n] {
      assert p in ps[..n];
      IdTableLookup(ps[..n], p);
    }
  }

  lemma DistinctOwn(ps: seq<Provider>)
    requires DistinctIds(ps)
    ensures OwnRows(ps)
  {
    forall p | p in ps && p.Serves()
      ensures p.id in IdTable(ps) && IdTable(ps)[p.id] == p.Defaulted()
    {
      IdTableLookup(ps, p);
    }
  }

  lemma {:induction false} ListingsMembers(models: seq<string>, model: string, id: nat)
    ensures forall x :: x in Listings(models, model, id) ==> x == id
    ensures |Listings(models, model, id)| == multiset(models)[model]
    ensures multiset(Listings(models, model, id))[id] == multiset(models)[model]
  {
    if models != [] {
      var n := |models| - 1;
      ListingsMembers(models[..n], model, id);
      assert models == models[..n] + [models[n]];
      assert multiset(models)[model] == multiset(models[..n])[model] + if models[n] == model then 1 else 0;
    }
  }

  lemma PostingsOfMembers(p: Provider, model: string)
    ensures forall x :: x in PostingsOf(p, model) ==> x == p.id
    ensures PostingsOf(p, model) != [] <==> p.Lists(model)
    ensures p.id in PostingsOf(p, model) <==> p.Lists(model)
    ensures multiset(PostingsOf(p, model))[p.id] == if p.Enabled() then multiset(p.ModelList())[model] else 0
  {
    var models := p.ModelList();
    ListingsMembers(models, model, p.id);
    assert model in models <==> model in multiset(models);
    var l := Listings(models, model, p.id);
    assert p.id in l <==> p.id in multiset(l);
  }

  lemma {:induction false} PostingsMembers(ps: seq<Provider>, model: string, id: nat)
    ensures id in Postings(ps, model) <==> exists p :: p in ps && p.id == id && p.Lists(model)
  {
    hide Provider.ModelList;
    if ps != [] {
      var n := |ps| - 1;
      PostingsMembers(ps[..n], model, id);
      PostingsOfMembers(ps[n], model);
      assert ps == ps[..n] + [ps[n]];
    }
  }

  // A provider is posted once for every time its own list mentions the model.
  lemma {:induction false} PostingsCount(ps: seq<Provider>, model: string, p: Provider)
    requires DistinctIds(ps) && p in ps && p.Enabled()
    ensures multiset(Postings(ps, model))[p.id] == multiset(p.ModelList())[model]
  {
    hide PostingsOf, TrimSpace;
    var n := |ps| - 1;
    assert ps == ps[..n] + [ps[n]];
    PostingsOfMembers(ps[n], model);
    var a, b := Postings(ps[..n], model), PostingsOf(ps[n], model);
    assert Postings(ps, model) == a + b;
    assert multiset(a + b) == multiset(a) + multiset(b);
    var i :| 0 <= i < |ps| && ps[i] == p;
    if i == n {
      PostingsMembers(ps[..n], model, p.id);
      assert p.id !in a;
    } else {
      assert p == ps[..n][i];
      PostingsCount(ps[..n], model, p);
      assert p.id !in b;
    }
  }

  lemma ListedModelsPosted(ps: seq<Provider>, model: string)
    ensures model in ListedModels(ps) <==> exists p :: p in ps && p.Lists(model)
    ensures model in ListedModels(ps) <==> Postings(ps, model) != []
  {
    if Postings(ps, model) != [] {
      PostingsMembers(ps, model, Postings(ps, model)[0]);
    }
    if p :| p in ps && p.Lists(model) {
      PostingsMembers(ps, model, p.id);
    }
  }

  // Looking up a model finds the ranked listings of its routing key.
  lemma IdsForKey(ps: seq<Provider>, model: string)
    ensures IdsFor(BuildIndex(ps), model) == Sort(Postings(ps, RoutingKey(ps, model)), RankOrder(IdTable(ps)))
  {
    ListedModelsPosted(ps, model);
    ListedModelsPosted(ps, "*");
    RankOrderTotal(IdTable(ps));
    SortSorts(Postings(ps, model), RankOrder(IdTable(ps)));
    SortSorts(Postings(ps, "*"), RankOrder(IdTable(ps)));
  }

  // A lookup lists the providers of its routing key by descending priority and then by ID, each
  // once for every time it is posted.
  lemma LookupInOrder(ps: seq<Provider>, model: string)
    ensures var byID, ids := BuildIndex(ps).byID, IdsFor(BuildIndex(ps), model);
            && multiset(ids) == multiset(Postings(ps, RoutingKey(ps, model)))
            && (forall id :: id in ids ==> id in byID)
            && forall i, j :: 0 <= i < j < |ids| ==>
                 || byID[ids[i]].priority > byID[ids[j]].priority
                 || (byID[ids[i]].priority == byID[ids[j]].priority && ids[i] <= ids[j])
  {
    hide Postings, Sort, IdsFor, RoutingKey, BuildIndex, IdTable, Outranks;
    var byID, key := IdTable(ps), RoutingKey(ps, model);
    IndexedRows(ps);
    IdsForKey(ps, model);
    RankOrderTotal(byID);
    SortSorts(Postings(ps, key), RankOrder(byID));
    var ids := IdsFor(BuildIndex(ps), model);
    forall id | id in ids ensures id in byID {
      PostingsMembers(ps, key, id);
      IdTableDomain(ps, id);
    }
    forall i, j | 0 <= i < j < |ids|
      ensures byID[ids[i]].priority > byID[ids[j]].priority
              || (byID[ids[i]].priority == byID[ids[j]].priority && ids[i] <= ids[j])
    {
      RankedPair(byID, ids[i], ids[j]);
    }
  }

  lemma IndexedRows(ps: seq<Provider>)
    ensures BuildIndex(ps).byID == IdTable(ps)
  {
    hide IdTable, Postings, Sort, ListedModels;
  }

  lemma RankedPair(byID: map<nat, Provider>, a: nat, b: nat)
    requires a in byID && b in byID && Outranks(byID, a, b)
    ensures byID[a].priority > byID[b].priority || (byID[a].priority == byID[b].priority && a <= b)
  {
  }

  // ---------- Candidates and tiers ----------

  lemma {:induction false} CandidatesMembers(
      byID: map<nat, Provider>, ids: seq<nat>, cap: string, ex: set<nat>, q: Provider)
    ensures q in Candidates(byID, ids, cap, ex) <==>
            exists id :: id in ids && Usable(byID, id, cap, ex) && byID[id] == q
  {
    if ids != [] {
      var n := |ids| - 1;
      CandidatesMembers(byID, ids[..n], cap, ex, q);
      assert ids == ids[..n] + [ids[n]];
    }
  }

  ghost predicate Descending(ps: seq<Provider>) {
    forall i, j :: 0 <= i < j < |ps| ==> ps[i].priority >= ps[j].priority
  }

  // Candidates inherit the rank order of the IDs.
  lemma {:induction false} CandidatesRanked(byID: map<nat, Provider>, ids: seq<nat>, cap: string, ex: set<nat>)
    requires SortedBy(ids, RankOrder(byID))
    ensures Descending(Candidates(byID, ids, cap, ex))
  {
    hide Provider.Supports;
    if ids != [] {
      var n := |ids| - 1;
      var init := Candidates(byID, ids[..n], cap, ex);
      assert SortedBy(ids[..n], RankOrder(byID));
      CandidatesRanked(byID, ids[..n], cap, ex);
      assert Candidates(byID, ids, cap, ex) ==
             init + if Usable(byID, ids[n], cap, ex) then [byID[ids[n]]] else [];
      forall i | 0 <= i < |init| && ids[n] in byID ensures init[i].priority >= byID[ids[n]].priority {
        CandidatesMembers(byID, ids[..n], cap, ex, init[i]);
        var id :| id in ids[..n] && Usable(byID, id, cap, ex) && byID[id] == init[i];
        var k :| 0 <= k < n && ids[k] == id;
        assert RankOrder(byID)(ids[k], ids[n]);
      }
    }
  }

  lemma {:induction false} AtPriorityMembers(ps: seq<Provider>, priority: int, q: Provider)
    ensures q in AtPriority(ps, priority) <==> q in ps && q.priority == priority
    ensures multiset(AtPriority(ps, priority))[q] == if q.priority == priority then multiset(ps)[q] else 0
  {
    if ps != [] {
      var n := |ps| - 1;
      AtPriorityMembers(ps[..n], priority, q);
      assert ps == ps[..n] + [ps[n]];
    }
  }

  // The tier for a request holds exactly the eligible providers of highest priority.
  lemma TierMembers(ps: seq<Provider>, model: string, capability: string, excluded: set<nat>, q: Provider)
    requires OwnRows(ps)
    ensures q in TierFor(BuildIndex(ps), model, capability, excluded) <==>
            exists p :: TopEligible(ps, p, model, capability, excluded) && q == p.Defaulted()
  {
    hide AtPriority, BuildIndex, Eligible, NormalizeCapability, Provider.Defaulted, RankOrder, SortedBy,
      TrimSpace;
    var ix := BuildIndex(ps);
    var cs := CandidatesFor(ix, model, capability, excluded);
    CandidatesAreEligible(ps, model, capability, excluded);
    RankedIds(ps, model);
    assert Descending(cs) by {
      CandidatesRanked(ix.byID, IdsFor(ix, TrimSpace(model)), NormalizeCapability(capability), excluded);
    }
    if cs != [] {
      AtPriorityMembers(cs, cs[0].priority, q);
      assert cs[0] in cs;
      var top :| Eligible(ps, top, model, capability, excluded) && cs[0] == top.Defaulted();
      forall p | Eligible(ps, p, model, capability, excluded)
        ensures p.Defaulted() in cs && p.priority <= top.priority
      {
        DefaultedKeepsRank(p);
        DefaultedKeepsRank(top);
        assert p.Defaulted() in cs;
      }
      if q in AtPriority(cs, cs[0].priority) {
        var p :| Eligible(ps, p, model, capability, excluded) && q == p.Defaulted();
        DefaultedKeepsRank(p);
        DefaultedKeepsRank(top);
        assert TopEligible(ps, p, model, capability, excluded);
      }
      if p :| TopEligible(ps, p, model, capability, excluded) && q == p.Defaulted() {
        DefaultedKeepsRank(p);
        DefaultedKeepsRank(top);
      }
    }
  }

  lemma DefaultedKeepsRank(p: Provider)
    ensures p.Defaulted().id == p.id && p.Defaulted().priority == p.priority && p.Defaulted().weight == p.weight
  {
  }

  lemma RankedIds(ps: seq<Provider>, model: string)
    ensures SortedBy(IdsFor(BuildIndex(ps), TrimSpace(model)), RankOrder(BuildIndex(ps).byID))
  {
    IdsForKey(ps, TrimSpace(model));
    RankOrderTotal(IdTable(ps));
    SortSorts(Postings(ps, RoutingKey(ps, TrimSpace(model))), RankOrder(IdTable(ps)));
  }

  // An eligible provider is usable through the index, and nothing else is.
  lemma UsableIsEligible(ps: seq<Provider>, model: string, capability: string, excluded: set<nat>, p: Provider)
    requires OwnRows(ps) && p in ps
    ensures p.Lists(RoutingKey(ps, TrimSpace(model))) ==>
            (Usable(IdTable(ps), p.id, NormalizeCapability(capability), excluded) <==>
             Eligible(ps, p, model, capability, excluded))
    ensures p.Lists(RoutingKey(ps, TrimSpace(model))) ==> p.id in IdTable(ps) && IdTable(ps)[p.id] == p.Defaulted()
  {
    DefaultsKeepService(p);
    NormalizeCapabilityIdempotent(capability);
  }

  lemma CandidatesAreEligible(ps: seq<Provider>, model: string, capability: string, excluded: set<nat>)
    requires OwnRows(ps)
    ensures forall q :: q in CandidatesFor(BuildIndex(ps), model, capability, excluded) <==>
                        exists p :: Eligible(ps, p, model, capability, excluded) && q == p.Defaulted()
  {
    hide OwnRows, IdTable, IdsFor, ListedModels, Postings, Provider.Defaulted, Provider.Lists, RankOrder, RoutingKey,
      Sort, SortedBy, TotalPreorder, TrimSpace;
    var ix := BuildIndex(ps);
    var key := RoutingKey(ps, TrimSpace(model));
    var ids := IdsFor(ix, TrimSpace(model));
    var cap := NormalizeCapability(capability);
    IdsForKey(ps, TrimSpace(model));
    RankOrderTotal(IdTable(ps));
    SortSorts(Postings(ps, key), RankOrder(IdTable(ps)));
    forall q ensures q in CandidatesFor(ix, model, capability, excluded) <==>
                     exists p :: Eligible(ps, p, model, capability, excluded) && q == p.Defaulted()
    {
      CandidatesMembers(ix.byID, ids, cap, excluded, q);
      if id :| id in ids && Usable(ix.byID, id, cap, excluded) && ix.byID[id] == q {
        PostingsMembers(ps, key, id);
        var p :| p in ps && p.id == id && p.Lists(key);
        UsableIsEligible(ps, model, capability, excluded, p);
      }
      if p :| Eligible(ps, p, model, capability, excluded) && q == p.Defaulted() {
        EligibleLists(ps, p, model, capability, excluded);
        PostingsMembers(ps, key, p.id);
        UsableIsEligible(ps, model, capability, excluded, p);
      }
    }
  }

  lemma EligibleLists(ps: seq<Provider>, p: Provider, model: string, capability: string, excluded: set<nat>)
    requires Eligible(ps, p, model, capability, excluded)
    ensures p in ps && p.Lists(RoutingKey(ps, TrimSpace(model))) && p.id !in excluded
  {
  }

  // ---------- Selection refines the scan ----------

  lemma WildcardKey(ps: seq<Provider>, model: string)
    ensures (exists p :: p in ps && p.Lists(RoutingKey(ps, model))) <==>
            exists p :: p in ps && (p.Lists(model) || p.Lists("*"))
  {
    if p :| p in ps && p.Lists(RoutingKey(ps, model)) {
      assert p.Lists(model) || p.Lists("*");
    }
  }

  lemma NoIdsMeansUnlisted(ps: seq<Provider>, model: string)
    ensures IdsFor(BuildIndex(ps), model) == [] <==> !exists p :: p in ps && (p.Lists(model) || p.Lists("*"))
  {
    var key := RoutingKey(ps, model);
    IdsForKey(ps, model);
    RankOrderTotal(IdTable(ps));
    SortSorts(Postings(ps, key), RankOrder(IdTable(ps)));
    ListedModelsPosted(ps, key);
    WildcardKey(ps, model);
  }

  // Selecting through the index agrees with a plain scan of the provider list: the same
  // requests fail, with the same error, and a selected provider is one of the eligible
  // providers of highest priority.
  lemma SelectRefinesScan(ps: seq<Provider>, model: string, capability: string, excluded: set<nat>, draw: nat)
    requires OwnRows(ps)
    ensures var r := Select(BuildIndex(ps), model, capability, excluded, draw);
            var m := TrimSpace(model);
            && (r == ModelRequired <==> m == "")
            && (r.NoProvider? <==> m != "" && !exists p :: p in ps && (p.Lists(m) || p.Lists("*")))
            && (r.Selected? || r.Panicked? <==> m != "" && exists p :: Eligible(ps, p, model, capability, excluded))
            && (r.Selected? ==>
                  exists p :: TopEligible(ps, p, model, capability, excluded) && r.provider == p.Defaulted())
  {
    hide BuildIndex, Eligible, Provider.Defaulted, Provider.Lists, TrimSpace, Usable;
    var ix := BuildIndex(ps);
    var m := TrimSpace(model);
    var tier := TierFor(ix, model, capability, excluded);
    NoIdsMeansUnlisted(ps, m);
    CandidatesAreEligible(ps, model, capability, excluded);
    var cs := CandidatesFor(ix, model, capability, excluded);
    assert tier == [] <==> cs == [] by {
      if cs != [] {
        AtPriorityMembers(cs, cs[0].priority, cs[0]);
      }
    }
    assert cs == [] <==> !exists p :: Eligible(ps, p, model, capability, excluded) by {
      if cs != [] {
        assert cs[0] in cs;
      }
      if p :| Eligible(ps, p, model, capability, excluded) {
        assert p.Defaulted() in cs;
      }
    }
    if IdsFor(ix, m) == [] {
      assert cs == [];
    }
    var r := Select(ix, model, capability, excluded, draw);
    if r.Selected? {
      assert |Weights(tier)| == |tier|;
      assert r.provider == tier[Pick(Weights(tier), draw).index];
      assert r.provider in tier;
      TierMembers(ps, model, capability, excluded, r.provider);
    }
  }

  // ---------- Shares of the draws ----------

  lemma WeightsSnoc(ps: seq<Provider>, p: Provider)
    ensures Weights(ps + [p]) == Weights(ps) + [p.weight]
    ensures Sum(Weights(ps + [p])) == Sum(Weights(ps)) + p.weight
  {
    var ws := Weights(ps + [p]);
    assert ws == Weights(ps) + [p.weight];
    assert ws[..|ws| - 1] == Weights(ps);
  }

  lemma WeightsLength(ps: seq<Provider>)
    ensures |Weights(ps)| == |ps|
  {
  }

  lemma {:induction false} CandidatesCount(byID: map<nat, Provider>, ids: seq<nat>, cap: string, ex: set<nat>, id: nat)
    requires Usable(byID, id, cap, ex)
    requires forall x :: x in ids && x in byID ==> byID[x].id == x
    requires byID[id].id == id
    ensures multiset(Candidates(byID, ids, cap, ex))[byID[id]] == multiset(ids)[id]
  {
    hide Provider.Supports;
    if ids != [] {
      var n := |ids| - 1;
      CandidatesCount(byID, ids[..n], cap, ex, id);
      assert ids == ids[..n] + [ids[n]];
      assert ids[n] in ids;
    }
  }

  // A provider stands in its tier once for every time its list mentions the routing key.
  lemma TierCount(ps: seq<Provider>, model: string, capability: string, excluded: set<nat>, p: Provider)
    requires DistinctIds(ps) && TopEligible(ps, p, model, capability, excluded)
    ensures multiset(TierFor(BuildIndex(ps), model, capability, excluded))[p.Defaulted()] ==
            multiset(p.ModelList())[RoutingKey(ps, TrimSpace(model))]
  {
    hide OwnRows, IdTable, Postings, Provider.Defaulted, ListedModels, RankOrder, TrimSpace, NormalizeCapability, IdsFor,
      Candidates, AtPriority, Eligible;
    DistinctOwn(ps);
    var ix := BuildIndex(ps);
    var key := RoutingKey(ps, TrimSpace(model));
    var ids := IdsFor(ix, TrimSpace(model));
    var cap := NormalizeCapability(capability);
    var cs := CandidatesFor(ix, model, capability, excluded);
    var pd := p.Defaulted();
    EligibleLists(ps, p, model, capability, excluded);
    UsableIsEligible(ps, model, capability, excluded, p);
    IdTableLookup(ps, p);
    DefaultedKeepsRank(p);
    IdsForKey(ps, TrimSpace(model));
    RankOrderTotal(IdTable(ps));
    SortSorts(Postings(ps, key), RankOrder(IdTable(ps)));
    PostingsCount(ps, key, p);
    forall x | x in ids && x in ix.byID ensures ix.byID[x].id == x {
      IdTableDomain(ps, x);
      var q :| q in ps && q.id == x;
      IdTableLookup(ps, q);
      DefaultedKeepsRank(q);
    }
    CandidatesCount(ix.byID, ids, cap, excluded, p.id);
    TierMembers(ps, model, capability, excluded, pd);
    assert pd in TierFor(ix, model, capability, excluded);
    AtPriorityMembers(cs, cs[0].priority, pd);
  }

  lemma Distribute(w: nat, c: nat)
    ensures w * (c + 1) == w * c + w
  {
  }

  lemma {:induction false} HitWeightOf(tier: seq<Provider>, p: Provider, hit: nat -> bool)
    requires forall i :: 0 <= i < |tier| ==> (hit(i) <==> tier[i] == p)
    ensures HitWeight(Weights(tier), hit) == p.weight * multiset(tier)[p]
  {
    WeightsLength(tier);
    if tier != [] {
      var n := |tier| - 1;
      HitWeightOf(tier[..n], p, hit);
      assert tier == tier[..n] + [tier[n]];
      WeightsSnoc(tier[..n], tier[n]);
      WeightsLength(tier[..n]);
      assert Weights(tier)[..n] == Weights(tier[..n]);
      var c := multiset(tier[..n])[p];
      var h := HitWeight(Weights(tier[..n]), hit);
      assert h == p.weight * c;
      if tier[n] == p {
        assert multiset(tier)[p] == c + 1;
        assert HitWeight(Weights(tier), hit) == h + p.weight;
        Distribute(p.weight, c);
      } else {
        assert multiset(tier)[p] == c;
        assert HitWeight(Weights(tier), hit) == h;
      }
    }
  }

  ghost function SelectsFrom(
      ps: seq<Provider>, model: string, capability: string, excluded: set<nat>, p: Provider): nat -> bool {
    (d: nat) => Select(BuildIndex(ps), model, capability, excluded, d) == Selected(p.Defaulted())
  }

  // Out of as many draws as the top tier weighs, a provider of that tier is selected by its
  // own weight, counted once for every time its list mentions the routing key.
  lemma SelectionShare(ps: seq<Provider>, model: string, capability: string, excluded: set<nat>, p: Provider)
    requires DistinctIds(ps) && TrimSpace(model) != ""
    requires TopEligible(ps, p, model, capability, excluded)
    requires Sum(Weights(TierFor(BuildIndex(ps), model, capability, excluded))) < TWO_63
    ensures CountBelow(Sum(Weights(TierFor(BuildIndex(ps), model, capability, excluded))),
                       SelectsFrom(ps, model, capability, excluded, p)) ==
            p.weight * multiset(p.ModelList())[RoutingKey(ps, TrimSpace(model))]
  {
    var ix := BuildIndex(ps);
    var tier := TierFor(ix, model, capability, excluded);
    var ws := Weights(tier);
    var pd := p.Defaulted();
    var hit := (i: nat) => i < |tier| && tier[i] == pd;
    TierCount(ps, model, capability, excluded, p);
    DistinctOwn(ps);
    TierMembers(ps, model, capability, excluded, pd);
    assert pd in tier;
    assert IdsFor(ix, TrimSpace(model)) != [];
    forall d: nat | d < Sum(ws)
      ensures Pick(ws, d).Chosen? && SelectsFrom(ps, model, capability, excluded, p)(d) == hit(Pick(ws, d).index)
    {
      PickTotal(ws, d);
    }
    Share(ws, hit, SelectsFrom(ps, model, capability, excluded, p));
    HitWeightOf(tier, pd, hit);
    DefaultedKeepsRank(p);
  }

  lemma {:induction false} PlacesOf(tier: seq<Provider>, n: nat, p: Provider, hit: nat -> bool)
    requires n <= |tier| && forall i :: 0 <= i < n ==> (hit(i) <==> tier[i] == p)
    ensures CountBelow(n, hit) == multiset(tier[..n])[p]
  {
    if n > 0 {
      PlacesOf(tier, n - 1, p, hit);
      assert tier[..n] == tier[..n - 1] + [tier[n - 1]];
    } else {
      assert tier[..0] == [];
    }
  }

  // When the stored total of the top tier is zero, as it is for default weights, each place of
  // the tier has one draw, so a provider has as many as its list mentions the routing key.
  lemma EvenShare(ps: seq<Provider>, model: string, capability: string, excluded: set<nat>, p: Provider)
    requires DistinctIds(ps) && TrimSpace(model) != ""
    requires TopEligible(ps, p, model, capability, excluded)
    requires Sum(Weights(TierFor(BuildIndex(ps), model, capability, excluded))) % TWO_64 == 0
    ensures CountBelow(|TierFor(BuildIndex(ps), model, capability, excluded)|,
                       SelectsFrom(ps, model, capability, excluded, p)) ==
            multiset(p.ModelList())[RoutingKey(ps, TrimSpace(model))]
  {
    hide BuildIndex, CandidatesFor, TopEligible, Provider.Defaulted, Provider.ModelList, TrimSpace, RoutingKey;
    var ix := BuildIndex(ps);
    var tier := TierFor(ix, model, capability, excluded);
    var pd := p.Defaulted();
    var selects := SelectsFrom(ps, model, capability, excluded, p);
    TierCount(ps, model, capability, excluded, p);
    WeightsLength(tier);
    forall d: nat | d < |tier|
      ensures selects(d) <==> tier[d] == pd
    {
      PickEvenly(Weights(tier), d);
      TierIsFound(ix, model, capability, excluded);
    }
    PlacesOf(tier, |tier|, pd, selects);
    assert tier[..|tier|] == tier;
  }

  // A tier that is not empty comes from IDs that were found.
  lemma TierIsFound(ix: Index, model: string, capability: string, excluded: set<nat>)
    requires TierFor(ix, model, capability, excluded) != []
    ensures IdsFor(ix, TrimSpace(model)) != []
  {
    hide TrimSpace, IdsFor, NormalizeCapability;
  }

  // ---------- What is selected was listed ----------

  lemma {:induction false} IdTableEntry(ps: seq<Provider>, id: nat)
    requires id in IdTable(ps)
    ensures exists p :: p in ps && p.id == id && IdTable(ps)[id] == p.Defaulted()
  {
    hide Provider.Defaulted;
    var n := |ps| - 1;
    if ps != [] {
      assert ps[n] in ps;
      if id != ps[n].id {
        IdTableEntry(ps[..n], id);
        var p :| p in ps[..n] && p.id == id && IdTable(ps[..n])[id] == p.Defaulted();
        assert p in ps;
      }
    }
  }

  lemma SelectedIsUsable(ix: Index, model: string, capability: string, excluded: set<nat>, draw: nat)
    ensures var r := Select(ix, model, capability, excluded, draw);
            r.Selected? ==>
              exists id :: id in IdsFor(ix, TrimSpace(model)) && Usable(ix.byID, id, NormalizeCapability(capability), excluded)
                           && ix.byID[id] == r.provider
  {
    hide Usable, Provider.Lists, Sort, TrimSpace, IdsFor, NormalizeCapability, Pick;
    var r := Select(ix, model, capability, excluded, draw);
    if r.Selected? {
      var cap := NormalizeCapability(capability);
      var cs := CandidatesFor(ix, model, capability, excluded);
      var tier := TierFor(ix, model, capability, excluded);
      WeightsLength(tier);
      assert r.provider in tier;
      AtPriorityMembers(cs, cs[0].priority, r.provider);
      CandidatesMembers(ix.byID, IdsFor(ix, TrimSpace(model)), cap, excluded, r.provider);
    }
  }

  // A request gets as far as the sampler exactly when one of its IDs is usable.
  lemma AnsweredWhenUsable(ix: Index, model: string, capability: string, excluded: set<nat>, draw: nat)
    ensures var r := Select(ix, model, capability, excluded, draw);
            r.Selected? || r.Panicked? <==>
              TrimSpace(model) != ""
              && exists id :: id in IdsFor(ix, TrimSpace(model)) && Usable(ix.byID, id, NormalizeCapability(capability), excluded)
  {
    hide Usable, Provider.Lists, Sort, TrimSpace, IdsFor, NormalizeCapability, Pick;
    var cap := NormalizeCapability(capability);
    var ids := IdsFor(ix, TrimSpace(model));
    var cs := CandidatesFor(ix, model, capability, excluded);
    assert TierFor(ix, model, capability, excluded) == [] <==> cs == [] by {
      if cs != [] {
        AtPriorityMembers(cs, cs[0].priority, cs[0]);
      }
    }
    if cs != [] {
      CandidatesMembers(ix.byID, ids, cap, excluded, cs[0]);
    }
    if id :| id in ids && Usable(ix.byID, id, cap, excluded) {
      UsableIsThere(ix.byID, id, cap, excluded);
      CandidatesMembers(ix.byID, ids, cap, excluded, ix.byID[id]);
    }
  }

  lemma UsableIsThere(byID: map<nat, Provider>, id: nat, capability: string, excluded: set<nat>)
    requires Usable(byID, id, capability, excluded)
    ensures id in byID && id !in excluded && byID[id].status == STATUS_ENABLED && byID[id].Supports(capability)
  {
  }

  // Whatever IDs the list repeats, a selection returns an enabled, not excluded provider of the list.
  lemma SelectedIsListed(ps: seq<Provider>, model: string, capability: string, excluded: set<nat>, draw: nat)
    ensures var r := Select(BuildIndex(ps), model, capability, excluded, draw);
            r.Selected? ==> exists p :: p in ps && p.Enabled() && p.id !in excluded && r.provider == p.Defaulted()
  {
    hide Select, Provider.Defaulted, Postings, IdTable, Provider.Supports;
    var ix := BuildIndex(ps);
    var r := Select(ix, model, capability, excluded, draw);
    if r.Selected? {
      SelectedIsUsable(ix, model, capability, excluded, draw);
      var cap := NormalizeCapability(capability);
      var id :| id in IdsFor(ix, TrimSpace(model)) && Usable(ix.byID, id, cap, excluded) && ix.byID[id] == r.provider;
      IdTableEntry(ps, id);
      var p :| p in ps && p.id == id && IdTable(ps)[id] == p.Defaulted();
      DefaultsKeepService(p);
    }
  }

  // ---------- When a selection panics ----------

  // The candidates of highest priority weigh more than the sampler can add up.
  predicate PanickyFor(ix: Index, model: string, capability: string, excluded: set<nat>) {
    TrimSpace(model) != "" && Panicky(Weights(TierFor(ix, model, capability, excluded)))
  }

  lemma SelectPanicsExactly(ix: Index, model: string, capability: string, excluded: set<nat>, draw: nat)
    ensures Select(ix, model, capability, excluded, draw).Panicked? <==> PanickyFor(ix, model, capability, excluded)
  {
    var tier := TierFor(ix, model, capability, excluded);
    WeightsLength(tier);
    PickPanicsExactly(Weights(tier), draw);
  }

  function PostedWeight(byID: map<nat, Provider>, ids: seq<nat>): nat {
    if ids == [] then 0
    else
      var id := ids[|ids| - 1];
      PostedWeight(byID, ids[..|ids| - 1]) + if id in byID then byID[id].weight else 0
  }

  // No model's listings weigh more than an int64 can hold.
  ghost predicate WeightsFit(ix: Index) {
    forall m :: m in ix.byModel ==> PostedWeight(ix.byID, ix.byModel[m]) < TWO_63
  }

  lemma {:induction false} CandidatesWeigh(byID: map<nat, Provider>, ids: seq<nat>, cap: string, ex: set<nat>)
    ensures Sum(Weights(Candidates(byID, ids, cap, ex))) <= PostedWeight(byID, ids)
  {
    if ids != [] {
      var n := |ids| - 1;
      CandidatesWeigh(byID, ids[..n], cap, ex);
      if Usable(byID, ids[n], cap, ex) {
        WeightsSnoc(Candidates(byID, ids[..n], cap, ex), byID[ids[n]]);
      } else {
        assert Candidates(byID, ids, cap, ex) == Candidates(byID, ids[..n], cap, ex);
      }
    }
  }

  lemma {:induction false} AtPriorityWeighs(ps: seq<Provider>, priority: int)
    ensures Sum(Weights(AtPriority(ps, priority))) <= Sum(Weights(ps))
  {
    if ps != [] {
      var n := |ps| - 1;
      AtPriorityWeighs(ps[..n], priority);
      assert ps == ps[..n] + [ps[n]];
      WeightsSnoc(ps[..n], ps[n]);
      if ps[n].priority == priority {
        WeightsSnoc(AtPriority(ps[..n], priority), ps[n]);
      } else {
        assert AtPriority(ps, priority) == AtPriority(ps[..n], priority);
      }
    }
  }

  lemma FittingIds(ix: Index, model: string)
    requires WeightsFit(ix)
    ensures PostedWeight(ix.byID, IdsFor(ix, model)) < TWO_63
  {
  }

  // A check of the posting lists, independent of any request, is enough to rule panics out.
  lemma NeverPanics(ix: Index, model: string, capability: string, excluded: set<nat>)
    requires WeightsFit(ix)
    ensures !PanickyFor(ix, model, capability, excluded)
  {
    hide AtPriority, Candidates, IdsFor, NormalizeCapability, PostedWeight, Sum, TrimSpace, Weights, WeightsFit;
    FittingIds(ix, TrimSpace(model));
    var ids := IdsFor(ix, TrimSpace(model));
    var cs := CandidatesFor(ix, model, capability, excluded);
    CandidatesWeigh(ix.byID, ids, NormalizeCapability(capability), excluded);
    if cs != [] {
      AtPriorityWeighs(cs, cs[0].priority);
    }
    SmallMod(Sum(Weights(TierFor(ix, model, capability, excluded))), TWO_64);
  }
}
