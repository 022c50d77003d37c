/**
  The life of an API key and the key cache of one instance as a state machine. Writers create,
  disable and revoke keys; each transaction raises the key version by one. The instance loads
  its cache at startup and afterwards from one poller, so its reloads never overlap, but writers
  commit between any two of their reads.
 */
module KeySync {
  import opened Wrappers
  import opened ApiKeys

  // The key rows by primary key.
  type Table = map<nat, APIKey>

  datatype Loader =
    | Idle
    | Polled(seen: int)
    | Starting
    | GotVersion(tag: int)
    | GotKeys(tag: int, keys: set<APIKey>, at: nat)

  // history holds every committed table, the current one last; at is the position of the table
  // whose active keys are cached.
  datatype State = State(
    history: seq<Table>,
    base: int,
    loader: Loader,
    tag: int,
    cached: set<APIKey>,
    at: nat)

  datatype Step =
    | Create(key: APIKey)
    | SetStatus(account: string, id: nat, status: KeyStatus)
    | Tick
    | Compare
    | ReadVersion
    | ReadKeys
    | Install
    | Fail

  function Db(s: State): Table
    requires s.history != []
  {
    s.history[|s.history| - 1]
  }

  function Version(s: State): int {
    s.base + |s.history| - 1
  }

  function ActiveKeys(t: Table): set<APIKey> {
    set id | id in t && t[id].status == Active :: t[id]
  }

  function AllKeys(t: Table): set<APIKey> {
    set id | id in t :: t[id]
  }

  // A created key has a secret no other key has: its 32 random bytes are taken as unique.
  ghost predicate Enabled(s: State, step: Step) {
    && s.history != []
    && match step
       case Create(key) =>
         && key.id !in Db(s) && key.status == Active && Issued(key)
         && forall id :: id in Db(s) ==> Db(s)[id].hash != key.hash
       case SetStatus(account, id, status) => id in Db(s) && Db(s)[id].account == account && status != Active
       case Tick => s.loader.Idle?
       case Compare => s.loader.Polled?
       case ReadVersion => s.loader.Starting?
       case ReadKeys => s.loader.GotVersion?
       case Install => s.loader.GotKeys?
       case Fail => true
  }

  function Commit(s: State, t: Table): State {
    s.(history := s.history + [t])
  }

  function After(s: State, step: Step): State
    requires Enabled(s, step)
  {
    match step
    case Create(key) => Commit(s, Db(s)[key.id := key])
    case SetStatus(_, id, status) => Commit(s, Db(s)[id := Db(s)[id].(status := status)])
    case Tick => s.(loader := Polled(Version(s)))
    case Compare => s.(loader := if s.tag == s.loader.seen then Idle else Starting)
    case ReadVersion => s.(loader := GotVersion(Version(s)))
    case ReadKeys => s.(loader := GotKeys(s.loader.tag, ActiveKeys(Db(s)), |s.history| - 1))
    case Install => s.(loader := Idle, tag := s.loader.tag, cached := s.loader.keys, at := s.loader.at)
    case Fail => s.(loader := Idle)
  }

  predicate Writes(step: Step) {
    step.Create? || step.SetStatus?
  }

  ghost predicate Init(s: State) {
    && |s.history| == 1 && s.base >= 1 && KeysSound(s.history[0])
    && s.loader == Starting && s.tag == 0 && s.cached == {} && s.at == 0
  }

  // A run visits states[0], ..., states[|steps|].
  ghost predicate Run(states: seq<State>, steps: seq<Step>) {
    && |states| == |steps| + 1
    && forall i :: 0 <= i < |steps| ==> Enabled(states[i], steps[i]) && states[i + 1] == After(states[i], steps[i])
  }

  // ---------- The invariant ----------

  ghost predicate KeysSound(t: Table) {
    && (forall id :: id in t ==> t[id].id == id && Issued(t[id]))
    && (forall a, b :: a in t && b in t && t[a].hash == t[b].hash ==> a == b)
  }

  // Later tables keep every key and its secret, and never make an inactive key active.
  ghost predicate NoWayBack(earlier: Table, later: Table) {
    forall id :: id in earlier ==>
      && id in later && later[id].hash == earlier[id].hash
      && (later[id].status == Active ==> earlier[id].status == Active)
  }

  ghost predicate Lawful(history: seq<Table>) {
    && history != []
    && (forall i :: 0 <= i < |history| ==> KeysSound(history[i]))
    && (forall i, j :: 0 <= i <= j < |history| ==> NoWayBack(history[i], history[j]))
  }

  ghost predicate CacheOk(s: State)
    requires s.history != []
  {
    && s.at < |s.history|
    && (s.tag == 0 ==> s.cached == {} && s.at == 0)
    && (s.tag != 0 ==> s.base <= s.tag <= s.base + s.at && s.cached == ActiveKeys(s.history[s.at]))
  }

  // What a reload holds is at least as recent as what the cache holds.
  ghost predicate LoaderOk(s: State)
    requires s.history != []
  {
    match s.loader
    case GotVersion(tag) => s.tag <= tag && s.base <= tag <= Version(s)
    case GotKeys(tag, keys, at) =>
      && s.tag <= tag && s.base <= tag <= s.base + at
      && s.at <= at < |s.history| && keys == ActiveKeys(s.history[at])
    case _ => true
  }

  ghost predicate Inv(s: State) {
    s.base >= 1 && Lawful(s.history) && CacheOk(s) && LoaderOk(s)
  }

  // What never runs backwards.
  ghost predicate Follows(a: State, b: State) {
    a.history <= b.history && a.base == b.base && a.tag <= b.tag && a.at <= b.at
  }

  lemma CommitKeepsLawful(history: seq<Table>, t: Table)
    requires Lawful(history) && KeysSound(t)
    requires NoWayBack(history[|history| - 1], t)
    ensures Lawful(history + [t])
  {
    forall i, j | 0 <= i <= j <= |history|
      ensures NoWayBack((history + [t])[i], (history + [t])[j])
    {
      if i < j == |history| {
        assert NoWayBack(history[i], history[|history| - 1]);
      }
    }
  }

  lemma CreateSound(t: Table, key: APIKey)
    requires KeysSound(t) && key.id !in t && Issued(key)
    requires forall id :: id in t ==> t[id].hash != key.hash
    ensures KeysSound(t[key.id := key]) && NoWayBack(t, t[key.id := key])
  {
  }

  lemma IssuedStays(key: APIKey, status: KeyStatus)
    requires Issued(key)
    ensures Issued(key.(status := status))
  {
    var raw, secret :| key.hash == HashAPIKey(raw, secret) && key.prefix == ApiKeyPrefix(raw);
  }

  lemma SetStatusSound(t: Table, id: nat, status: KeyStatus)
    requires KeysSound(t) && id in t && status != Active
    ensures KeysSound(t[id := t[id].(status := status)]) && NoWayBack(t, t[id := t[id].(status := status)])
  {
    hide Issued;
    IssuedStays(t[id], status);
  }

  lemma StepKeepsInv(s: State, step: Step)
    requires Inv(s) && Enabled(s, step)
    ensures Inv(After(s, step)) && Follows(s, After(s, step))
  {
    hide KeysSound, NoWayBack, Lawful, ActiveKeys, Issued;
    assert Lawful(s.history) && KeysSound(Db(s)) by { LawfulNow(s); }
    match step
    case Create(key) =>
      CreateSound(Db(s), key);
      CommitKeepsLawful(s.history, After(s, step).history[|s.history|]);
    case SetStatus(_, id, status) =>
      SetStatusSound(Db(s), id, status);
      CommitKeepsLawful(s.history, After(s, step).history[|s.history|]);
    case _ =>
  }

  lemma LawfulNow(s: State)
    requires Lawful(s.history)
    ensures KeysSound(Db(s))
  {
  }

  lemma InitInv(s: State)
    requires Init(s)
    ensures Inv(s)
  {
    hide KeysSound, ActiveKeys;
  }

  // Along a run every state keeps the invariant, and nothing runs backwards between two of them.
  lemma {:induction false} RunKeepsInv(states: seq<State>, steps: seq<Step>, i: nat, j: nat)
    requires Run(states, steps) && Init(states[0]) && i <= j < |states|
    ensures Inv(states[i]) && Inv(states[j]) && Follows(states[i], states[j])
  {
    hide Inv, Init, Enabled, After;
    if j == 0 {
      InitInv(states[0]);
    } else if i < j {
      RunKeepsInv(states, steps, i, j - 1);
      StepKeepsInv(states[j - 1], steps[j - 1]);
    } else {
      RunKeepsInv(states, steps, j - 1, j - 1);
      StepKeepsInv(states[j - 1], steps[j - 1]);
    }
  }

  // ---------- Safety over runs ----------

  // A key that stopped being active stays in the table, keeps its secret, and never becomes
  // active again, whatever is disabled or revoked afterwards.
  lemma NoReactivation(states: seq<State>, steps: seq<Step>, i: nat, j: nat, id: nat)
    requires Run(states, steps) && Init(states[0]) && i <= j < |states|
    requires states[i].history != [] && id in Db(states[i]) && Db(states[i])[id].status != Active
    ensures states[j].history != [] && id in Db(states[j])
    ensures Db(states[j])[id].hash == Db(states[i])[id].hash && Db(states[j])[id].status != Active
  {
    RunKeepsInv(states, steps, i, j);
    assert NoWayBack(states[j].history[|states[i].history| - 1], Db(states[j]));
  }

  predicate Sets(step: Step, id: nat) {
    step.SetStatus? && step.id == id
  }

  // Step k is the last one before j that sets the status of the key.
  ghost predicate LastSet(steps: seq<Step>, i: nat, j: nat, id: nat, k: int)
    requires j <= |steps|
  {
    i <= k < j && Sets(steps[k], id) && forall m :: k < m < j ==> !Sets(steps[m], id)
  }

  lemma StepSets(s: State, step: Step, id: nat)
    requires Enabled(s, step) && id in Db(s)
    ensures After(s, step).history != [] && id in Db(After(s, step))
    ensures Db(After(s, step))[id].status == if Sets(step, id) then step.status else Db(s)[id].status
  {
    hide Issued;
  }

  lemma LastSetMoves(steps: seq<Step>, i: nat, j: nat, id: nat)
    requires i < j <= |steps|
    ensures Sets(steps[j - 1], id) ==> forall k :: LastSet(steps, i, j, id, k) <==> k == j - 1
    ensures !Sets(steps[j - 1], id) ==> forall k :: LastSet(steps, i, j, id, k) <==> LastSet(steps, i, j - 1, id, k)
  {
    hide Sets;
  }

  lemma NothingSet(steps: seq<Step>, i: nat, id: nat)
    requires i <= |steps|
    ensures forall k :: !LastSet(steps, i, i, id, k)
  {
  }

  // The status of a key is the one set last, or the one it had.
  lemma {:induction false} StatusIsLastSet(states: seq<State>, steps: seq<Step>, i: nat, j: nat, id: nat)
    requires Run(states, steps) && i <= j < |states|
    requires states[i].history != [] && id in Db(states[i])
    ensures states[j].history != [] && id in Db(states[j])
    ensures (forall k :: i <= k < j ==> !Sets(steps[k], id)) ==> Db(states[j])[id].status == Db(states[i])[id].status
    ensures forall k :: LastSet(steps, i, j, id, k) ==> Db(states[j])[id].status == steps[k].status
    ensures (exists k :: LastSet(steps, i, j, id, k)) || forall k :: i <= k < j ==> !Sets(steps[k], id)
  {
    hide Enabled, After, LastSet, Sets;
    if i < j {
      StatusIsLastSet(states, steps, i, j - 1, id);
      StepSets(states[j - 1], steps[j - 1], id);
      LastSetMoves(steps, i, j, id);
      var m := j - 1;
      if Sets(steps[m], id) {
        assert LastSet(steps, i, j, id, m);
      } else if k :| LastSet(steps, i, m, id, k) {
        assert LastSet(steps, i, j, id, k);
      }
    } else {
      NothingSet(steps, i, id);
    }
  }

  // "Revoked" is not final: a key stays revoked exactly when whatever is set last revokes it.
  lemma RevokedStaysExactly(states: seq<State>, steps: seq<Step>, i: nat, j: nat, id: nat)
    requires Run(states, steps) && i <= j < |states|
    requires states[i].history != [] && id in Db(states[i]) && Db(states[i])[id].status == Revoked
    ensures states[j].history != [] && id in Db(states[j])
    ensures Db(states[j])[id].status == Revoked <==> forall k :: LastSet(steps, i, j, id, k) ==> steps[k].status == Revoked
  {
    hide Run;
    StatusIsLastSet(states, steps, i, j, id);
  }

  // Disabling a revoked key hides that it was revoked.
  lemma RevokedThenDisabled(s: State, id: nat)
    requires s.history != [] && id in Db(s)
    ensures var account := Db(s)[id].account;
            var revoke, disable := SetStatus(account, id, Revoked), SetStatus(account, id, Disabled);
            && Enabled(s, revoke) && Enabled(After(s, revoke), disable)
            && Db(After(s, revoke))[id].status == Revoked
            && Db(After(After(s, revoke), disable))[id].status == Disabled
  {
  }

  lemma LabelNeverDrops(states: seq<State>, steps: seq<Step>, i: nat, j: nat)
    requires Run(states, steps) && Init(states[0]) && i <= j < |states|
    ensures states[i].tag <= states[j].tag
  {
    RunKeepsInv(states, steps, i, j);
  }

  // What validation against the cache answers, whichever order its query returned the rows in.
  ghost predicate CacheIndex(byPrefix: map<string, seq<APIKey>>, s: State) {
    exists rows :: Indexes(byPrefix, rows) && Elements(rows) == s.cached
  }

  // No secret of a key that was inactive in a table at or before the cached one gets in.
  lemma CachedRefuses(s: State, r: nat, id: nat, byPrefix: map<string, seq<APIKey>>, raw: string, secret: string)
    requires Inv(s) && s.tag != 0 && r <= s.at
    requires id in s.history[r] && s.history[r][id].status != Active
    requires s.history[r][id].hash == HashAPIKey(raw, secret)
    requires CacheIndex(byPrefix, s)
    ensures Lookup(byPrefix, raw, secret).Failure?
  {
    var rows :| Indexes(byPrefix, rows) && Elements(rows) == s.cached;
    assert KeysSound(s.history[s.at]);
    LookupIsFullScan(byPrefix, rows, raw, secret);
    assert NoWayBack(s.history[r], s.history[s.at]);
    forall key | key in s.cached
      ensures !Opens(key, raw, secret)
    {
      assert s.history[s.at][key.id] == key;
    }
  }

  // Once a snapshot whose key query ran at or after a revocation is in the cache, the revoked
  // secret is refused there and in every later state.
  lemma RevocationSticks(
      states: seq<State>, steps: seq<Step>, i: nat, j: nat, r: nat, id: nat,
      byPrefix: map<string, seq<APIKey>>, raw: string, secret: string)
    requires Run(states, steps) && Init(states[0]) && i <= j < |states|
    requires states[i].tag != 0 && r <= states[i].at < |states[i].history|
    requires id in states[i].history[r] && states[i].history[r][id].status != Active
    requires states[i].history[r][id].hash == HashAPIKey(raw, secret)
    requires CacheIndex(byPrefix, states[j])
    ensures Lookup(byPrefix, raw, secret).Failure?
  {
    RunKeepsInv(states, steps, i, j);
    PositiveLabel(states[i], states[j]);
    assert states[j].history[r] == states[i].history[r];
    CachedRefuses(states[j], r, id, byPrefix, raw, secret);
  }

  lemma PositiveLabel(a: State, b: State)
    requires Inv(a) && Follows(a, b) && a.tag != 0
    ensures b.tag != 0
  {
  }

  // A failed load is over: the cache keeps what it had, and the next poll can start.
  lemma FailureEndsLoad(s: State)
    requires s.history != []
    ensures var t := After(s, Fail);
            t.cached == s.cached && t.tag == s.tag && t.at == s.at && t.history == s.history && Enabled(t, Tick)
  {
  }

  // The readiness probe: the version is read first, the label of the cache later.
  predicate KeysReady(tag: int, probed: int) {
    tag != 0 && tag >= probed
  }

  // The key cache is not ready before its first install, nor while its label is below the probed
  // version, and it is ready whenever its label has reached that version.
  lemma KeysReadyExactly(states: seq<State>, steps: seq<Step>, i: nat, j: nat)
    requires Run(states, steps) && Init(states[0]) && i <= j < |states|
    ensures (forall k :: 0 <= k < j ==> !steps[k].Install?) ==> forall probed :: !KeysReady(states[j].tag, probed)
    ensures KeysReady(states[j].tag, Version(states[i])) <==> states[j].tag >= Version(states[i])
  {
    hide KeysSound, NoWayBack;
    RunKeepsInv(states, steps, i, j);
    if forall k :: 0 <= k < j ==> !steps[k].Install? {
      KeysUnloaded(states, steps, j);
    }
  }

  lemma {:induction false} KeysUnloaded(states: seq<State>, steps: seq<Step>, j: nat)
    requires Run(states, steps) && Init(states[0]) && j < |states|
    requires forall k :: 0 <= k < j ==> !steps[k].Install?
    ensures states[j].tag == 0
  {
    if j > 0 {
      KeysUnloaded(states, steps, j - 1);
    }
  }

  // When a probe that read the version in state i finds the cache ready in state j, every key
  // inactive in the database of state i is refused by the cache from then on.
  lemma ReadySeesRevocations(
      states: seq<State>, steps: seq<Step>, i: nat, j: nat, k: nat, id: nat,
      byPrefix: map<string, seq<APIKey>>, raw: string, secret: string)
    requires Run(states, steps) && Init(states[0]) && i <= j <= k < |states|
    requires KeysReady(states[j].tag, Version(states[i]))
    requires states[i].history != [] && id in Db(states[i]) && Db(states[i])[id].status != Active
    requires Db(states[i])[id].hash == HashAPIKey(raw, secret)
    requires CacheIndex(byPrefix, states[k])
    ensures Lookup(byPrefix, raw, secret).Failure?
  {
    RunKeepsInv(states, steps, i, j);
    RunKeepsInv(states, steps, j, k);
    assert |states[i].history| - 1 <= states[j].at;
    RevocationSticks(states, steps, j, k, |states[i].history| - 1, id, byPrefix, raw, secret);
  }

  // ---------- Agreement with the database ----------

  lemma LabelIsCurrent(states: seq<State>, steps: seq<Step>, i: nat)
    requires Run(states, steps) && Init(states[0]) && i < |states|
    requires states[i].tag == Version(states[i])
    ensures states[i].history != [] && states[i].cached == ActiveKeys(Db(states[i]))
  {
    hide Run, Init, Lawful, ActiveKeys;
    RunKeepsInv(states, steps, i, i);
  }

  lemma ActiveSuffices(t: Table, r: Answer, raw: string, secret: string)
    ensures Answers(r, raw, secret, ActiveKeys(t)) <==> Answers(r, raw, secret, AllKeys(t))
  {
    forall key | Opens(key, raw, secret)
      ensures key in ActiveKeys(t) <==> key in AllKeys(t)
    {
    }
  }

  lemma TableSecrets(t: Table)
    requires KeysSound(t)
    ensures AllIssued(AllKeys(t)) && DistinctSecrets(AllKeys(t))
    ensures AllIssued(ActiveKeys(t)) && DistinctSecrets(ActiveKeys(t))
  {
  }

  lemma AuthenticatedAlike(
      r: Result<Option<AuthIdentity>, AuthError>, cfg: AuthConfig, raw: string, t: Table)
    requires Authenticated(r, cfg, raw, ActiveKeys(t))
    ensures Authenticated(r, cfg, raw, AllKeys(t))
  {
    if r.Success? && r.value.Some? {
      ActiveSuffices(t, Success(r.value.value), raw, cfg.hashSecret);
    } else if r.Failure? {
      ActiveSuffices(t, Failure(r.error), raw, cfg.hashSecret);
    }
  }

  // While the label equals the version of the database, a request is told the same by the cache
  // as by the database, for every presented text.
  lemma PathsAgree(
      states: seq<State>, steps: seq<Step>, i: nat, cfg: AuthConfig, raw: string,
      fromCache: Result<Option<AuthIdentity>, AuthError>, fromDb: Result<Option<AuthIdentity>, AuthError>)
    requires Run(states, steps) && Init(states[0]) && i < |states|
    requires states[i].tag == Version(states[i]) && states[i].history != []
    requires Authenticated(fromCache, cfg, raw, states[i].cached)
    requires Authenticated(fromDb, cfg, raw, AllKeys(Db(states[i])))
    ensures fromCache == fromDb
  {
    RunKeepsInv(states, steps, i, i);
    LabelIsCurrent(states, steps, i);
    var t := Db(states[i]);
    LawfulNow(states[i]);
    TableSecrets(t);
    AuthenticatedAlike(fromCache, cfg, raw, t);
    SourcesAgree(fromCache, fromDb, cfg, raw, AllKeys(t));
  }

  // ---------- Catching up ----------

  ghost predicate CaughtUp(s: State) {
    s.history != [] && s.tag == Version(s) && s.cached == ActiveKeys(Db(s))
  }

  // The five steps of a poll that finds a new version.
  const POLL: seq<Step> := [Tick, Compare, ReadVersion, ReadKeys, Install]

  ghost function After5(s: State): seq<State>
    requires s.history != [] && s.loader.Idle? && s.tag != Version(s)
  {
    var a := After(s, Tick);
    var b := After(a, Compare);
    var c := After(b, ReadVersion);
    var d := After(c, ReadKeys);
    [s, a, b, c, d, After(d, Install)]
  }

  // If writers pause, one poll of an idle instance brings the cache up to date, and it stays so
  // through every further step that is not a write.
  lemma PollCatchesUp(s: State)
    requires Inv(s) && s.loader.Idle?
    ensures CaughtUp(s) ||
            (s.tag != Version(s) && Run(After5(s), POLL) && CaughtUp(After5(s)[5]) && Db(After5(s)[5]) == Db(s))
  {
    hide Lawful, ActiveKeys;
    if s.tag != Version(s) {
      var states := After5(s);
      forall i | 0 <= i < 5
        ensures Enabled(states[i], POLL[i]) && states[i + 1] == After(states[i], POLL[i])
      {
      }
    }
  }

  lemma {:induction false} StaysCaughtUp(states: seq<State>, steps: seq<Step>, i: nat, j: nat)
    requires Run(states, steps) && Init(states[0]) && i <= j < |states|
    requires CaughtUp(states[i])
    requires forall k :: i <= k < j ==> !Writes(steps[k])
    ensures CaughtUp(states[j]) && states[j].history == states[i].history
  {
    hide Init, Inv, CaughtUp;
    if i < j {
      StaysCaughtUp(states, steps, i, j - 1);
      RunKeepsInv(states, steps, j - 1, j);
      QuietStepCaughtUp(states[j - 1], steps[j - 1]);
    }
  }

  lemma QuietStepCaughtUp(s: State, step: Step)
    requires Inv(s) && Enabled(s, step) && !Writes(step) && CaughtUp(s)
    ensures CaughtUp(After(s, step)) && After(s, step).history == s.history
  {
    hide Lawful, ActiveKeys;
  }
}
