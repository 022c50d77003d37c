/**
  The versioned cache synchronisation as a state machine. Writers commit transactions; any
  number of reloaders (the poller and the admin handlers of one instance) each read the
  version, then the provider rows, then the channel rows, then install what they read. Every
  read is a step of its own, so reads can be torn and an old snapshot can overwrite a newer one.
 */
module ConfigSync {
  import opened Providers
  import opened RoutingIndex
  import opened Database

  datatype Reloader =
    | Polled(seen: int)
    | Starting
    | GotVersion(tag: int)
    | GotProviders(tag: int, rows: seq<Provider>)
    | GotAll(tag: int, rows: seq<Provider>, channelRows: seq<Channel>)

  // history holds every committed state of the tables, the current one last.
  datatype State = State(
    history: seq<Tables>,
    reloaders: map<nat, Reloader>,
    tag: int,
    cached: seq<Provider>)

  datatype Step =
    | Write(mutation: Mutation)
    | StartPoll(id: nat)
    | ComparePoll(id: nat)
    | StartReload(id: nat)
    | ReadVersion(id: nat)
    | ReadProviders(id: nat)
    | ReadChannels(id: nat)
    | Install(id: nat)
    | Fail(id: nat)

  function Db(s: State): Tables
    requires s.history != []
  {
    s.history[|s.history| - 1]
  }

  predicate Enabled(s: State, step: Step) {
    && s.history != []
    && match step
       case Write(m) => Assigned(m) && Apply(Db(s), m).Success?
       case StartPoll(id) => id !in s.reloaders
       case StartReload(id) => id !in s.reloaders
       case ComparePoll(id) => id in s.reloaders && s.reloaders[id].Polled?
       case ReadVersion(id) => id in s.reloaders && s.reloaders[id].Starting?
       case ReadProviders(id) => id in s.reloaders && s.reloaders[id].GotVersion?
       case ReadChannels(id) => id in s.reloaders && s.reloaders[id].GotProviders?
       case Install(id) => id in s.reloaders && s.reloaders[id].GotAll?
       case Fail(id) => id in s.reloaders
  }

  function Moved(s: State, id: nat, r: Reloader): State {
    s.(reloaders := s.reloaders[id := r])
  }

  function Done(s: State, id: nat): State {
    s.(reloaders := s.reloaders - {id})
  }

  function After(s: State, step: Step, secrets: Secrets): State
    requires Enabled(s, step)
  {
    match step
    case Write(m) => s.(history := s.history + [Apply(Db(s), m).value])
    case StartPoll(id) => Moved(s, id, Polled(Db(s).providersVersion))
    case ComparePoll(id) => if s.tag == s.reloaders[id].seen then Done(s, id) else Moved(s, id, Starting)
    case StartReload(id) => Moved(s, id, Starting)
    case ReadVersion(id) => Moved(s, id, GotVersion(Db(s).providersVersion))
    case ReadProviders(id) => Moved(s, id, GotProviders(s.reloaders[id].tag, ProvidersQuery(Db(s).providers)))
    case ReadChannels(id) =>
      var r := s.reloaders[id];
      Moved(s, id, GotAll(r.tag, r.rows, ChannelsQuery(Db(s).channels)))
    case Install(id) =>
      var r := s.reloaders[id];
      Done(s, id).(tag := r.tag, cached := r.rows + Projected(r.channelRows, secrets))
    case Fail(id) => Done(s, id)
  }

  predicate Init(s: State) {
    |s.history| == 1 && s.history[0].providersVersion >= 1 && s.reloaders == map[] && s.tag == 0 && s.cached == []
  }

  // A run visits states[0], ..., states[|steps|].
  ghost predicate Run(states: seq<State>, steps: seq<Step>, secrets: Secrets) {
    && |states| == |steps| + 1
    && forall i :: 0 <= i < |steps| ==> Enabled(states[i], steps[i]) && states[i + 1] == After(states[i], steps[i], secrets)
  }

  // ---------- The invariant ----------

  ghost predicate VersionsTell(history: seq<Tables>) {
    && history != []
    && (forall i :: 0 <= i < |history| ==> history[i].providersVersion >= 1)
    && (forall i, j :: 0 <= i <= j < |history| ==> history[i].providersVersion <= history[j].providersVersion)
    && (forall i, j :: 0 <= i < j < |history| && history[i].providersVersion == history[j].providersVersion ==>
          history[i].providers == history[j].providers && history[i].channels == history[j].channels)
  }

  // The rows were the answer of the provider query at a version no older than the label.
  ghost predicate SawProviders(history: seq<Tables>, tag: int, rows: seq<Provider>) {
    exists t :: 0 <= t < |history| && tag <= history[t].providersVersion && rows == ProvidersQuery(history[t].providers)
  }

  ghost predicate SawChannels(history: seq<Tables>, tag: int, rows: seq<Channel>) {
    exists t :: 0 <= t < |history| && tag <= history[t].providersVersion && rows == ChannelsQuery(history[t].channels)
  }

  ghost predicate SawVersion(history: seq<Tables>, tag: int) {
    exists t :: 0 <= t < |history| && tag == history[t].providersVersion
  }

  ghost predicate ReloaderOk(history: seq<Tables>, r: Reloader) {
    match r
    case Polled(seen) => SawVersion(history, seen)
    case Starting => true
    case GotVersion(tag) => SawVersion(history, tag)
    case GotProviders(tag, rows) => SawVersion(history, tag) && SawProviders(history, tag, rows)
    case GotAll(tag, rows, channelRows) =>
      SawVersion(history, tag) && SawProviders(history, tag, rows) && SawChannels(history, tag, channelRows)
  }

  ghost predicate CachedFrom(history: seq<Tables>, tag: int, cached: seq<Provider>, secrets: Secrets) {
    exists rows, channelRows ::
      SawProviders(history, tag, rows) && SawChannels(history, tag, channelRows)
      && cached == rows + Projected(channelRows, secrets)
  }

  ghost predicate Inv(s: State, secrets: Secrets) {
    && VersionsTell(s.history)
    && (forall id :: id in s.reloaders ==> ReloaderOk(s.history, s.reloaders[id]))
    && (s.tag == 0 ==> s.cached == [])
    && (s.tag != 0 ==> SawVersion(s.history, s.tag) && CachedFrom(s.history, s.tag, s.cached, secrets))
  }

  lemma HistoryGrows(history: seq<Tables>, m: Mutation)
    requires VersionsTell(history) && Apply(history[|history| - 1], m).Success?
    ensures VersionsTell(history + [Apply(history[|history| - 1], m).value])
  {
    hide Apply;
    MutationsAnnounce(history[|history| - 1], m);
  }

  // What was seen stays seen when history grows.
  lemma SeenStays(history: seq<Tables>, more: seq<Tables>, r: Reloader)
    requires history <= more && ReloaderOk(history, r)
    ensures ReloaderOk(more, r)
  {
  }

  lemma CachedStays(history: seq<Tables>, more: seq<Tables>, tag: int, cached: seq<Provider>, secrets: Secrets)
    requires history <= more && SawVersion(history, tag) && CachedFrom(history, tag, cached, secrets)
    ensures SawVersion(more, tag) && CachedFrom(more, tag, cached, secrets)
  {
    var rows, channelRows :|
      SawProviders(history, tag, rows) && SawChannels(history, tag, channelRows)
      && cached == rows + Projected(channelRows, secrets);
    SeenStays(history, more, GotAll(tag, rows, channelRows));
  }

  lemma ReadsAreSeen(s: State)
    requires VersionsTell(s.history)
    ensures SawVersion(s.history, Db(s).providersVersion)
    ensures forall tag :: SawVersion(s.history, tag) ==>
              && SawProviders(s.history, tag, ProvidersQuery(Db(s).providers))
              && SawChannels(s.history, tag, ChannelsQuery(Db(s).channels))
  {
  }

  lemma WriteKeepsInv(s: State, m: Mutation, secrets: Secrets)
    requires Inv(s, secrets) && Enabled(s, Write(m))
    ensures Inv(After(s, Write(m), secrets), secrets)
    ensures s.history <= After(s, Write(m), secrets).history
  {
    hide CachedFrom, Channel.Defaulted, ChannelsQuery, Moved, Projected, Provider.Defaulted, ProvidersQuery,
      ReloaderOk, VersionsTell;
    var next := After(s, Write(m), secrets);
    HistoryGrows(s.history, m);
    forall id | id in s.reloaders ensures ReloaderOk(next.history, s.reloaders[id]) {
      SeenStays(s.history, next.history, s.reloaders[id]);
    }
    if s.tag != 0 {
      CachedStays(s.history, next.history, s.tag, s.cached, secrets);
    }
  }

  // Every read leaves a reloader with what some state of the tables held.
  lemma MoveKeepsInv(s: State, id: nat, r: Reloader, secrets: Secrets)
    requires Inv(s, secrets) && ReloaderOk(s.history, r)
    ensures Inv(Moved(s, id, r), secrets)
  {
  }

  lemma DoneKeepsInv(s: State, id: nat, secrets: Secrets)
    requires Inv(s, secrets)
    ensures Inv(Done(s, id), secrets)
  {
  }

  lemma InstallKeepsInv(s: State, id: nat, secrets: Secrets)
    requires Inv(s, secrets) && Enabled(s, Install(id))
    ensures Inv(After(s, Install(id), secrets), secrets)
  {
    var r := s.reloaders[id];
    assert r.tag >= 1;
  }

  // The invariant survives every step of every reloader and writer.
  lemma StepKeepsInv(s: State, step: Step, secrets: Secrets)
    requires Inv(s, secrets) && Enabled(s, step)
    ensures Inv(After(s, step, secrets), secrets)
    ensures s.history <= After(s, step, secrets).history
  {
    hide Apply, ChannelsQuery, Projected, ProvidersQuery, SawProviders, VersionsTell;
    if step.Write? {
      WriteKeepsInv(s, step.mutation, secrets);
    } else if step.Install? {
      InstallKeepsInv(s, step.id, secrets);
    } else {
      DoneKeepsInv(s, step.id, secrets);
      assert VersionsTell(s.history) && (step.id in s.reloaders ==> ReloaderOk(s.history, s.reloaders[step.id]));
      ReadsAreSeen(s);
      if After(s, step, secrets) != Done(s, step.id) {
        MoveKeepsInv(s, step.id, After(s, step, secrets).reloaders[step.id], secrets);
      }
    }
  }

  lemma InitInv(s: State, secrets: Secrets)
    requires Init(s)
    ensures Inv(s, secrets)
  {
  }

  lemma {:induction false} RunKeepsInv(states: seq<State>, steps: seq<Step>, secrets: Secrets, i: nat, j: nat)
    requires Run(states, steps, secrets) && i <= j <= |steps| && Inv(states[i], secrets)
    ensures Inv(states[j], secrets) && states[i].history <= states[j].history
    decreases j - i
  {
    if i < j {
      StepKeepsInv(states[i], steps[i], secrets);
      RunKeepsInv(states, steps, secrets, i + 1, j);
    }
  }

  // ---------- Safety ----------

  lemma InSyncMeansCurrent(s: State, secrets: Secrets)
    requires Inv(s, secrets) && s.tag == Db(s).providersVersion
    ensures s.cached == RoutingProviders(Db(s), secrets)
  {
    hide ChannelsQuery, Projected, ProvidersQuery, ReloaderOk, SawVersion;
  }

  // Whatever the interleaving, a cache whose label is the current version holds exactly the
  // current routing list, and routes every request as the database would.
  lemma InSyncIsCurrent(states: seq<State>, steps: seq<Step>, secrets: Secrets, j: nat)
    requires Run(states, steps, secrets) && Init(states[0]) && j <= |steps|
    ensures states[j].history != []
    ensures states[j].tag == Db(states[j]).providersVersion ==>
              && states[j].cached == RoutingProviders(Db(states[j]), secrets)
              && BuildIndex(states[j].cached) == BuildIndex(RoutingProviders(Db(states[j]), secrets))
  {
    InitInv(states[0], secrets);
    RunKeepsInv(states, steps, secrets, 0, j);
    if states[j].tag == Db(states[j]).providersVersion {
      InSyncMeansCurrent(states[j], secrets);
    }
  }

  // The cache was put together from table states committed at or after position from.
  ghost predicate ReflectsSince(s: State, from: nat, secrets: Secrets) {
    exists a, b :: from <= a < |s.history| && from <= b < |s.history|
                   && s.cached == Routing(s.history[a].providers, s.history[b].channels, secrets)
  }

  lemma LabelReflects(s: State, from: nat, secrets: Secrets)
    requires Inv(s, secrets) && from < |s.history|
    requires s.tag != 0 && s.tag >= s.history[from].providersVersion
    ensures ReflectsSince(s, from, secrets)
  {
    var rows, channelRows :|
      SawProviders(s.history, s.tag, rows) && SawChannels(s.history, s.tag, channelRows)
      && s.cached == rows + Projected(channelRows, secrets);
    var a :| 0 <= a < |s.history| && s.tag <= s.history[a].providersVersion
             && rows == ProvidersQuery(s.history[a].providers);
    var b :| 0 <= b < |s.history| && s.tag <= s.history[b].providersVersion
             && channelRows == ChannelsQuery(s.history[b].channels);
    var a' := if a < from then from else a;
    var b' := if b < from then from else b;
    assert s.history[a'].providers == s.history[a].providers;
    assert s.history[b'].channels == s.history[b].channels;
    assert s.cached == Routing(s.history[a'].providers, s.history[b'].channels, secrets);
  }

  // The readiness probe reads the database version in one state and the cache in a later one.
  predicate Ready(probed: State, observed: State)
    requires probed.history != []
  {
    observed.tag != 0 && observed.tag >= Db(probed).providersVersion
  }

  // A ready answer means that the cache reflects every change committed before the probe.
  lemma ReadyReflectsProbe(states: seq<State>, steps: seq<Step>, secrets: Secrets, i: nat, j: nat)
    requires Run(states, steps, secrets) && Init(states[0]) && i <= j <= |steps|
    ensures states[i].history != [] && states[i].history <= states[j].history
    ensures Ready(states[i], states[j]) ==> ReflectsSince(states[j], |states[i].history| - 1, secrets)
  {
    InitInv(states[0], secrets);
    RunKeepsInv(states, steps, secrets, 0, i);
    RunKeepsInv(states, steps, secrets, i, j);
    if Ready(states[i], states[j]) {
      LabelReflects(states[j], |states[i].history| - 1, secrets);
    }
  }

  // An instance is not ready before its first install, nor while its label is below the version
  // a probe reads, and it is ready whenever its label is current.
  lemma {:induction false} UnloadedUntilInstall(states: seq<State>, steps: seq<Step>, secrets: Secrets, j: nat)
    requires Run(states, steps, secrets) && Init(states[0]) && j <= |steps|
    requires forall k :: 0 <= k < j ==> !steps[k].Install?
    ensures states[j].tag == 0
  {
    hide Apply, ChannelsQuery, Projected, ProvidersQuery;
    if j > 0 {
      UnloadedUntilInstall(states, steps, secrets, j - 1);
    }
  }

  lemma ReadyExactly(states: seq<State>, steps: seq<Step>, secrets: Secrets, i: nat, j: nat)
    requires Run(states, steps, secrets) && Init(states[0]) && i <= j <= |steps|
    ensures states[i].history != [] && states[j].history != []
    ensures (forall k :: 0 <= k < j ==> !steps[k].Install?) ==> !Ready(states[i], states[j])
    ensures states[j].tag == 0 ==> forall s: State :: s.history != [] ==> !Ready(s, states[j])
    ensures states[j].tag < Db(states[i]).providersVersion ==> !Ready(states[i], states[j])
    ensures states[j].tag >= Db(states[i]).providersVersion ==> Ready(states[i], states[j])
    ensures states[j].tag == Db(states[j]).providersVersion ==> Ready(states[j], states[j])
  {
    hide After, Enabled, CachedFrom, ReloaderOk;
    InitInv(states[0], secrets);
    RunKeepsInv(states, steps, secrets, 0, i);
    RunKeepsInv(states, steps, secrets, 0, j);
    if forall k :: 0 <= k < j ==> !steps[k].Install? {
      UnloadedUntilInstall(states, steps, secrets, j);
    }
  }

  // A failed reload is over: the cache keeps what it had, and the reloader can start anew.
  lemma FailureEndsReload(s: State, id: nat, secrets: Secrets)
    requires Enabled(s, Fail(id))
    ensures var t := After(s, Fail(id), secrets);
            && t.cached == s.cached && t.tag == s.tag && t.history == s.history
            && Enabled(t, StartPoll(id)) && Enabled(t, StartReload(id))
            && forall other :: other != id && other in s.reloaders ==>
                 other in t.reloaders && t.reloaders[other] == s.reloaders[other]
  {
  }

  // ---------- Settling ----------

  // Every reload in flight holds only current data.
  ghost predicate HoldsCurrent(db: Tables, r: Reloader) {
    match r
    case Polled(seen) => seen == db.providersVersion
    case Starting => true
    case GotVersion(tag) => tag == db.providersVersion
    case GotProviders(tag, rows) => tag == db.providersVersion && rows == ProvidersQuery(db.providers)
    case GotAll(tag, rows, channelRows) =>
      tag == db.providersVersion && rows == ProvidersQuery(db.providers) && channelRows == ChannelsQuery(db.channels)
  }

  ghost predicate Drained(s: State) {
    s.history != [] && forall id :: id in s.reloaders ==> HoldsCurrent(Db(s), s.reloaders[id])
  }

  ghost predicate Fresh(s: State, secrets: Secrets) {
    && s.history != []
    && s.tag == Db(s).providersVersion
    && s.cached == RoutingProviders(Db(s), secrets)
  }

  // A poll ends by finding the label equal, a reload by installing.
  predicate Completes(s: State, step: Step) {
    || step.Install?
    || (step.ComparePoll? && step.id in s.reloaders && s.reloaders[step.id].Polled? && s.tag == s.reloaders[step.id].seen)
  }

  lemma QuietStep(s: State, step: Step, secrets: Secrets)
    requires Inv(s, secrets) && Drained(s) && Enabled(s, step) && !step.Write?
    ensures Drained(After(s, step, secrets)) && After(s, step, secrets).history == s.history
    ensures Fresh(s, secrets) || Completes(s, step) ==> Fresh(After(s, step, secrets), secrets)
  {
    hide Apply, ChannelsQuery, Inv, Projected, ProvidersQuery;
    if step.ComparePoll? && Completes(s, step) {
      InSyncMeansCurrent(s, secrets);
    }
  }

  lemma {:induction false} SettlesDrained(
      states: seq<State>, steps: seq<Step>, secrets: Secrets, i: nat, k: nat, j: nat)
    requires Run(states, steps, secrets) && i <= k < j <= |steps|
    requires Inv(states[i], secrets) && Drained(states[i])
    requires forall n :: i <= n < j ==> !steps[n].Write?
    requires Completes(states[k], steps[k])
    ensures Fresh(states[j], secrets) && Drained(states[j]) && states[j].history == states[i].history
    decreases j
  {
    hide After, Enabled, Inv;
    QuietPrefix(states, steps, secrets, i, j - 1);
    RunKeepsInv(states, steps, secrets, i, j - 1);
    if k < j - 1 {
      SettlesDrained(states, steps, secrets, i, k, j - 1);
    }
    QuietStep(states[j - 1], steps[j - 1], secrets);
  }

  lemma {:induction false} QuietPrefix(states: seq<State>, steps: seq<Step>, secrets: Secrets, i: nat, j: nat)
    requires Run(states, steps, secrets) && i <= j <= |steps|
    requires Inv(states[i], secrets) && Drained(states[i])
    requires forall n :: i <= n < j ==> !steps[n].Write?
    ensures Drained(states[j]) && states[j].history == states[i].history
    decreases j
  {
    hide After, Enabled, Inv;
    if i < j {
      QuietPrefix(states, steps, secrets, i, j - 1);
      RunKeepsInv(states, steps, secrets, i, j - 1);
      QuietStep(states[j - 1], steps[j - 1], secrets);
    }
  }

  lemma QuietStepHolds(s: State, step: Step, secrets: Secrets, id: nat)
    requires s.history != [] && Enabled(s, step) && !step.Write?
    requires id in s.reloaders ==> HoldsCurrent(Db(s), s.reloaders[id])
    ensures After(s, step, secrets).history == s.history
    ensures id in After(s, step, secrets).reloaders ==> HoldsCurrent(Db(s), After(s, step, secrets).reloaders[id])
  {
    hide Apply, ChannelsQuery, Projected, ProvidersQuery;
  }

  // While nothing is written, a reload that begins after some moment reads only current data.
  lemma {:induction false} QuietHolds(
      states: seq<State>, steps: seq<Step>, secrets: Secrets, m: nat, j: nat, id: nat)
    requires Run(states, steps, secrets) && m <= j <= |steps|
    requires states[m].history != [] && id !in states[m].reloaders
    requires forall n :: m <= n < j ==> !steps[n].Write?
    ensures states[j].history == states[m].history
    ensures id in states[j].reloaders ==> HoldsCurrent(Db(states[m]), states[j].reloaders[id])
    decreases j
  {
    hide After, Enabled, HoldsCurrent;
    if m < j {
      QuietHolds(states, steps, secrets, m, j - 1, id);
      QuietStepHolds(states[j - 1], steps[j - 1], secrets, id);
    }
  }

  // The reload that was in flight under the ID in state i has ended by state k.
  ghost predicate Ended(states: seq<State>, i: nat, k: nat, id: nat)
    requires k < |states|
  {
    exists m :: i <= m <= k && id !in states[m].reloaders
  }

  lemma {:induction false} QuietHistory(states: seq<State>, steps: seq<Step>, secrets: Secrets, i: nat, j: nat)
    requires Run(states, steps, secrets) && i <= j <= |steps| && states[i].history != []
    requires forall n :: i <= n < j ==> !steps[n].Write?
    ensures states[j].history == states[i].history
    decreases j
  {
    hide Apply, ChannelsQuery, Projected, ProvidersQuery;
    if i < j {
      QuietHistory(states, steps, secrets, i, j - 1);
    }
  }

  lemma EndedMeansDrained(states: seq<State>, steps: seq<Step>, secrets: Secrets, i: nat, k: nat)
    requires Run(states, steps, secrets) && i <= k <= |steps| && states[i].history != []
    requires forall n :: i <= n < k ==> !steps[n].Write?
    requires forall id :: id in states[i].reloaders ==> Ended(states, i, k, id)
    ensures Drained(states[k]) && states[k].history == states[i].history
  {
    hide After, Enabled, HoldsCurrent;
    QuietHistory(states, steps, secrets, i, k);
    forall id | id in states[k].reloaders
      ensures HoldsCurrent(Db(states[k]), states[k].reloaders[id])
    {
      assert id !in states[i].reloaders ==> Ended(states, i, k, id);
      var m :| i <= m <= k && id !in states[m].reloaders;
      QuietHistory(states, steps, secrets, i, m);
      QuietHolds(states, steps, secrets, m, k, id);
    }
  }

  // Once writes have stopped and every reload then in flight has ended, the next completed poll
  // or reload makes the cache equal to the database, and every later state keeps it so.
  lemma Settles(states: seq<State>, steps: seq<Step>, secrets: Secrets, i: nat, k: nat, j: nat)
    requires Run(states, steps, secrets) && Init(states[0]) && i <= k < j <= |steps|
    requires forall n :: i <= n < j ==> !steps[n].Write?
    requires forall id :: id in states[i].reloaders ==> Ended(states, i, k, id)
    requires Completes(states[k], steps[k])
    ensures Fresh(states[j], secrets) && states[j].history == states[i].history
    ensures states[j].history != [] && Ready(states[j], states[j])
  {
    hide After, Enabled, Init, Inv, Ended, Completes, Drained, RoutingProviders;
    ReadyExactly(states, steps, secrets, j, j);
    InitInv(states[0], secrets);
    RunKeepsInv(states, steps, secrets, 0, i);
    InvHistory(states[i], secrets);
    RunKeepsInv(states, steps, secrets, 0, k);
    EndedMeansDrained(states, steps, secrets, i, k);
    SettlesDrained(states, steps, secrets, k, k, j);
  }

  lemma InvHistory(s: State, secrets: Secrets)
    requires Inv(s, secrets)
    ensures s.history != []
  {
  }

  // ---------- What the protocol does not promise ----------

  ghost predicate Reaches(states: seq<State>, steps: seq<Step>, s: State, secrets: Secrets) {
    Run(states, steps, secrets) && Init(states[0]) && s == states[|steps|]
  }

  lemma Extend(states: seq<State>, steps: seq<Step>, s: State, step: Step, secrets: Secrets)
    requires Reaches(states, steps, s, secrets) && Enabled(s, step)
    ensures Reaches(states + [After(s, step, secrets)], steps + [step], After(s, step, secrets), secrets)
  {
    hide After, Enabled, Init;
  }

  // A whole reload, up to but not including its install.
  lemma ReloadUpTo(states: seq<State>, steps: seq<Step>, s: State, id: nat, secrets: Secrets)
    returns (states': seq<State>, steps': seq<Step>, s': State)
    requires Reaches(states, steps, s, secrets) && s.history != [] && id !in s.reloaders
    ensures Reaches(states', steps', s', secrets)
    ensures s' == s.(reloaders := s.reloaders[id := GotAll(Db(s).providersVersion, ProvidersQuery(Db(s).providers),
                                                           ChannelsQuery(Db(s).channels))])
  {
    hide Apply, ChannelsQuery, Projected, ProvidersQuery, Reaches;
    states', steps', s' := states, steps, s;
    Extend(states', steps', s', StartReload(id), secrets);
    states', steps', s' :=
      states' + [After(s', StartReload(id), secrets)], steps' + [StartReload(id)], After(s', StartReload(id), secrets);
    Extend(states', steps', s', ReadVersion(id), secrets);
    states', steps', s' :=
      states' + [After(s', ReadVersion(id), secrets)], steps' + [ReadVersion(id)], After(s', ReadVersion(id), secrets);
    Extend(states', steps', s', ReadProviders(id), secrets);
    states', steps', s' :=
      states' + [After(s', ReadProviders(id), secrets)], steps' + [ReadProviders(id)], After(s', ReadProviders(id), secrets);
    Extend(states', steps', s', ReadChannels(id), secrets);
    states', steps', s' :=
      states' + [After(s', ReadChannels(id), secrets)], steps' + [ReadChannels(id)], After(s', ReadChannels(id), secrets);
  }

  // Two overlapping reloads around one write install out of order, and the label moves back.
  lemma LabelCanGoBack(db: Tables, gone: Provider, secrets: Secrets)
    requires db.providersVersion >= 1 && db.providers == [gone]
    ensures exists states: seq<State>, steps: seq<Step>, s: State, step: Step ::
              && Reaches(states, steps, s, secrets) && Enabled(s, step)
              && After(s, step, secrets).tag < s.tag
  {
    hide Apply, Moved, Projected, ProvidersQuery;
    var s := State([db], map[], 0, []);
    var states, steps := [s], [];
    assert Reaches(states, steps, s, secrets);
    states, steps, s := ReloadUpTo(states, steps, s, 1, secrets);
    DeleteApplies(db, gone);
    Extend(states, steps, s, Write(DeleteProvider(gone.id)), secrets);
    states, steps, s :=
      states + [After(s, Write(DeleteProvider(gone.id)), secrets)], steps + [Write(DeleteProvider(gone.id))],
      After(s, Write(DeleteProvider(gone.id)), secrets);
    states, steps, s := ReloadUpTo(states, steps, s, 2, secrets);
    Extend(states, steps, s, Install(2), secrets);
    states, steps, s := states + [After(s, Install(2), secrets)], steps + [Install(2)], After(s, Install(2), secrets);
    assert Reaches(states, steps, s, secrets) && Enabled(s, Install(1));
  }

  lemma DeleteApplies(db: Tables, gone: Provider)
    requires db.providers == [gone]
    ensures Apply(db, DeleteProvider(gone.id)).Success?
    ensures Apply(db, DeleteProvider(gone.id)).value.providersVersion == db.providersVersion + 1
  {
  }
}
