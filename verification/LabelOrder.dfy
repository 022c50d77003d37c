/** When the label of the provider cache goes forward only. */
module LabelOrder {
  import opened Providers
  import opened Database
  import opened ConfigSync

  ghost predicate Monotone(states: seq<State>) {
    forall i, j :: 0 <= i <= j < |states| ==> states[i].tag <= states[j].tag
  }

  lemma {:induction false} StepwiseMonotone(states: seq<State>, i: nat, j: nat)
    requires i <= j < |states| && forall k :: 0 <= k < |states| - 1 ==> states[k].tag <= states[k + 1].tag
    ensures states[i].tag <= states[j].tag
    decreases j
  {
    if i < j {
      StepwiseMonotone(states, i, j - 1);
      assert states[j - 1].tag <= states[j - 1 + 1].tag;
    }
  }

  // ---------- Reloads one at a time ----------

  // At most one reload is in flight.
  ghost predicate Alone(s: State) {
    forall a, b :: a in s.reloaders && b in s.reloaders ==> a == b
  }

  predicate Tagged(r: Reloader) {
    r.GotVersion? || r.GotProviders? || r.GotAll?
  }

  ghost predicate Ordered(s: State) {
    && s.history != [] && s.tag <= Db(s).providersVersion
    && forall id :: id in s.reloaders && Tagged(s.reloaders[id]) ==>
         s.tag <= s.reloaders[id].tag <= Db(s).providersVersion
  }

  lemma StepKeepsOrdered(s: State, step: Step, secrets: Secrets)
    requires Ordered(s) && Alone(s) && Enabled(s, step)
    ensures Ordered(After(s, step, secrets)) && s.tag <= After(s, step, secrets).tag
  {
    hide Apply, ChannelsQuery, Projected, ProvidersQuery;
    if step.Write? {
      MutationsAnnounce(Db(s), step.mutation);
    }
  }

  lemma {:induction false} PrefixOrdered(states: seq<State>, steps: seq<Step>, secrets: Secrets, j: nat)
    requires Run(states, steps, secrets) && Init(states[0]) && j <= |steps|
    requires forall i :: 0 <= i < |states| ==> Alone(states[i])
    ensures Ordered(states[j])
    ensures forall k :: 0 <= k < j ==> states[k].tag <= states[k + 1].tag
  {
    hide After, Enabled, Ordered, Alone;
    if j == 0 {
      InitOrdered(states[0]);
    } else {
      PrefixOrdered(states, steps, secrets, j - 1);
      StepKeepsOrdered(states[j - 1], steps[j - 1], secrets);
    }
  }

  lemma InitOrdered(s: State)
    requires Init(s)
    ensures Ordered(s)
  {
  }

  // In every run whose reloads never overlap, the label never goes back.
  lemma AloneIsMonotone(states: seq<State>, steps: seq<Step>, secrets: Secrets)
    requires Run(states, steps, secrets) && Init(states[0])
    requires forall i :: 0 <= i < |states| ==> Alone(states[i])
    ensures Monotone(states)
  {
    hide Alone, Init;
    PrefixOrdered(states, steps, secrets, |steps|);
    forall i, j | 0 <= i <= j < |states| ensures states[i].tag <= states[j].tag {
      StepwiseMonotone(states, i, j);
    }
  }

  // ---------- The exact condition ----------

  // The version that the reload installed by step a had read.
  ghost predicate InstalledVersion(states: seq<State>, steps: seq<Step>, a: int, version: int) {
    0 <= a < |steps| < |states| && steps[a].Install?
    && steps[a].id in states[a].reloaders && states[a].reloaders[steps[a].id].GotAll?
    && states[a].reloaders[steps[a].id].tag == version
  }

  // Installs come in the order of the versions their reloads read.
  ghost predicate InstallsInOrder(states: seq<State>, steps: seq<Step>) {
    forall a, b, v, w :: a < b && InstalledVersion(states, steps, a, v) && InstalledVersion(states, steps, b, w) ==> v <= w
  }

  lemma StepSetsLabel(s: State, step: Step, secrets: Secrets)
    requires Inv(s, secrets) && Enabled(s, step)
    ensures !step.Install? ==> After(s, step, secrets).tag == s.tag
    ensures step.Install? ==> s.reloaders[step.id].GotAll? && After(s, step, secrets).tag == s.reloaders[step.id].tag >= 1
  {
    hide Apply, ChannelsQuery, Projected, ProvidersQuery, CachedFrom;
    if step.Install? {
      assert ReloaderOk(s.history, s.reloaders[step.id]);
    }
  }

  // The label is the version of the last install, or zero before the first.
  lemma {:induction false} LabelIsInstalled(states: seq<State>, steps: seq<Step>, secrets: Secrets, j: nat)
    requires Run(states, steps, secrets) && Init(states[0]) && j <= |steps|
    ensures states[j].tag == 0 || exists a :: 0 <= a < j && InstalledVersion(states, steps, a, states[j].tag)
    ensures states[j].tag >= 0
  {
    hide After, Enabled, Inv;
    if j > 0 {
      LabelIsInstalled(states, steps, secrets, j - 1);
      InitInv(states[0], secrets);
      RunKeepsInv(states, steps, secrets, 0, j - 1);
      StepSetsLabel(states[j - 1], steps[j - 1], secrets);
      InstallStep(states, steps, secrets, j - 1);
    }
  }

  lemma InstallStep(states: seq<State>, steps: seq<Step>, secrets: Secrets, a: nat)
    requires Run(states, steps, secrets) && Init(states[0]) && a < |steps|
    ensures steps[a].Install? ==> InstalledVersion(states, steps, a, states[a + 1].tag)
    ensures !steps[a].Install? ==> states[a + 1].tag == states[a].tag
  {
    hide After, Enabled, Inv;
    InitInv(states[0], secrets);
    RunKeepsInv(states, steps, secrets, 0, a);
    StepSetsLabel(states[a], steps[a], secrets);
    if steps[a].Install? {
      InstallReads(states[a], steps[a]);
    }
  }

  lemma InstallReads(s: State, step: Step)
    requires Enabled(s, step) && step.Install?
    ensures step.id in s.reloaders && s.reloaders[step.id].GotAll?
  {
  }

  // The label never goes back exactly when installs come in the order of the versions read.
  lemma MonotoneExactly(states: seq<State>, steps: seq<Step>, secrets: Secrets)
    requires Run(states, steps, secrets) && Init(states[0])
    ensures Monotone(states) <==> InstallsInOrder(states, steps)
  {
    hide Run, Init, InstalledVersion;
    if Monotone(states) {
      forall a, b, v, w | a < b && InstalledVersion(states, steps, a, v) && InstalledVersion(states, steps, b, w)
        ensures v <= w
      {
        InstalledIsLabel(states, steps, secrets, a, v);
        InstalledIsLabel(states, steps, secrets, b, w);
      }
    }
    if InstallsInOrder(states, steps) {
      forall k | 0 <= k < |states| - 1 ensures states[k].tag <= states[k + 1].tag {
        OrderedStep(states, steps, secrets, k);
      }
      forall i, j | 0 <= i <= j < |states| ensures states[i].tag <= states[j].tag {
        StepwiseMonotone(states, i, j);
      }
    }
  }

  lemma InstalledIsLabel(states: seq<State>, steps: seq<Step>, secrets: Secrets, a: int, version: int)
    requires Run(states, steps, secrets) && Init(states[0]) && InstalledVersion(states, steps, a, version)
    ensures 0 <= a < |states| - 1 && states[a + 1].tag == version
  {
    InstallStep(states, steps, secrets, a);
  }

  lemma OrderedStep(states: seq<State>, steps: seq<Step>, secrets: Secrets, k: nat)
    requires Run(states, steps, secrets) && Init(states[0]) && InstallsInOrder(states, steps) && k < |states| - 1
    ensures states[k].tag <= states[k + 1].tag
  {
    hide InstalledVersion, After, Enabled;
    InstallStep(states, steps, secrets, k);
    LabelIsInstalled(states, steps, secrets, k);
    LabelIsInstalled(states, steps, secrets, k + 1);
  }

  // ---------- The schedule behind it ----------

  // The version of the database in a state of a run.
  function VersionAt(s: State): int {
    if s.history == [] then 0 else Db(s).providersVersion
  }

  // Step r is where the reload under the ID read the version it still holds before step j.
  ghost predicate LastRead(steps: seq<Step>, r: int, j: int, id: nat) {
    0 <= r < j <= |steps| && steps[r] == ReadVersion(id) && forall m :: r < m < j ==> steps[m] != ReadVersion(id)
  }

  // Step y installs what the reload that read its version at step r had read.
  ghost predicate InstallsRead(steps: seq<Step>, r: int, y: int) {
    0 <= y < |steps| && steps[y].Install? && LastRead(steps, r, y, steps[y].id)
  }

  predicate Raises(states: seq<State>, steps: seq<Step>, w: int) {
    0 <= w < |steps| < |states| && steps[w].Write? && VersionAt(states[w]) < VersionAt(states[w + 1])
  }

  // One reload read its version before a raising write, another after it, and the earlier
  // reader installs after the later one.
  ghost predicate Overtaken(states: seq<State>, steps: seq<Step>, early: int, late: int, w: int, x: int, y: int) {
    early <= w < late && Raises(states, steps, w) && x < y && InstallsRead(steps, late, x) && InstallsRead(steps, early, y)
  }

  lemma StepHolds(s: State, step: Step, secrets: Secrets, id: nat)
    requires Enabled(s, step)
    requires id in After(s, step, secrets).reloaders && Tagged(After(s, step, secrets).reloaders[id])
    ensures step == ReadVersion(id) ==> After(s, step, secrets).reloaders[id].tag == VersionAt(s)
    ensures step != ReadVersion(id) ==>
              id in s.reloaders && Tagged(s.reloaders[id]) && s.reloaders[id].tag == After(s, step, secrets).reloaders[id].tag
  {
    hide Apply, ChannelsQuery, Projected, ProvidersQuery;
  }

  lemma {:induction false} HeldIsRead(
      states: seq<State>, steps: seq<Step>, secrets: Secrets, j: nat, id: nat) returns (r: int)
    requires Run(states, steps, secrets) && Init(states[0]) && j <= |steps|
    requires id in states[j].reloaders && Tagged(states[j].reloaders[id])
    ensures LastRead(steps, r, j, id) && states[j].reloaders[id].tag == VersionAt(states[r])
  {
    hide After, Enabled, Tagged, VersionAt;
    StepHolds(states[j - 1], steps[j - 1], secrets, id);
    if steps[j - 1] == ReadVersion(id) {
      r := j - 1;
    } else {
      r := HeldIsRead(states, steps, secrets, j - 1, id);
    }
  }

  lemma LastReadUnique(steps: seq<Step>, r: int, q: int, j: int, id: nat)
    requires LastRead(steps, r, j, id) && LastRead(steps, q, j, id)
    ensures r == q
  {
  }

  lemma InstalledWasRead(states: seq<State>, steps: seq<Step>, secrets: Secrets, y: nat) returns (r: int)
    requires Run(states, steps, secrets) && Init(states[0]) && y < |steps| && steps[y].Install?
    ensures InstallsRead(steps, r, y) && InstalledVersion(states, steps, y, VersionAt(states[r]))
    ensures forall q :: InstallsRead(steps, q, y) ==> q == r
  {
    hide After, Enabled, VersionAt, LastRead;
    InstallReads(states[y], steps[y]);
    r := HeldIsRead(states, steps, secrets, y, steps[y].id);
    forall q | InstallsRead(steps, q, y) ensures q == r {
      LastReadUnique(steps, r, q, y, steps[y].id);
    }
  }

  lemma VersionsGrow(states: seq<State>, steps: seq<Step>, secrets: Secrets, i: nat, j: nat)
    requires Run(states, steps, secrets) && Init(states[0]) && i <= j <= |steps|
    ensures VersionAt(states[i]) <= VersionAt(states[j])
  {
    hide After, Enabled, Init, ReloaderOk, CachedFrom;
    InitInv(states[0], secrets);
    RunKeepsInv(states, steps, secrets, 0, i);
    RunKeepsInv(states, steps, secrets, i, j);
    assert states[j].history[|states[i].history| - 1] == Db(states[i]);
  }

  lemma {:induction false} RaisingStep(
      states: seq<State>, steps: seq<Step>, secrets: Secrets, i: nat, j: nat) returns (w: int)
    requires Run(states, steps, secrets) && Init(states[0]) && i <= j <= |steps|
    requires VersionAt(states[i]) < VersionAt(states[j])
    ensures i <= w < j && Raises(states, steps, w)
  {
    hide After, Enabled, VersionAt;
    if VersionAt(states[j - 1]) < VersionAt(states[j]) {
      w := j - 1;
      QuietKeepsVersion(states[w], steps[w], secrets);
    } else {
      w := RaisingStep(states, steps, secrets, i, j - 1);
    }
  }

  lemma QuietKeepsVersion(s: State, step: Step, secrets: Secrets)
    requires Enabled(s, step)
    ensures !step.Write? ==> VersionAt(After(s, step, secrets)) == VersionAt(s)
  {
    hide Apply, ChannelsQuery, Projected, ProvidersQuery;
  }

  // The label goes back in a run exactly when its schedule lets a reload be overtaken: one that
  // read its version before a raising write installs after one that read it later.
  lemma DropsExactly(states: seq<State>, steps: seq<Step>, secrets: Secrets)
    requires Run(states, steps, secrets) && Init(states[0])
    ensures !Monotone(states) <==> exists early, late, w, x, y :: Overtaken(states, steps, early, late, w, x, y)
  {
    hide Run, Init, InstalledVersion, InstallsRead, VersionAt, Monotone;
    MonotoneExactly(states, steps, secrets);
    if early, late, w, x, y :| Overtaken(states, steps, early, late, w, x, y) {
      OvertakenDrops(states, steps, secrets, early, late, w, x, y);
    }
    if !InstallsInOrder(states, steps) {
      var a, b, v, u :| a < b && InstalledVersion(states, steps, a, v) && InstalledVersion(states, steps, b, u) && u < v;
      DisorderOvertakes(states, steps, secrets, a, b, v, u);
    }
  }

  lemma VersionOfInstall(states: seq<State>, steps: seq<Step>, a: int, v: int)
    requires InstalledVersion(states, steps, a, v)
    ensures 0 <= a < |steps| && steps[a].Install?
    ensures forall u :: InstalledVersion(states, steps, a, u) ==> u == v
  {
  }

  lemma OvertakenDrops(
      states: seq<State>, steps: seq<Step>, secrets: Secrets, early: int, late: int, w: int, x: int, y: int)
    requires Run(states, steps, secrets) && Init(states[0]) && Overtaken(states, steps, early, late, w, x, y)
    ensures !InstallsInOrder(states, steps)
  {
    hide After, Enabled, Init, InstalledVersion, LastRead, VersionAt;
    var rx := InstalledWasRead(states, steps, secrets, x);
    var ry := InstalledWasRead(states, steps, secrets, y);
    assert rx == late && ry == early;
    ReadInRange(steps, early, y);
    ReadInRange(steps, late, x);
    VersionsGrow(states, steps, secrets, early, w);
    VersionsGrow(states, steps, secrets, w + 1, late);
  }

  lemma ReadInRange(steps: seq<Step>, r: int, y: int)
    requires InstallsRead(steps, r, y)
    ensures 0 <= r < y < |steps|
  {
  }

  lemma DisorderOvertakes(
      states: seq<State>, steps: seq<Step>, secrets: Secrets, a: int, b: int, v: int, u: int)
    requires Run(states, steps, secrets) && Init(states[0])
    requires a < b && InstalledVersion(states, steps, a, v) && InstalledVersion(states, steps, b, u) && u < v
    ensures exists early, late, w, x, y :: Overtaken(states, steps, early, late, w, x, y)
  {
    hide After, Enabled, Init, InstalledVersion, InstallsRead, VersionAt, Raises;
    VersionOfInstall(states, steps, a, v);
    VersionOfInstall(states, steps, b, u);
    var late := InstalledWasRead(states, steps, secrets, a);
    var early := InstalledWasRead(states, steps, secrets, b);
    ReadInRange(steps, late, a);
    ReadInRange(steps, early, b);
    if late <= early {
      VersionsGrow(states, steps, secrets, late, early);
    }
    var w := RaisingStep(states, steps, secrets, early, late);
    assert Overtaken(states, steps, early, late, w, a, b);
  }
}
