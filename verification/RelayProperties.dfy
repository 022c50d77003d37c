/** What every relay log promises, whatever the caches, the random source and the upstreams did. */
module RelayProperties {
  import opened Wrappers
  import opened Text
  import opened Weighted
  import opened Providers
  import opened RoutingIndex
  import opened Ledger
  import opened Relay

  // ---------- No provider twice ----------

  lemma SelectedIsNew(ps: seq<Provider>, model: string, capability: string, excluded: set<nat>, draw: nat)
    ensures var r := Select(BuildIndex(ps), model, capability, excluded, draw);
            r.Selected? ==> r.provider.id !in excluded
  {
    hide Select, BuildIndex, Provider.Defaulted, Provider.Enabled;
    SelectedIsListed(ps, model, capability, excluded, draw);
    forall p | p in ps ensures p.Defaulted().id == p.id {
      DefaultedKeepsRank(p);
    }
  }

  // However the cached list changes between attempts, no provider ID is attempted twice.
  lemma AttemptsDistinct(
      req: Request, maxRetries: int, turns: seq<Turn>, room: nat, log: seq<Event>, n: nat, i: nat, j: nat)
    requires RelayedIn(req, maxRetries, turns, room, log, n) && i < j < n
    ensures log[i].Attempt? && log[j].Attempt? && log[i].provider.id != log[j].provider.id
  {
    assert TriedAt(req, turns, log, i) && TriedAt(req, turns, log, j);
    var p :| SelectAt(req, turns[j], Ids(log[..j])) == Selected(p)
             && log[j] == Attempt(p, EncodeFor(ReplayableBody(req.fields), p, req.model));
    SelectedIsNew(turns[j].providers, req.model, CapabilityOf(req.kind), Ids(log[..j]), turns[j].draw);
    assert log[i] in log[..j];
    assert log[i].provider.id in Ids(log[..j]);
  }

  // ---------- One response, one usage record ----------

  predicate IsResponse(e: Event) {
    e.Status? || e.ErrorResponse?
  }

  predicate IsCommit(e: Event) {
    e.Status? || e.Body? || e.ErrorResponse?
  }

  function At(log: seq<Event>, p: Event -> bool): nat -> bool {
    (k: nat) => k < |log| && p(log[k])
  }

  lemma {:induction false} CountPrefix(log: seq<Event>, n: nat, p: Event -> bool)
    requires n <= |log| && forall i :: 0 <= i < n ==> !p(log[i])
    ensures CountBelow(n, At(log, p)) == 0
  {
    if n > 0 {
      CountPrefix(log, n - 1, p);
    }
  }

  lemma CountTail(log: seq<Event>, n: nat, p: Event -> bool)
    requires n + 2 <= |log| <= n + 3 && forall i :: 0 <= i < n ==> !p(log[i])
    ensures CountBelow(|log|, At(log, p)) ==
            (if p(log[n]) then 1 else 0) + (if p(log[n + 1]) then 1 else 0)
            + (if |log| == n + 3 && p(log[n + 2]) then 1 else 0)
  {
    CountPrefix(log, n, p);
    var q := At(log, p);
    assert CountBelow(n + 1, q) == if q(n) then 1 else 0;
    assert CountBelow(n + 2, q) == CountBelow(n + 1, q) + if q(n + 1) then 1 else 0;
  }

  // The events that answer the client and account for the request, and the code they agree on.
  ghost predicate Settled(log: seq<Event>, n: nat, code: int, outcome: string) {
    && outcome == OutcomeOf(code)
    && ((|log| == n + 2 && log[n].UsageRecorded? && log[n + 1].ErrorResponse? && code >= 400
         && log[n + 1].code == code == log[n].record.statusCode && log[n].record.outcome == outcome)
        || (|log| == n + 3 && log[n].Status? && log[n].code == code && log[n + 1].Body? && log[n + 2].UsageRecorded?
            && log[n + 2].record.statusCode == code == log[n + 2].record.upstreamStatus
            && log[n + 2].record.outcome == outcome))
  }

  lemma ExitSettles(req: Request, maxRetries: int, turns: seq<Turn>, room: nat, log: seq<Event>, n: nat)
    requires RelayedIn(req, maxRetries, turns, room, log, n)
    ensures (exists code, outcome :: Settled(log, n, code, outcome)) || log[n..] == [Aborted]
    ensures log[n..] == [Aborted] ==> n < |turns| && SelectAt(req, turns[n], Ids(log[..n])).Panicked?
    ensures forall i :: 0 <= i < n ==> log[i].Attempt?
  {
    hide Flat, Ids, LastError, LastProvider, Received, ReplayableBody, SelectAt, ShouldRetry;
    forall i | 0 <= i < n ensures log[i].Attempt? {
      assert TriedAt(req, turns, log, i);
    }
    var tail := log[n..];
    assert forall k :: 0 <= k < |tail| ==> tail[k] == log[n + k];
    if tail != [Aborted] {
      if |tail| == 3 {
        var code := turns[n - 1].reply.status;
        assert Settled(log, n, code, OutcomeOf(code)) by {
          assert log[n] == tail[0] && log[n + 1] == tail[1] && log[n + 2] == tail[2];
        }
      } else {
        var code := tail[1].code;
        assert Settled(log, n, code, OUTCOME_FAILED) by {
          assert log[n] == tail[0] && log[n + 1] == tail[1];
        }
      }
    }
  }

  lemma SettledCounts(log: seq<Event>, n: nat, code: int, outcome: string)
    requires Settled(log, n, code, outcome) && n <= |log|
    requires forall i :: 0 <= i < n ==> log[i].Attempt?
    ensures CountBelow(|log|, At(log, IsResponse)) == 1
    ensures CountBelow(|log|, At(log, (e: Event) => e.UsageRecorded?)) == 1
    ensures forall i, j :: 0 <= i < j < |log| && IsCommit(log[i]) ==> !log[j].Attempt?
  {
    CountTail(log, n, IsResponse);
    CountTail(log, n, (e: Event) => e.UsageRecorded?);
  }

  // A relay breaks off exactly when it comes to a selection whose candidates weigh too much;
  // otherwise it answers the client exactly once, records usage exactly once with the same
  // status, and sends nothing upstream after anything was committed to the client.
  lemma OneAnswer(req: Request, maxRetries: int, turns: seq<Turn>, room: nat, log: seq<Event>)
    requires Relayed(req, maxRetries, turns, room, log)
    ensures CountBelow(|log|, At(log, IsResponse)) == if Aborted in log then 0 else 1
    ensures CountBelow(|log|, At(log, (e: Event) => e.UsageRecorded?)) == if Aborted in log then 0 else 1
    ensures Aborted !in log ==> exists n, code, outcome :: 0 <= n <= |log| && Settled(log, n, code, outcome)
    ensures forall i, j :: 0 <= i < j < |log| && IsCommit(log[i]) ==> !log[j].Attempt?
  {
    hide BuildIndex, CapabilityOf, CountBelow, ExitAfter, Ids, IsResponse, Select, TriedAt;
    if !req.supportedFormat {
      assert Settled(log, 0, 500, OUTCOME_FAILED);
      SettledCounts(log, 0, 500, OUTCOME_FAILED);
    } else {
      var n: nat :| RelayedIn(req, maxRetries, turns, room, log, n);
      ExitSettles(req, maxRetries, turns, room, log, n);
      if log[n..] == [Aborted] {
        AbortedCounts(log, n);
      } else {
        var code, outcome :| Settled(log, n, code, outcome);
        SettledCounts(log, n, code, outcome);
      }
    }
  }

  lemma AbortedCounts(log: seq<Event>, n: nat)
    requires n <= |log| && log[n..] == [Aborted] && forall i :: 0 <= i < n ==> log[i].Attempt?
    ensures Aborted in log
    ensures CountBelow(|log|, At(log, IsResponse)) == 0
    ensures CountBelow(|log|, At(log, (e: Event) => e.UsageRecorded?)) == 0
    ensures forall i, j :: 0 <= i < j < |log| && IsCommit(log[i]) ==> !log[j].Attempt?
  {
    assert |log| == n + 1 && log[n] == log[n..][0] == Aborted;
    CountPrefix(log, |log|, IsResponse);
    CountPrefix(log, |log|, (e: Event) => e.UsageRecorded?);
  }

  // The exact condition, in terms of what the last selection of the run met.
  lemma AbortsExactly(req: Request, maxRetries: int, turns: seq<Turn>, room: nat, log: seq<Event>, n: nat)
    requires RelayedIn(req, maxRetries, turns, room, log, n)
    ensures Aborted in log <==>
              && n <= maxRetries && n < |turns| && (n > 0 ==> Retryable(turns[n - 1].reply))
              && PanickyFor(BuildIndex(turns[n].providers), req.model, CapabilityOf(req.kind), Ids(log[..n]))
  {
    hide BuildIndex, Select, PanickyFor, Flat, Received, ReplayableBody, Ids, ShouldRetry;
    ExitSettles(req, maxRetries, turns, room, log, n);
    if n < |turns| {
      SelectPanicsExactly(BuildIndex(turns[n].providers), req.model, CapabilityOf(req.kind), Ids(log[..n]), turns[n].draw);
    }
    if log[n..] == [Aborted] {
      AbortedCounts(log, n);
    }
  }

  // The usage record names the model, the endpoint and the provider attempted last; a failure
  // after attempts reports the error of the last one.
  lemma ExitReports(
      req: Request, maxRetries: int, turns: seq<Turn>, room: nat, log: seq<Event>, n: nat)
    requires RelayedIn(req, maxRetries, turns, room, log, n) && log[n..] != [Aborted]
    ensures n <= |log| && forall i :: 0 <= i < n ==> log[i].Attempt?
    ensures exists record :: UsageRecorded(record) in log[n..] && record.modelID == req.model
                             && record.capability == CapabilityOf(req.kind) && record.completedAt == req.finishedAt
                             && record.selected == if n == 0 then None else Some(log[n - 1].provider)
    ensures forall code, errorCode, message :: n > 0 && ErrorResponse(code, errorCode, message) in log[n..] ==>
              && Retryable(turns[n - 1].reply) && code == 502 && errorCode == "upstream_error"
              && (turns[n - 1].reply.SendError? ==> message == SendFailed(turns[n - 1].reply.reason))
              && (turns[n - 1].reply.Response? ==> message == UpstreamStatus(turns[n - 1].reply.status))
  {
    hide Flat, Ids, Received, ReplayableBody, SelectAt, ShouldRetry, CapabilityOf;
    forall i | 0 <= i < n ensures log[i].Attempt? {
      assert TriedAt(req, turns, log, i);
    }
    var tail := log[n..];
    var usage := if |tail| == 3 then tail[2] else tail[0];
    assert usage in tail && usage.UsageRecorded?;
    assert usage == UsageRecorded(usage.record);
  }

  lemma RetriedWithin(req: Request, maxRetries: int, turns: seq<Turn>, room: nat, log: seq<Event>, n: nat)
    requires RelayedIn(req, maxRetries, turns, room, log, n)
    ensures forall code, cacheState :: Status(code, cacheState) in log ==> code != 429 && code < 500
    ensures forall i :: 0 <= i < n - 1 ==>
              turns[i].reply.SendError? || turns[i].reply.status == 429 || turns[i].reply.status >= 500
  {
    hide Flat, Ids, Received, ReplayableBody, EncodeFor, SelectAt, CapabilityOf, OutcomeOf, LastProvider, LastError;
    AttemptsFirst(req, maxRetries, turns, room, log, n);
    forall code, cacheState | Status(code, cacheState) in log
      ensures code != 429 && code < 500
    {
      var k :| 0 <= k < |log| && log[k] == Status(code, cacheState);
      assert log[n..][k - n] == log[k];
    }
  }

  lemma AttemptsFirst(req: Request, maxRetries: int, turns: seq<Turn>, room: nat, log: seq<Event>, n: nat)
    requires RelayedIn(req, maxRetries, turns, room, log, n)
    ensures forall i :: 0 <= i < |log| ==> (log[i].Attempt? <==> i < n)
    ensures n > 0 && turns[n - 1].reply.Response? && turns[n - 1].reply.status != 429 && turns[n - 1].reply.status < 500 ==>
              n < |log| && log[n] == Status(turns[n - 1].reply.status, turns[n - 1].reply.cacheState)
  {
    hide Flat, Ids, Received, ReplayableBody, EncodeFor, SelectAt, CapabilityOf, OutcomeOf, LastProvider, LastError;
    forall i | 0 <= i < n ensures log[i].Attempt? {
      assert TriedAt(req, turns, log, i);
    }
    var tail := log[n..];
    assert forall k :: n <= k < |log| ==> log[k] == tail[k - n];
  }

  // What is retried: send errors, 429 and everything from 500 on, and nothing else. No such
  // status reaches the client; an attempt answered with any other status is the last one, and
  // the client gets that status.
  lemma RetriedExactly(req: Request, maxRetries: int, turns: seq<Turn>, room: nat, log: seq<Event>)
    requires Relayed(req, maxRetries, turns, room, log)
    ensures forall code, cacheState :: Status(code, cacheState) in log ==> code != 429 && code < 500
    ensures forall i :: 0 <= i < |log| - 1 && log[i].Attempt? && log[i + 1].Attempt? ==>
              i < |turns| && (turns[i].reply.SendError? || turns[i].reply.status == 429 || turns[i].reply.status >= 500)
    ensures forall i :: 0 <= i < |log| && log[i].Attempt? ==> i < |turns|
    ensures forall i :: 0 <= i < |log| && log[i].Attempt? && turns[i].reply.Response?
                        && turns[i].reply.status != 429 && turns[i].reply.status < 500 ==>
              i + 1 < |log| && log[i + 1] == Status(turns[i].reply.status, turns[i].reply.cacheState)
  {
    hide ExitAfter, TriedAt, CapabilityOf;
    if req.supportedFormat {
      var n: nat :| RelayedIn(req, maxRetries, turns, room, log, n);
      RetriedWithin(req, maxRetries, turns, room, log, n);
      AttemptsFirst(req, maxRetries, turns, room, log, n);
    }
  }

  // Every attempt goes to a provider that serves the endpoint asked for.
  lemma AttemptsCapable(req: Request, maxRetries: int, turns: seq<Turn>, room: nat, log: seq<Event>, n: nat, i: nat)
    requires RelayedIn(req, maxRetries, turns, room, log, n) && i < n
    ensures log[i].Attempt?
    ensures req.kind == Endpoint.ChatCompletions ==> log[i].provider.Supports("openai.chat_completions")
    ensures req.kind == Endpoint.Completions ==> log[i].provider.Supports("openai.completions")
  {
    hide BuildIndex, Select, IdsFor, TrimSpace, ReplayableBody, EncodeFor, NormalizeCapability, Provider.NormalizedCapabilities,
      ExitAfter;
    assert TriedAt(req, turns, log, i);
    var ix, cap := BuildIndex(turns[i].providers), CapabilityOf(req.kind);
    SelectedIsUsable(ix, req.model, cap, Ids(log[..i]), turns[i].draw);
    NormalizeCapabilityIdempotent(cap);
  }

  // Without an attempt the answer is 502 with no error to report when the configured number of
  // retries is negative, and 503 when nothing could be selected; it is never anything else.
  lemma AnsweredUnattempted(req: Request, maxRetries: int, turns: seq<Turn>, room: nat, log: seq<Event>)
    requires RelayedIn(req, maxRetries, turns, room, log, 0) && Aborted !in log
    ensures |log| == 2 && log[1].ErrorResponse?
    ensures log[1].code == if maxRetries < 0 then 502 else 503
    ensures maxRetries < 0 ==> log[1].message == NoMessage
  {
    hide SelectAt, Ids;
    assert log[0..] == log;
  }

  // A negative number of retries makes no attempt, whatever the cache holds.
  lemma NegativeRetries(req: Request, maxRetries: int, turns: seq<Turn>, room: nat, log: seq<Event>)
    requires req.supportedFormat && Relayed(req, maxRetries, turns, room, log)
    ensures maxRetries < 0 <==> log == FailureExit(req, None, 502, "upstream_error", NoMessage)
  {
    hide SelectAt, Ids, Flat, Received, ReplayableBody;
    var n: nat :| RelayedIn(req, maxRetries, turns, room, log, n);
    assert log[0..] == log;
    assert n > 0 ==> TriedAt(req, turns, log, 0);
  }

  // ---------- Request bodies ----------

  // Every attempt carries the client's fields: no group, the provider's own model name, all else
  // untouched and independent of the attempts before it.
  lemma BodiesReplayed(
      req: Request, maxRetries: int, turns: seq<Turn>, room: nat, log: seq<Event>, n: nat, i: nat, key: string)
    requires RelayedIn(req, maxRetries, turns, room, log, n) && i < n
    ensures log[i].Attempt?
    ensures var body := log[i].body;
            && "group" !in body && "model" in body
            && (exists p: Provider :: p == log[i].provider && SelectAt(req, turns[i], Ids(log[..i])) == Selected(p)
                            && body["model"] == Quoted(p.UpstreamModel(req.model)))
            && (key != "group" && key != "model" ==>
                  (key in body <==> key in req.fields) && (key in body ==> body[key] == req.fields[key]))
  {
    hide SelectAt;
    assert TriedAt(req, turns, log, i);
    assert "group" != "model" by {
      assert "group"[0] != "model"[0];
    }
  }

  // ---------- A steady cache whose providers all fail ----------

  ghost function EligibleIds(ps: seq<Provider>, req: Request): set<nat> {
    set p | p in ps && Eligible(ps, p, req.model, CapabilityOf(req.kind), {}) :: p.id
  }

  ghost predicate SteadyFailure(ps: seq<Provider>, req: Request, maxRetries: int, turns: seq<Turn>) {
    && OwnRows(ps) && TrimSpace(req.model) != ""
    && (forall ex :: !PanickyFor(BuildIndex(ps), req.model, CapabilityOf(req.kind), ex))
    && 0 <= maxRetries < |turns|
    && forall i :: 0 <= i < |turns| ==> turns[i].providers == ps && Retryable(turns[i].reply)
  }

  lemma EligibleSplits(ps: seq<Provider>, p: Provider, model: string, capability: string, excluded: set<nat>)
    ensures Eligible(ps, p, model, capability, excluded) <==>
            Eligible(ps, p, model, capability, {}) && p.id !in excluded
  {
  }

  // Attempt i goes to an eligible provider of highest priority among those not yet attempted.
  ghost predicate RankedAt(ps: seq<Provider>, req: Request, log: seq<Event>, i: int) {
    0 <= i < |log| && log[i].Attempt? &&
    exists p :: TopEligible(ps, p, req.model, CapabilityOf(req.kind), Ids(log[..i])) && p.id == log[i].provider.id
  }

  lemma SteadyAttempt(
      ps: seq<Provider>, req: Request, maxRetries: int, turns: seq<Turn>, room: nat, log: seq<Event>, n: nat, i: nat)
    requires SteadyFailure(ps, req, maxRetries, turns) && RelayedIn(req, maxRetries, turns, room, log, n) && i < n
    ensures RankedAt(ps, req, log, i)
    ensures log[i].provider.id in EligibleIds(ps, req)
  {
    hide BuildIndex, ExitAfter, Provider.Defaulted, Provider.Lists, ReplayableBody, Retryable, Select,
      TrimSpace, PanickyFor;
    assert TriedAt(req, turns, log, i);
    var p :| SelectAt(req, turns[i], Ids(log[..i])) == Selected(p)
             && log[i] == Attempt(p, EncodeFor(ReplayableBody(req.fields), p, req.model));
    SelectRefinesScan(ps, req.model, CapabilityOf(req.kind), Ids(log[..i]), turns[i].draw);
    var q :| TopEligible(ps, q, req.model, CapabilityOf(req.kind), Ids(log[..i])) && p == q.Defaulted();
    DefaultedKeepsRank(q);
    assert Eligible(ps, q, req.model, CapabilityOf(req.kind), Ids(log[..i]));
    EligibleSplits(ps, q, req.model, CapabilityOf(req.kind), Ids(log[..i]));
    assert q in ps;
  }

  lemma {:induction false} IdsCount(log: seq<Event>, k: nat)
    requires k <= |log| && forall i :: 0 <= i < k ==> log[i].Attempt?
    requires forall i, j :: 0 <= i < j < k ==> log[i].provider.id != log[j].provider.id
    ensures |Ids(log[..k])| == k
    ensures forall i :: 0 <= i < k ==> log[i].provider.id in Ids(log[..k])
  {
    hide Ids;
    if k == 0 {
      NoIds(log);
    } else {
      IdsCount(log, k - 1);
      IdsSnoc(log, k - 1);
    }
  }

  lemma NoIds(log: seq<Event>)
    ensures Ids(log[..0]) == {}
  {
  }

  lemma IdsSnoc(log: seq<Event>, k: nat)
    requires k < |log| && log[k].Attempt?
    ensures Ids(log[..k + 1]) == Ids(log[..k]) + {log[k].provider.id}
    ensures forall id :: id in Ids(log[..k]) ==> exists i :: 0 <= i < k && log[i].Attempt? && log[i].provider.id == id
  {
    assert log[..k + 1] == log[..k] + [log[k]];
    forall id | id in Ids(log[..k])
      ensures exists i :: 0 <= i < k && log[i].Attempt? && log[i].provider.id == id
    {
      var e :| e in log[..k] && e.Attempt? && e.provider.id == id;
      var i :| 0 <= i < k && log[..k][i] == e;
      assert log[i] == e;
    }
  }

  // The loop stops before its bound only when every eligible provider has been attempted.
  lemma SteadyStops(
      ps: seq<Provider>, req: Request, maxRetries: int, turns: seq<Turn>, room: nat, log: seq<Event>, n: nat)
    requires SteadyFailure(ps, req, maxRetries, turns) && RelayedIn(req, maxRetries, turns, room, log, n)
    ensures n <= maxRetries ==> EligibleIds(ps, req) <= Ids(log[..n])
    ensures |log| == n + 2 && log[n + 1].ErrorResponse?
    ensures log[n + 1].code == if n == 0 then 503 else 502
  {
    hide Eligible, ForwardExit, Provider.Defaulted, Retryable, Select, TopEligible, TriedAt, TrimSpace,
      PanickyFor;
    if n <= maxRetries {
      var ex := Ids(log[..n]);
      SelectRefinesScan(ps, req.model, CapabilityOf(req.kind), ex, turns[n].draw);
      SelectPanicsExactly(BuildIndex(ps), req.model, CapabilityOf(req.kind), ex, turns[n].draw);
      assert !SelectAt(req, turns[n], ex).Selected?;
      forall id | id in EligibleIds(ps, req) ensures id in ex {
        var p :| p in ps && Eligible(ps, p, req.model, CapabilityOf(req.kind), {}) && p.id == id;
        EligibleSplits(ps, p, req.model, CapabilityOf(req.kind), ex);
      }
    }
    var tail := log[n..];
    assert tail[1] == log[n + 1];
  }

  // With a steady cache and nothing but retryable failures, the relay makes min(maxRetries + 1,
  // eligible) attempts, all on different providers, each on one of highest priority among the
  // rest; it answers 503 exactly when nothing was eligible, and 502 otherwise.
  lemma SteadyFailureRun(
      ps: seq<Provider>, req: Request, maxRetries: int, turns: seq<Turn>, room: nat, log: seq<Event>, n: nat)
    requires SteadyFailure(ps, req, maxRetries, turns) && RelayedIn(req, maxRetries, turns, room, log, n)
    ensures n == if |EligibleIds(ps, req)| <= maxRetries then |EligibleIds(ps, req)| else maxRetries + 1
    ensures forall i, j :: 0 <= i < j < n ==> log[i].Attempt? && log[j].Attempt? && log[i].provider.id != log[j].provider.id
    ensures forall i :: 0 <= i < n ==> RankedAt(ps, req, log, i)
    ensures |log| == n + 2 && log[n + 1].ErrorResponse?
    ensures log[n + 1].code == if EligibleIds(ps, req) == {} then 503 else 502
  {
    hide BuildIndex, EligibleIds, ExitAfter, TopEligible, TrimSpace;
    var eligible := EligibleIds(ps, req);
    assert 0 <= n <= maxRetries + 1 && maxRetries >= 0;
    SteadyStops(ps, req, maxRetries, turns, room, log, n);
    forall i | 0 <= i < n
      ensures RankedAt(ps, req, log, i) && log[i].Attempt? && log[i].provider.id in eligible
    {
      SteadyAttempt(ps, req, maxRetries, turns, room, log, n, i);
      assert log[i].Attempt?;
    }
    forall i, j | 0 <= i < j < n ensures log[i].provider.id != log[j].provider.id {
      AttemptsDistinct(req, maxRetries, turns, room, log, n, i, j);
    }
    IdsCount(log, n);
    var tried := Ids(log[..n]);
    assert tried <= eligible;
    SubsetSize(tried, eligible);
    if n <= maxRetries {
      assert tried == eligible;
    }
  }

  lemma SubsetSize<T>(a: set<T>, b: set<T>)
    requires a <= b
    ensures |a| <= |b|
  {
    assert b == a + (b - a);
  }

  // ---------- When no provider was found ----------

  // The relay answers 503 exactly when its first selection found no provider, and then only if
  // it was allowed an attempt at all.
  lemma NotFoundExactly(req: Request, maxRetries: int, turns: seq<Turn>, room: nat, log: seq<Event>, n: nat)
    requires RelayedIn(req, maxRetries, turns, room, log, n)
    requires |turns| > 0 && OwnRows(turns[0].providers)
    ensures (|log| == n + 2 && log[n + 1].ErrorResponse? && log[n + 1].code == 503) <==>
            maxRetries >= 0 && (TrimSpace(req.model) == "" ||
              !exists p :: Eligible(turns[0].providers, p, req.model, CapabilityOf(req.kind), {}))
  {
    hide BuildIndex, Eligible, Provider.Defaulted, Provider.Lists, Select, TopEligible, TrimSpace;
    var ps := turns[0].providers;
    var tail := log[n..];
    assert |tail| > 1 ==> tail[1] == log[n + 1];
    SelectRefinesScan(ps, req.model, CapabilityOf(req.kind), {}, turns[0].draw);
    assert Ids(log[..0]) == {};
    if n > 0 {
      assert TriedAt(req, turns, log, 0);
    }
  }
}
