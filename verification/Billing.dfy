/** From the relay to the ledger: what a relayed request leaves to be billed. */
module Billing {
  import opened Wrappers
  import opened Text
  import opened Providers
  import opened Pricing
  import opened Ledger
  import opened Usage
  import opened Relay
  import opened RelayProperties

  // The provider a log attempted last.
  function LastAttempt(log: seq<Event>): Option<Provider> {
    if log == [] then None
    else if log[|log| - 1].Attempt? then Some(log[|log| - 1].provider)
    else LastAttempt(log[..|log| - 1])
  }

  // The client was answered with the code, and with what the upstream said of its cache if it was
  // the upstream's answer.
  ghost predicate AnsweredWith(log: seq<Event>, code: int, cacheState: string) {
    exists e :: e in log && (e == Status(code, cacheState) || (e.ErrorResponse? && e.code == code && cacheState == ""))
  }

  // The error code the client was told, without an upstream status; or the status of an
  // upstream's own answer, without an error code.
  ghost predicate ErrorTold(log: seq<Event>, errorCode: string, upstreamStatus: int) {
    exists e :: e in log &&
      if e.ErrorResponse? then e.errorCode == errorCode && upstreamStatus == 0
      else e.Status? && errorCode == "" && upstreamStatus == e.code
  }

  // The record of a relay agrees with what the client was told and with the last attempt.
  ghost predicate Reports(req: Request, log: seq<Event>, record: UsageRecord) {
    && (forall r :: UsageRecorded(r) in log <==> r == record)
    && AnsweredWith(log, record.statusCode, record.cacheState) && record.outcome == OutcomeOf(record.statusCode)
    && record.modelID == req.model && record.capability == CapabilityOf(req.kind)
    && record.selected == LastAttempt(log) && record.completedAt == req.finishedAt
    && ErrorTold(log, record.errorCode, record.upstreamStatus)
  }

  lemma {:induction false} LastOfAttempts(log: seq<Event>, n: nat)
    requires n <= |log| && (forall i :: 0 <= i < n ==> log[i].Attempt?)
    requires forall i :: n <= i < |log| ==> !log[i].Attempt?
    ensures LastAttempt(log) == if n == 0 then None else Some(log[n - 1].provider)
  {
    if n < |log| {
      LastOfAttempts(log[..|log| - 1], n);
    }
  }

  lemma FailureReports(
      req: Request, log: seq<Event>, n: nat, code: int, errorCode: string, message: Message)
    requires n <= |log| && (forall i :: 0 <= i < n ==> log[i].Attempt?) && code >= 400
    requires log[n..] == FailureExit(req, if n == 0 then None else Some(log[n - 1].provider), code, errorCode, message)
    ensures exists record :: Reports(req, log, record)
  {
    hide LastAttempt;
    assert |log| == n + 2 && log[n] == log[n..][0] && log[n + 1] == log[n..][1];
    LastOfAttempts(log, n);
    var record := log[n].record;
    assert log[n] == UsageRecorded(record);
    assert Reports(req, log, record);
  }

  lemma ForwardReports(req: Request, log: seq<Event>, n: nat, reply: Reply, room: nat)
    requires 0 < n <= |log| && (forall i :: 0 <= i < n ==> log[i].Attempt?) && reply.Response?
    requires log[n..] == ForwardExit(req, log[n - 1].provider, reply, room)
    ensures exists record :: Reports(req, log, record)
  {
    hide LastAttempt, Received, Flat;
    assert |log| == n + 3 && log[n] == log[n..][0] && log[n + 1] == log[n..][1] && log[n + 2] == log[n..][2];
    LastOfAttempts(log, n);
    var record := log[n + 2].record;
    assert log[n + 2] == UsageRecorded(record);
    assert Reports(req, log, record);
  }

  // Every relay that was not cut off hands over one record, about the answer it gave and the
  // provider it attempted last.
  lemma RelayReports(req: Request, maxRetries: int, turns: seq<Turn>, room: nat, log: seq<Event>)
    requires Relayed(req, maxRetries, turns, room, log) && Aborted !in log
    ensures exists record :: Reports(req, log, record)
  {
    hide Reports, SelectAt, Ids, ForwardExit, FailureExit, CapabilityOf;
    if !req.supportedFormat {
      assert log[0..] == log;
      FailureReports(req, log, 0, 500, "unsupported_relay_format", NoMessage);
    } else {
      var n: nat :| RelayedIn(req, maxRetries, turns, room, log, n);
      ExitSettles(req, maxRetries, turns, room, log, n);
      if log[n..] == [Aborted] {
        AbortedCounts(log, n);
        assert false;
      } else if n > 0 && !Retryable(turns[n - 1].reply) {
        ForwardReports(req, log, n, turns[n - 1].reply, room);
      } else if n > maxRetries || n > 0 {
        FailureReports(req, log, n, 502, "upstream_error", LastError(turns, n));
      } else {
        FailureReports(req, log, 0, 503, "model_not_found", Unselected(SelectAt(req, turns[0], Ids(log[..0]))));
      }
    }
  }

  // One event stands in the books for the relay, and says what the client was told.
  ghost predicate EventLeft(
    req: Request, log: seq<Event>, caller: Caller, eventID: string, next: Books, e: UsageEvent)
  {
    && (forall x :: x in next.events && x.eventID == eventID <==> x == e)
    && (exists cacheState :: AnsweredWith(log, e.statusCode, cacheState) && e.cacheState == CacheOf(cacheState))
    && e.outcome == (if e.statusCode >= 400 then "failed" else "success")
    && e.modelID == TrimSpace(req.model) && e.accountID == caller.accountID && e.apiKeyID == caller.apiKeyID
    && ChannelBehind(e.channelID, LastAttempt(log)) && e.completedAt == req.finishedAt
    && e.providerID == (if LastAttempt(log).Some? then LastAttempt(log).value.id else 0)
    && e.capability == TrimSpace(CapabilityOf(req.kind)) && ErrorTold(log, e.errorCode, e.upstreamStatus)
  }

  // One charge stands for the event, priced for the caller, the model, the cache state told and
  // the channel behind the provider attempted last.
  ghost predicate ChargeLeft(
    req: Request, log: seq<Event>, caller: Caller, now: int, next: Books, e: UsageEvent, c: Charge)
  {
    && (forall x :: x in next.charges && x.usageEventID == e.id <==> x == c)
    && c == ChargeFor(e, Resolve(next.prices,
                                 Query(caller.accountID, TrimSpace(req.model), e.channelID,
                                       CLASS_REQUEST, e.cacheState, req.finishedAt), now))
  }

  ghost predicate Unbilled(b: Books, next: Books) {
    next == b
  }

  ghost predicate Uncharged(req: Request, log: seq<Event>, caller: Caller, eventID: string, next: Books) {
    exists e :: EventLeft(req, log, caller, eventID, next, e) && !HasCharge(next.charges, e.id)
  }

  ghost predicate Billed(req: Request, log: seq<Event>, caller: Caller, eventID: string, now: int, next: Books) {
    exists e, c :: EventLeft(req, log, caller, eventID, next, e) && ChargeLeft(req, log, caller, now, next, e, c)
  }

  lemma NewEventLeft(req: Request, log: seq<Event>, record: UsageRecord, caller: Caller, token: string, now: int, b: Books)
    requires Reports(req, log, record) && req.finishedAt != 0
    requires !HasEvent(b.events, EventIDFor(token, CapabilityOf(req.kind)))
    ensures var e := NewEvent(b, caller, token, record, now);
            forall next: Books :: next.events == b.events + [e] ==>
              && EventLeft(req, log, caller, EventIDFor(token, CapabilityOf(req.kind)), next, e)
              && forall x :: EventLeft(req, log, caller, EventIDFor(token, CapabilityOf(req.kind)), next, x) ==> x == e
  {
    hide EventIDFor, UsageEvent.Defaulted, FreshEventId, CapabilityOf, AnsweredWith, LastAttempt, TrimSpace;
    EventDefaults(caller, token, record, now);
  }

  // How far the recording of an uncut relay by an accountable caller gets decides exactly what is
  // left: nothing if the client was lost or the event write fails, one event and no charge if
  // only the charge write fails, and one event and one charge otherwise.
  lemma RelayIsBilledExactly(
      req: Request, maxRetries: int, turns: seq<Turn>, room: nat, log: seq<Event>,
      b: Books, caller: Option<Caller>, token: string, now: int, fault: Fault)
    requires Relayed(req, maxRetries, turns, room, log) && Aborted !in log && req.finishedAt != 0
    requires Accountable(caller)
    requires Sound(b) && !HasEvent(b.events, EventIDFor(token, CapabilityOf(req.kind)))
    ensures exists record :: Reports(req, log, record)
              && var lost := ClientLost(turns, room, log);
                 var next := Kept(b, caller, token, record, now, FaultOf(lost, fault));
                 var eventID := EventIDFor(token, CapabilityOf(req.kind));
                 && Sound(next) && Extends(b, next)
                 && (Unbilled(b, next) <==> lost || fault.EventFails?)
                 && (Uncharged(req, log, caller.value, eventID, next) <==> !lost && fault.ChargeFails?)
                 && (Billed(req, log, caller.value, eventID, now, next) <==> !lost && fault.NoFault?)
  {
    hide Relayed, Reports, ClientLost;
    RelayReports(req, maxRetries, turns, room, log);
    var record :| Reports(req, log, record);
    KeptExactly(req, log, record, b, caller, token, now, FaultOf(ClientLost(turns, room, log), fault));
  }

  lemma KeptExactly(
      req: Request, log: seq<Event>, record: UsageRecord,
      b: Books, caller: Option<Caller>, token: string, now: int, fault: Fault)
    requires Reports(req, log, record) && req.finishedAt != 0 && Accountable(caller)
    requires Sound(b) && !HasEvent(b.events, EventIDFor(token, CapabilityOf(req.kind)))
    ensures var next := Kept(b, caller, token, record, now, fault);
            var eventID := EventIDFor(token, CapabilityOf(req.kind));
            && Sound(next) && Extends(b, next)
            && (Unbilled(b, next) <==> fault.EventFails?)
            && (Uncharged(req, log, caller.value, eventID, next) <==> fault.ChargeFails?)
            && (Billed(req, log, caller.value, eventID, now, next) <==> fault.NoFault?)
  {
    hide Sound, EventIDFor, UsageEvent.Defaulted, Resolve, FreshEventId, Recorded, CapabilityOf, AnsweredWith,
      LastAttempt, TrimSpace, InsertEvent;
    var who := caller.value;
    var event := EventFor(who, token, record, now);
    EventDefaults(who, token, record, now);
    EventKeepsSound(b, event.Defaulted(now));
    RecordedIsSound(b, event, now);
    FirstRecording(b, who, token, record, now);
    NewEventLeft(req, log, record, who, token, now, b);
    var next := Kept(b, caller, token, record, now, fault);
    var eventID := EventIDFor(token, CapabilityOf(req.kind));
    var e := NewEvent(b, who, token, record, now);
    if fault.NoFault? {
      assert ChargeLeft(req, log, who, now, next, e, NewCharge(b, e, now));
      assert NewCharge(b, e, now) in next.charges;
    } else if fault.ChargeFails? {
      assert |next.events| == |b.events| + 1;
      forall c ensures !ChargeLeft(req, log, who, now, next, e, c) {
        assert c in next.charges && c.usageEventID == e.id ==> HasCharge(b.charges, e.id);
      }
    } else {
      forall x ensures !EventLeft(req, log, who, eventID, next, x) {
        assert x in b.events && x.eventID == eventID ==> HasEvent(b.events, eventID);
      }
    }
  }

  // A client that could not take the whole response was sent the part it took, with the
  // upstream's status; and only a forwarded response can lose it.
  lemma LostClientExactly(
      req: Request, maxRetries: int, turns: seq<Turn>, room: nat, log: seq<Event>, n: nat)
    requires RelayedIn(req, maxRetries, turns, room, log, n)
    ensures ClientLost(turns, room, log) <==>
              n > 0 && !Retryable(turns[n - 1].reply) && room < |Flat(turns[n - 1].reply.chunks)|
    ensures ClientLost(turns, room, log) ==>
              var reply := turns[n - 1].reply;
              && AnsweredWith(log, reply.status, reply.cacheState) && Body(Flat(reply.chunks)[..room]) in log
  {
    hide RelayedIn, Flat, Retryable;
    OneStatus(req, maxRetries, turns, room, log, n);
    if n > 0 && !Retryable(turns[n - 1].reply) {
      assert log[n] in log && log[n + 1] in log;
    }
  }

  lemma OneStatus(
      req: Request, maxRetries: int, turns: seq<Turn>, room: nat, log: seq<Event>, n: nat)
    requires RelayedIn(req, maxRetries, turns, room, log, n)
    ensures n <= |turns|
    ensures forall k :: 0 <= k < |log| && log[k].Status? ==> k == n > 0 && !Retryable(turns[n - 1].reply)
    ensures n > 0 && !Retryable(turns[n - 1].reply) ==>
              var reply := turns[n - 1].reply;
              && n + 1 < |log| && reply.Response? && log[n] == Status(reply.status, reply.cacheState)
              && log[n + 1] == Body(Received(Flat(reply.chunks), room))
  {
    hide Ids, SelectAt, Flat, Received, ReplayableBody, EncodeFor, ShouldRetry, CapabilityOf, OutcomeOf, LastError,
      LastProvider, TriedAt;
    AttemptsFirst(req, maxRetries, turns, room, log, n);
    var tail := log[n..];
    assert forall k :: n <= k < |log| ==> log[k] == tail[k - n];
  }

  // ---------- One request from end to end ----------

  // The record in a log, if it was not cut off.
  function RecordIn(log: seq<Event>): Option<UsageRecord> {
    if log == [] then None
    else if log[|log| - 1].UsageRecorded? then Some(log[|log| - 1].record)
    else RecordIn(log[..|log| - 1])
  }

  lemma {:induction false} RecordFound(log: seq<Event>)
    ensures RecordIn(log).Some? ==> UsageRecorded(RecordIn(log).value) in log
    ensures RecordIn(log).None? ==> forall e :: e in log ==> !e.UsageRecorded?
  {
    if log != [] {
      RecordFound(log[..|log| - 1]);
      assert log == log[..|log| - 1] + [log[|log| - 1]];
    }
  }

  // Relays a request and records it under the request's context: what the client could not take
  // of its response decides whether the first write is still possible.
  method RelayAndRecord(
      store: Store, req: Request, maxRetries: int, turns: seq<Turn>, room: nat,
      caller: Option<Caller>, token: string, fallback: string, now: int, fault: Fault)
    returns (log: seq<Event>)
    requires |turns| > maxRetries
    modifies store
    ensures Relayed(req, maxRetries, turns, room, log)
    ensures Aborted in log ==> store.books == old(store.books)
    ensures Aborted !in log ==>
              exists record :: Reports(req, log, record)
                && store.books == Kept(old(store.books), caller, if token == "" then fallback else token, record, now,
                                       FaultOf(ClientLost(turns, room, log), fault))
    ensures ClientLost(turns, room, log) ==> store.books == old(store.books)
  {
    hide Relayed, Reports, ClientLost, Recorded, EventFor, InsertEvent;
    var lost;
    log, lost := RelayOpenAICompatible(req, maxRetries, turns, room);
    RecordFound(log);
    var record := RecordIn(log);
    if Aborted in log {
      CutOffUnrecorded(req, maxRetries, turns, room, log);
    } else {
      RelayReports(req, maxRetries, turns, room, log);
      ghost var reported :| Reports(req, log, reported);
      OnlyRecord(req, log, reported);
      RecordRelayUsage(store, caller, token, fallback, record.value, now, FaultOf(lost, fault));
    }
  }

  lemma OnlyRecord(req: Request, log: seq<Event>, record: UsageRecord)
    requires Reports(req, log, record)
    ensures UsageRecorded(record) in log && forall r :: UsageRecorded(r) in log ==> r == record
    ensures RecordIn(log) == Some(record)
  {
    hide AnsweredWith, LastAttempt;
    assert UsageRecorded(record) in log;
    RecordFound(log);
  }

  lemma CutOffUnrecorded(req: Request, maxRetries: int, turns: seq<Turn>, room: nat, log: seq<Event>)
    requires Relayed(req, maxRetries, turns, room, log) && Aborted in log
    ensures RecordIn(log) == None && !ClientLost(turns, room, log)
  {
    hide SelectAt, Ids, Flat, Received, ReplayableBody, EncodeFor, ShouldRetry;
    assert log[0..] == log;
    var n: nat :| RelayedIn(req, maxRetries, turns, room, log, n);
    ExitSettles(req, maxRetries, turns, room, log, n);
    CutOffTail(log, n);
    RecordFound(log);
  }

  lemma CutOffTail(log: seq<Event>, n: nat)
    requires n <= |log| && Aborted in log && forall i :: 0 <= i < n ==> log[i].Attempt?
    requires (exists code, outcome :: Settled(log, n, code, outcome)) || log[n..] == [Aborted]
    ensures forall e :: e in log ==> e.Attempt? || e == Aborted
  {
    if log[n..] == [Aborted] {
      assert |log| == n + 1 && log[n] == log[n..][0];
    }
  }
}
