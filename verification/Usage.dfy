/** Usage recording: the event of a request, its identifier, and the two writes that record it. */
module Usage {
  import opened Wrappers
  import opened Text
  import opened Providers
  import opened Pricing
  import opened Ledger

  // ---------- Event identifiers ----------

  predicate SafeChar(c: char) {
    'a' <= c <= 'z' || 'A' <= c <= 'Z' || '0' <= c <= '9' || c == '-' || c == '_' || c == ':'
  }

  function SafeChars(s: string): string {
    if s == "" then ""
    else SafeChars(s[..|s| - 1]) + if SafeChar(s[|s| - 1]) then [s[|s| - 1]] else []
  }

  function Sanitized(value: string): string {
    var s := SafeChars(TrimSpace(value));
    if s == "" then "request" else s
  }

  method SanitizeRequestID(value: string) returns (out: string)
    ensures out == Sanitized(value)
    ensures out != "" && forall i :: 0 <= i < |out| ==> SafeChar(out[i])
  {
    var v := TrimSpace(value);
    out := "";
    for i := 0 to |v|
      invariant out == SafeChars(v[..i])
      invariant forall k :: 0 <= k < |out| ==> SafeChar(out[k])
    {
      assert v[..i + 1][..i] == v[..i];
      if SafeChar(v[i]) {
        out := out + [v[i]];
      }
    }
    assert v[..|v|] == v;
    if out == "" {
      out := "request";
    }
  }

  lemma {:induction false} SafeCharsFixed(s: string)
    ensures forall i :: 0 <= i < |SafeChars(s)| ==> SafeChar(SafeChars(s)[i])
    ensures (forall i :: 0 <= i < |s| ==> SafeChar(s[i])) ==> SafeChars(s) == s
  {
    if s != "" {
      SafeCharsFixed(s[..|s| - 1]);
      assert s == s[..|s| - 1] + [s[|s| - 1]];
    }
  }

  // ASCII letters, digits, dash, underscore and colon are kept, wherever they stand, and nothing else.
  lemma SafeAlphabet(c: char)
    ensures var n := c as int;
            SafeChars([c]) ==
            if 48 <= n <= 57 || 65 <= n <= 90 || 97 <= n <= 122 || n == 45 || n == 95 || n == 58 then [c] else []
  {
    assert [c][..0] == "";
  }

  lemma {:induction false} SafeCharsConcat(a: string, b: string)
    ensures SafeChars(a + b) == SafeChars(a) + SafeChars(b)
  {
    if b == "" {
      assert a + b == a;
    } else {
      var n := |b| - 1;
      SafeCharsConcat(a, b[..n]);
      assert (a + b)[..|a| + n] == a + b[..n];
    }
  }

  lemma SanitizedTwice(value: string)
    ensures Sanitized(value) != "" && forall i :: 0 <= i < |Sanitized(value)| ==> SafeChar(Sanitized(value)[i])
    ensures Sanitized(Sanitized(value)) == Sanitized(value)
  {
    hide TrimSpace, SafeChars;
    var s := Sanitized(value);
    SafeCharsFixed(TrimSpace(value));
    SafeCharsFixed(s);
    TrimSpaceFixed(s);
  }

  function EventIDFor(token: string, capability: string): string {
    "relay:" + token + ":" + Sanitized(capability)
  }

  lemma {:induction false} FirstColon(a: string, x: string, b: string, y: string)
    requires ':' !in a && ':' !in b && a + ":" + x == b + ":" + y
    ensures a == b && x == y
  {
    var s, t := a + ":" + x, b + ":" + y;
    assert s[|a|] == ':' && t[|b|] == ':';
    assert forall i :: 0 <= i < |a| ==> s[i] == a[i];
    assert forall i :: 0 <= i < |b| ==> t[i] == b[i];
    assert |a| == |b|;
    assert a == s[..|a|] && b == t[..|b|];
    assert x == s[|a| + 1..] && y == t[|b| + 1..];
  }

  // Tokens are hexadecimal, so the identifier of an event tells its token and endpoint apart:
  // events of different requests never share an identifier.
  lemma EventIDInjective(token: string, capability: string, token': string, capability': string)
    requires ':' !in token && ':' !in token'
    ensures EventIDFor(token, capability) == EventIDFor(token', capability') <==>
            token == token' && Sanitized(capability) == Sanitized(capability')
  {
    var x, y := Sanitized(capability), Sanitized(capability');
    var s, t := token + ":" + x, token' + ":" + y;
    assert EventIDFor(token, capability) == "relay:" + s;
    assert EventIDFor(token', capability') == "relay:" + t;
    if EventIDFor(token, capability) == EventIDFor(token', capability') {
      assert s == ("relay:" + s)[6..] == ("relay:" + t)[6..] == t;
      FirstColon(token, x, token', y);
    }
  }

  // The save hook trims the identifier, which leaves it as it was built.
  lemma EventIDTrimmed(token: string, capability: string)
    ensures TrimSpace(EventIDFor(token, capability)) == EventIDFor(token, capability) != ""
  {
    hide TrimSpace, Sanitized;
    SanitizedTwice(capability);
    var s, id := Sanitized(capability), EventIDFor(token, capability);
    assert id[0] == 'r' && id[|id| - 1] == s[|s| - 1];
    TrimSpaceFixed(id);
  }

  // ---------- Recording ----------

  // What a relay reports of a request; selected is the provider attempted last.
  datatype UsageRecord = UsageRecord(
    modelID: string,
    selected: Option<Provider>,
    capability: string,
    outcome: string,
    statusCode: int,
    upstreamStatus: int,
    cacheState: string,
    errorCode: string,
    completedAt: int)

  datatype Caller = Caller(accountID: nat, apiKeyID: nat)

  // The platform channel behind a provider; legacy providers have none.
  function ChannelOf(selected: Option<Provider>): Option<nat> {
    if selected.Some? && selected.value.platformChannelID != 0 then Some(selected.value.platformChannelID) else None
  }

  // The channel is that of the provider, and there is none for a legacy provider or none at all.
  ghost predicate ChannelBehind(channelID: Option<nat>, selected: Option<Provider>) {
    match channelID
    case Some(id) => id != 0 && selected.Some? && id == selected.value.platformChannelID
    case None => selected.Some? ==> selected.value.platformChannelID == 0
  }

  // The cache state that is priced for a reported one.
  function CacheOf(reported: string): string {
    if TrimSpace(reported) == "" then CACHE_UNKNOWN else TrimSpace(reported)
  }

  function EventFor(caller: Caller, token: string, record: UsageRecord, now: int): UsageEvent {
    UsageEvent(
      0, EventIDFor(token, record.capability), caller.accountID, caller.apiKeyID, record.modelID,
      if record.selected.Some? then record.selected.value.id else 0, ChannelOf(record.selected),
      record.capability, CLASS_REQUEST,
      if record.cacheState == "" then CACHE_UNKNOWN else record.cacheState,
      if record.outcome == "" then OUTCOME_FAILED else record.outcome,
      record.statusCode, record.upstreamStatus, 1, record.errorCode,
      if record.completedAt == 0 then now else record.completedAt)
  }

  // Only a request that came with an account key is accounted for.
  predicate Accountable(caller: Option<Caller>) {
    caller.Some? && caller.value.accountID != 0 && caller.value.apiKeyID != 0
  }

  // The books after both writes: the charge is earned by the event found under the identifier.
  function Recorded(b: Books, event: UsageEvent, now: int): Books {
    var next := InsertEvent(b, event.Defaulted(now));
    match FindEvent(next.events, event.Defaulted(now).eventID)
    case None => next
    case Some(e) => InsertCharge(next, ChargeFor(e, Resolve(next.prices, e.PriceQuery(), now)))
  }

  // How far a recording gets: a write can be refused, the process can stop before it, and both
  // run under the request's own context, which ends when the client goes away.
  datatype Fault = NoFault | EventFails | ChargeFails

  // A client that is known to be gone has ended the context before the first write.
  function FaultOf(lost: bool, otherwise: Fault): Fault {
    if lost then EventFails else otherwise
  }

  // The books after a recording that gets that far.
  function Kept(b: Books, caller: Option<Caller>, token: string, record: UsageRecord, now: int, fault: Fault): Books {
    if !Accountable(caller) || fault.EventFails? then b
    else
      var event := EventFor(caller.value, token, record, now);
      if fault.ChargeFails? then InsertEvent(b, event.Defaulted(now)) else Recorded(b, event, now)
  }

  method RecordRelayUsage(
      store: Store, caller: Option<Caller>, token: string, fallback: string, record: UsageRecord, now: int, fault: Fault)
    modifies store
    ensures store.books == Kept(old(store.books), caller, if token == "" then fallback else token, record, now, fault)
  {
    hide Resolve, FindEvent, EventIDFor, UsageEvent.Defaulted, ChargeFor, InsertCharge, InsertEvent;
    if caller.None? || caller.value.accountID == 0 || caller.value.apiKeyID == 0 {
      return;
    }
    var eventToken := if token == "" then fallback else token;
    var event := EventFor(caller.value, eventToken, record, now);
    DefaultedID(event, eventToken, record.capability, now);
    if fault == EventFails {
      return;
    }
    var persisted := store.CreateUsageEvent(event, now);
    if persisted.Failure? || fault == ChargeFails {
      return;
    }
    var _ := store.CreateBillableChargeForEvent(persisted.value, now);
  }

  lemma DefaultedID(event: UsageEvent, token: string, capability: string, now: int)
    requires event.eventID == EventIDFor(token, capability)
    ensures event.Defaulted(now).eventID == event.eventID != ""
  {
    EventIDTrimmed(token, capability);
  }

  // After a recording the books hold one event under the identifier of the request and one
  // charge for it, and stay sound.
  lemma RecordedIsSound(b: Books, event: UsageEvent, now: int)
    requires Sound(b) && event.Defaulted(now).completedAt != 0
    ensures var next := Recorded(b, event, now);
            && Sound(next) && Extends(b, next)
            && exists e :: e in next.events && e.eventID == event.Defaulted(now).eventID && HasCharge(next.charges, e.id)
  {
    hide Sound, Extends, FindEvent, InsertEvent, InsertCharge, ChargeFor, UsageEvent.Defaulted, Resolve, HasCharge, PricedBy;
    var e := event.Defaulted(now);
    var b1 := InsertEvent(b, e);
    EventKeepsSound(b, e);
    var stored := FindEvent(b1.events, e.eventID).value;
    SoundEvents(b1, stored);
    PricedNow(b1, stored, now);
    var price := Resolve(b1.prices, stored.PriceQuery(), now);
    ChargeKeepsSound(b1, stored, price, |b1.prices|);
    var b2 := InsertCharge(b1, ChargeFor(stored, price));
    ExtendsBoth(b, b1, b2);
    assert stored in b2.events;
  }

  lemma SoundEvents(b: Books, e: UsageEvent)
    requires Sound(b) && e in b.events
    ensures e.completedAt != 0
  {
  }

  lemma ExtendsBoth(a: Books, b: Books, c: Books)
    requires Extends(a, b) && Extends(b, c)
    ensures Extends(a, c)
    ensures forall e :: e in b.events ==> e in c.events
  {
  }

  // The event a first recording leaves, and the charge it earns.
  function NewEvent(b: Books, caller: Caller, token: string, record: UsageRecord, now: int): UsageEvent {
    EventFor(caller, token, record, now).Defaulted(now).(id := FreshEventId(b.events))
  }

  function NewCharge(b: Books, e: UsageEvent, now: int): Charge {
    ChargeFor(e, Resolve(b.prices, e.PriceQuery(), now))
  }

  lemma FirstRecording(b: Books, caller: Caller, token: string, record: UsageRecord, now: int)
    requires Sound(b) && !HasEvent(b.events, EventIDFor(token, record.capability))
    ensures var e := NewEvent(b, caller, token, record, now);
            && Recorded(b, EventFor(caller, token, record, now), now) ==
               Books(b.events + [e], b.charges + [NewCharge(b, e, now)], b.prices)
            && InsertEvent(b, EventFor(caller, token, record, now).Defaulted(now)) == b.(events := b.events + [e])
            && !HasCharge(b.charges, e.id)
  {
    hide Sound, EventIDFor, UsageEvent.Defaulted, Resolve, FreshEventId;
    var event := EventFor(caller, token, record, now);
    var e := NewEvent(b, caller, token, record, now);
    EventDefaults(caller, token, record, now);
    assert InsertEvent(b, event.Defaulted(now)) == b.(events := b.events + [e]);
    FindNew(b.events, e);
    NoChargeYet(b);
  }

  // The first recording under an identifier charges the caller's account and key for one
  // request unit.
  lemma FirstRecordingCharges(b: Books, caller: Caller, token: string, record: UsageRecord, now: int)
    requires Sound(b) && !HasEvent(b.events, EventIDFor(token, record.capability))
    ensures exists e, c :: var next := Recorded(b, EventFor(caller, token, record, now), now);
              && e in next.events && e.eventID == EventIDFor(token, record.capability)
              && e.accountID == caller.accountID && e.apiKeyID == caller.apiKeyID
              && c in next.charges && c.usageEventID == e.id
              && c.accountID == caller.accountID && c.apiKeyID == caller.apiKeyID
              && c.billableUnits == 1 && c.usageClass == CLASS_REQUEST
  {
    hide Sound, EventIDFor, UsageEvent.Defaulted, Resolve, FreshEventId, Recorded;
    FirstRecording(b, caller, token, record, now);
    EventDefaults(caller, token, record, now);
    var next := Recorded(b, EventFor(caller, token, record, now), now);
    var e := NewEvent(b, caller, token, record, now);
    assert e == next.events[|b.events|] && NewCharge(b, e, now) == next.charges[|b.charges|];
  }

  lemma EventDefaults(caller: Caller, token: string, record: UsageRecord, now: int)
    ensures var e := EventFor(caller, token, record, now).Defaulted(now);
            && e.eventID == EventIDFor(token, record.capability)
            && e.accountID == caller.accountID && e.apiKeyID == caller.apiKeyID
            && e.billableUnits == 1 && e.usageClass == CLASS_REQUEST
            && e.modelID == TrimSpace(record.modelID) && ChannelBehind(e.channelID, record.selected)
            && e.providerID == (if record.selected.Some? then record.selected.value.id else 0)
            && e.errorCode == record.errorCode && e.capability == TrimSpace(record.capability)
            && e.statusCode == record.statusCode && e.upstreamStatus == record.upstreamStatus
            && e.cacheState == CacheOf(record.cacheState)
            && (record.outcome == OUTCOME_SUCCESS || record.outcome == OUTCOME_FAILED ==> e.outcome == record.outcome)
            && e.completedAt == (if record.completedAt == 0 then now else record.completedAt)
  {
    hide TrimSpace, EventIDFor;
    EventIDTrimmed(token, record.capability);
    TrimSpaceFixed(CLASS_REQUEST);
    TrimSpaceFixed(CACHE_UNKNOWN);
    TrimSpaceFixed("");
    TrimSpaceFixed(OUTCOME_SUCCESS);
    TrimSpaceFixed(OUTCOME_FAILED);
  }

  lemma {:induction false} FindNew(events: seq<UsageEvent>, e: UsageEvent)
    requires !HasEvent(events, e.eventID)
    ensures FindEvent(events + [e], e.eventID) == Some(e)
  {
    if events != [] {
      assert events[0] in events;
      assert (events + [e])[1..] == events[1..] + [e];
      FindNew(events[1..], e);
    }
  }

  lemma NoChargeYet(b: Books)
    requires Sound(b)
    ensures !HasCharge(b.charges, FreshEventId(b.events))
  {
    forall c | c in b.charges
      ensures c.usageEventID != FreshEventId(b.events)
    {
      var e, price, k :| e in b.events && PricedBy(b, e, price, k) && c == ChargeFor(e, price);
    }
  }

  // A retry of a recording, after a crash between its writes or after its success, ends with
  // the books of one undisturbed recording, whenever it runs and whatever else it reports: only
  // the identifier has to be the same.
  lemma RetryCompletes(b: Books, event: UsageEvent, now: int, retry: UsageEvent, later: int)
    requires Sound(b) && event.Defaulted(now).completedAt != 0
    requires retry.Defaulted(later).eventID == event.Defaulted(now).eventID
    ensures Recorded(InsertEvent(b, event.Defaulted(now)), retry, later) == Recorded(b, event, now)
    ensures Recorded(Recorded(b, event, now), retry, later) == Recorded(b, event, now)
  {
    hide Sound, FindEvent, ChargeFor, UsageEvent.Defaulted, Resolve, InsertEvent, InsertCharge, HasCharge, HasEvent;
    var e, e' := event.Defaulted(now), retry.Defaulted(later);
    EventKeepsSound(b, e);
    var b1 := InsertEvent(b, e);
    var stored := FindEvent(b1.events, e.eventID).value;
    SoundEvents(b1, stored);
    Timeless(b1, stored, now, later);
    var charge := ChargeFor(stored, Resolve(b1.prices, stored.PriceQuery(), now));
    KnownEvent(b1, e');
    RecordingIsIdempotent(b1, e, charge, charge);
    ChargeKeepsEvents(b1, charge, e');
  }

  lemma KnownEvent(b: Books, e: UsageEvent)
    requires HasEvent(b.events, e.eventID)
    ensures InsertEvent(b, e) == b
  {
  }

  lemma Timeless(b: Books, e: UsageEvent, now: int, later: int)
    requires e.completedAt != 0
    ensures Resolve(b.prices, e.PriceQuery(), now) == Resolve(b.prices, e.PriceQuery(), later)
  {
  }

  lemma ChargeKeepsEvents(b: Books, charge: Charge, e: UsageEvent)
    requires HasEvent(b.events, e.eventID)
    ensures var next := InsertCharge(b, charge);
            next.events == b.events && next.prices == b.prices && InsertEvent(next, e) == next
  {
  }
}
