/**
  Usage events and charges. Each request records an event and then a charge, in separate
  statements that any number of workers interleave, repeat and abandon; prices are added meanwhile.
 */
module Ledger {
  import opened Wrappers
  import opened Text
  import opened Weighted
  import opened Pricing

  const OUTCOME_SUCCESS := "success"
  const OUTCOME_FAILED := "failed"

  datatype UsageEvent = UsageEvent(
    id: nat,
    eventID: string,
    accountID: nat,
    apiKeyID: nat,
    modelID: string,
    providerID: nat,
    channelID: Option<nat>,
    capability: string,
    usageClass: string,
    cacheState: string,
    outcome: string,
    statusCode: int,
    upstreamStatus: int,
    billableUnits: int,
    errorCode: string,
    completedAt: int)
  {
    // The create hook.
    function Defaulted(now: int): UsageEvent {
      var usage, state, result := TrimSpace(usageClass), TrimSpace(cacheState), TrimSpace(outcome);
      this.(eventID := TrimSpace(eventID),
            modelID := TrimSpace(modelID),
            capability := TrimSpace(capability),
            usageClass := if usage == "" then CLASS_REQUEST else usage,
            cacheState := if state == "" then CACHE_UNKNOWN else state,
            outcome := if result == "" then OUTCOME_FAILED else result,
            billableUnits := if billableUnits == 0 then 1 else billableUnits,
            completedAt := if completedAt == 0 then now else completedAt)
    }

    function PriceQuery(): Query {
      Query(accountID, modelID, channelID, usageClass, cacheState, completedAt)
    }
  }

  datatype Charge = Charge(
    usageEventID: nat,
    accountID: nat,
    apiKeyID: nat,
    priceID: Option<nat>,
    currency: string,
    unitPrice: int,
    billableUnits: int,
    amount: int,
    usageClass: string,
    cacheState: string)

  // What the create hook leaves of an event; filling in defaults again changes nothing.
  lemma SavedEventKeeps(e: UsageEvent, now: int)
    ensures var s := e.Defaulted(now);
            && s.id == e.id && s.accountID == e.accountID && s.apiKeyID == e.apiKeyID
            && s.providerID == e.providerID && s.channelID == e.channelID && s.errorCode == e.errorCode
            && s.statusCode == e.statusCode && s.upstreamStatus == e.upstreamStatus
            && s.eventID == TrimSpace(e.eventID) && s.modelID == TrimSpace(e.modelID)
            && s.capability == TrimSpace(e.capability)
            && s.usageClass == (if TrimSpace(e.usageClass) == "" then "request" else TrimSpace(e.usageClass))
            && s.cacheState == (if TrimSpace(e.cacheState) == "" then "unknown" else TrimSpace(e.cacheState))
            && s.outcome == (if TrimSpace(e.outcome) == "" then "failed" else TrimSpace(e.outcome))
            && s.billableUnits == (if e.billableUnits == 0 then 1 else e.billableUnits)
            && s.completedAt == (if e.completedAt == 0 then now else e.completedAt)
  {
    hide TrimSpace;
  }

  lemma SavedEventTwice(e: UsageEvent, now: int, later: int)
    requires now != 0
    ensures e.Defaulted(now).Defaulted(later) == e.Defaulted(now)
  {
    hide TrimSpace;
    TrimTwice(e.eventID);
    TrimTwice(e.modelID);
    TrimTwice(e.capability);
    TrimTwice(e.usageClass);
    TrimTwice(e.cacheState);
    TrimTwice(e.outcome);
    TrimSpaceFixed(CLASS_REQUEST);
    TrimSpaceFixed(CACHE_UNKNOWN);
    TrimSpaceFixed(OUTCOME_FAILED);
  }

  datatype Books = Books(events: seq<UsageEvent>, charges: seq<Charge>, prices: seq<Price>)

  function ChargeFor(e: UsageEvent, price: Option<Price>): Charge {
    match price
    case None => Charge(e.id, e.accountID, e.apiKeyID, None, "USD", 0, e.billableUnits, 0, e.usageClass, e.cacheState)
    case Some(p) =>
      Charge(e.id, e.accountID, e.apiKeyID, Some(p.id), p.currency, p.unitPrice, e.billableUnits,
             Wrap64(p.unitPrice * e.billableUnits), e.usageClass, e.cacheState)
  }

  predicate HasEvent(events: seq<UsageEvent>, eventID: string) {
    exists e :: e in events && e.eventID == eventID
  }

  predicate HasCharge(charges: seq<Charge>, usageEventID: nat) {
    exists c :: c in charges && c.usageEventID == usageEventID
  }

  function FreshEventId(events: seq<UsageEvent>): (id: nat)
    ensures id >= 1 && forall e :: e in events ==> e.id < id
  {
    if events == [] then 1
    else
      var rest := FreshEventId(events[..|events| - 1]);
      var last := events[|events| - 1].id;
      assert forall e :: e in events ==> e in events[..|events| - 1] || e == events[|events| - 1];
      if last < rest then rest else last + 1
  }

  // INSERT ... ON CONFLICT DO NOTHING, with a generated primary key.
  function InsertEvent(b: Books, e: UsageEvent): Books {
    if HasEvent(b.events, e.eventID) then b
    else b.(events := b.events + [e.(id := FreshEventId(b.events))])
  }

  function InsertCharge(b: Books, c: Charge): Books {
    if HasCharge(b.charges, c.usageEventID) then b else b.(charges := b.charges + [c])
  }

  function FindEvent(events: seq<UsageEvent>, eventID: string): (r: Option<UsageEvent>)
    ensures r.Some? <==> HasEvent(events, eventID)
    ensures r.Some? ==> r.value in events && r.value.eventID == eventID
  {
    if events == [] then None
    else if events[0].eventID == eventID then Some(events[0])
    else
      assert events == [events[0]] + events[1..];
      FindEvent(events[1..], eventID)
  }

  function FindCharge(charges: seq<Charge>, usageEventID: nat): (r: Option<Charge>)
    ensures r.Some? <==> HasCharge(charges, usageEventID)
    ensures r.Some? ==> r.value in charges && r.value.usageEventID == usageEventID
  {
    if charges == [] then None
    else if charges[0].usageEventID == usageEventID then Some(charges[0])
    else
      assert charges == [charges[0]] + charges[1..];
      FindCharge(charges[1..], usageEventID)
  }

  function Recall(b: Books, eventID: string): Result<UsageEvent, string> {
    match FindEvent(b.events, eventID)
    case Some(e) => Success(e)
    case None => Failure("record not found")
  }

  // ---------- One process on its own ----------

  class Store {
    var books: Books

    constructor ()
      ensures books == Books([], [], [])
    {
      books := Books([], [], []);
    }

    // Writing an event whose identifier is already recorded returns the recorded event.
    method CreateUsageEvent(event: UsageEvent, now: int) returns (r: Result<UsageEvent, string>)
      modifies this
      ensures event.Defaulted(now).eventID == "" ==> r.Failure? && books == old(books)
      ensures event.Defaulted(now).eventID != "" ==>
                && books == InsertEvent(old(books), event.Defaulted(now))
                && r == Recall(books, event.Defaulted(now).eventID)
                && r.Success? && r.value in books.events && r.value.eventID == event.Defaulted(now).eventID
    {
      var e := event.Defaulted(now);
      if e.eventID == "" {
        return Failure("usage event id is required");
      }
      books := InsertEvent(books, e);
      assert HasEvent(books.events, e.eventID) by {
        if !HasEvent(old(books).events, e.eventID) {
          assert books.events[|old(books).events|] in books.events;
        }
      }
      var found := FindEvent(books.events, e.eventID);
      r := Success(found.value);
    }

    method CreateBillableChargeForEvent(event: UsageEvent, now: int) returns (r: Charge)
      modifies this
      ensures books == InsertCharge(old(books), ChargeFor(event, Resolve(old(books).prices, event.PriceQuery(), now)))
      ensures r in books.charges && r.usageEventID == event.id
    {
      var price := ResolvePrice(books.prices, event.PriceQuery(), now);
      var charge := ChargeFor(event, price);
      books := InsertCharge(books, charge);
      assert HasCharge(books.charges, event.id) by {
        if !HasCharge(old(books).charges, event.id) {
          assert books.charges[|old(books).charges|] in books.charges;
        }
      }
      var found := FindCharge(books.charges, event.id);
      r := found.value;
    }
  }

  // ---------- Interleaved workers ----------

  datatype Worker =
    | Wanting(event: UsageEvent)
    | Inserted(event: UsageEvent)
    | Loaded(persisted: UsageEvent)
    | Priced(persisted: UsageEvent, price: Option<Price>)
    | Charged(persisted: UsageEvent)

  datatype State = State(books: Books, workers: map<nat, Worker>)

  datatype Step =
    | Begin(id: nat, raw: UsageEvent, now: int)
    | WriteEvent(id: nat)
    | LoadEvent(id: nat)
    | FindPrice(id: nat, now: int)
    | WriteCharge(id: nat)
    | Leave(id: nat)
    | AddPrice(price: Price, now: int)

  predicate Enabled(s: State, step: Step) {
    match step
    case Begin(id, raw, now) => id !in s.workers && now != 0 && raw.Defaulted(now).eventID != ""
    case WriteEvent(id) => id in s.workers && s.workers[id].Wanting?
    case LoadEvent(id) =>
      id in s.workers && s.workers[id].Inserted? && HasEvent(s.books.events, s.workers[id].event.eventID)
    case FindPrice(id, now) => id in s.workers && s.workers[id].Loaded?
    case WriteCharge(id) => id in s.workers && s.workers[id].Priced?
    case Leave(id) => id in s.workers
    case AddPrice(price, now) => now != 0 && forall p :: p in s.books.prices ==> p.id != price.id
  }

  function After(s: State, step: Step): State
    requires Enabled(s, step)
  {
    match step
    case Begin(id, raw, now) => s.(workers := s.workers[id := Wanting(raw.Defaulted(now))])
    case WriteEvent(id) =>
      var e := s.workers[id].event;
      State(InsertEvent(s.books, e), s.workers[id := Inserted(e)])
    case LoadEvent(id) =>
      s.(workers := s.workers[id := Loaded(FindEvent(s.books.events, s.workers[id].event.eventID).value)])
    case FindPrice(id, now) =>
      var e := s.workers[id].persisted;
      s.(workers := s.workers[id := Priced(e, Resolve(s.books.prices, e.PriceQuery(), now))])
    case WriteCharge(id) =>
      var w := s.workers[id];
      State(InsertCharge(s.books, ChargeFor(w.persisted, w.price)), s.workers[id := Charged(w.persisted)])
    case Leave(id) => s.(workers := s.workers - {id})
    case AddPrice(price, now) => s.(books := s.books.(prices := s.books.prices + [price.Defaulted(now)]))
  }

  ghost predicate Run(states: seq<State>, steps: seq<Step>) {
    && |states| == |steps| + 1
    && forall i :: 0 <= i < |steps| ==> Enabled(states[i], steps[i]) && states[i + 1] == After(states[i], steps[i])
  }

  // ---------- The invariant ----------

  // The charge an event earns from the first k price rows.
  ghost predicate PricedBy(b: Books, e: UsageEvent, price: Option<Price>, k: nat) {
    k <= |b.prices| && price == Resolve(b.prices[..k], e.PriceQuery(), 0)
  }

  ghost predicate Earned(b: Books, c: Charge) {
    exists e, price, k :: e in b.events && PricedBy(b, e, price, k) && c == ChargeFor(e, price)
  }

  ghost predicate UniqueEvents(events: seq<UsageEvent>) {
    forall i, j :: 0 <= i < j < |events| ==> events[i].eventID != events[j].eventID && events[i].id != events[j].id
  }

  ghost predicate UniqueCharges(charges: seq<Charge>) {
    forall i, j :: 0 <= i < j < |charges| ==> charges[i].usageEventID != charges[j].usageEventID
  }

  ghost predicate WorkerOk(b: Books, w: Worker) {
    match w
    case Wanting(e) => e.completedAt != 0
    case Inserted(e) => HasEvent(b.events, e.eventID)
    case Loaded(e) => e in b.events
    case Priced(e, price) => e in b.events && exists k :: PricedBy(b, e, price, k)
    case Charged(e) => e in b.events && HasCharge(b.charges, e.id)
  }

  ghost predicate Sound(b: Books) {
    && UniqueEvents(b.events)
    && UniqueCharges(b.charges)
    && (forall e :: e in b.events ==> e.completedAt != 0)
    && (forall c :: c in b.charges ==> Earned(b, c))
  }

  ghost predicate Inv(s: State) {
    Sound(s.books) && forall id :: id in s.workers ==> WorkerOk(s.books, s.workers[id])
  }

  ghost predicate Extends(a: Books, b: Books) {
    a.events <= b.events && a.charges <= b.charges && a.prices <= b.prices
  }

  lemma PricedStays(a: Books, b: Books, e: UsageEvent, price: Option<Price>, k: nat)
    requires Extends(a, b) && PricedBy(a, e, price, k)
    ensures PricedBy(b, e, price, k)
  {
    assert a.prices[..k] == b.prices[..k];
  }

  lemma EarnedStays(a: Books, b: Books, c: Charge)
    requires Extends(a, b) && Earned(a, c)
    ensures Earned(b, c)
  {
    var e, price, k :| e in a.events && PricedBy(a, e, price, k) && c == ChargeFor(e, price);
    PricedStays(a, b, e, price, k);
    assert e in b.events;
  }

  lemma WorkerStays(a: Books, b: Books, w: Worker)
    requires Extends(a, b) && WorkerOk(a, w)
    ensures WorkerOk(b, w)
  {
    if w.Priced? {
      var k :| PricedBy(a, w.persisted, w.price, k);
      PricedStays(a, b, w.persisted, w.price, k);
    }
  }

  lemma EventKeepsSound(b: Books, e: UsageEvent)
    requires Sound(b) && e.completedAt != 0
    ensures Sound(InsertEvent(b, e)) && Extends(b, InsertEvent(b, e))
    ensures HasEvent(InsertEvent(b, e).events, e.eventID)
  {
    hide Earned;
    var next := InsertEvent(b, e);
    if next != b {
      var row := next.events[|b.events|];
      assert row in next.events;
      forall x | x in next.events ensures x in b.events || x == row {
      }
      forall c | c in b.charges ensures Earned(next, c) {
        EarnedStays(b, next, c);
      }
    }
  }

  lemma ChargeKeepsSound(b: Books, e: UsageEvent, price: Option<Price>, k: nat)
    requires Sound(b) && e in b.events && PricedBy(b, e, price, k)
    ensures var next := InsertCharge(b, ChargeFor(e, price));
            Sound(next) && Extends(b, next) && HasCharge(next.charges, e.id)
  {
    hide PricedBy, UniqueEvents, Wrap64;
    var c := ChargeFor(e, price);
    assert c.usageEventID == e.id;
    var next := InsertCharge(b, c);
    if next != b {
      assert next.charges[|b.charges|] == c;
      assert c in next.charges;
      assert PricedBy(next, e, price, k) by {
        PricedStays(b, next, e, price, k);
      }
      assert Earned(next, c);
      forall x | x in b.charges ensures Earned(next, x) {
        EarnedStays(b, next, x);
      }
    }
  }

  lemma PriceKeepsSound(b: Books, p: Price)
    requires Sound(b)
    ensures var next := b.(prices := b.prices + [p]);
            Sound(next) && Extends(b, next)
  {
    var next := b.(prices := b.prices + [p]);
    forall x | x in b.charges ensures Earned(next, x) {
      EarnedStays(b, next, x);
    }
  }

  // The query time of a recorded event is set, so the time of asking does not matter.
  lemma PricedNow(b: Books, e: UsageEvent, now: int)
    requires e.completedAt != 0
    ensures PricedBy(b, e, Resolve(b.prices, e.PriceQuery(), now), |b.prices|)
  {
    assert b.prices[..|b.prices|] == b.prices;
  }

  lemma StepKeepsInv(s: State, step: Step)
    requires Inv(s) && Enabled(s, step)
    ensures Inv(After(s, step)) && Extends(s.books, After(s, step).books)
  {
    hide HasCharge, HasEvent, InsertCharge, Resolve, TrimSpace, UniqueCharges, UniqueEvents,
      UsageEvent.PriceQuery;
    var next := After(s, step);
    match step
    case Begin(id, raw, now) =>
    case WriteEvent(id) =>
      EventKeepsSound(s.books, s.workers[id].event);
      forall x | x in s.workers ensures WorkerOk(next.books, s.workers[x]) {
        WorkerStays(s.books, next.books, s.workers[x]);
      }
    case LoadEvent(id) =>
    case FindPrice(id, now) =>
      PricedNow(s.books, s.workers[id].persisted, now);
    case WriteCharge(id) =>
      assert WorkerOk(s.books, s.workers[id]);
      var k :| PricedBy(s.books, s.workers[id].persisted, s.workers[id].price, k);
      ChargeKeepsSound(s.books, s.workers[id].persisted, s.workers[id].price, k);
      forall x | x in s.workers ensures WorkerOk(next.books, s.workers[x]) {
        WorkerStays(s.books, next.books, s.workers[x]);
      }
      assert s.workers[id].persisted in next.books.events;
    case Leave(id) =>
    case AddPrice(price, now) =>
      PriceKeepsSound(s.books, price.Defaulted(now));
      forall x | x in s.workers ensures WorkerOk(next.books, s.workers[x]) {
        WorkerStays(s.books, next.books, s.workers[x]);
      }
  }

  lemma {:induction false} RunKeepsInv(states: seq<State>, steps: seq<Step>, i: nat, j: nat)
    requires Run(states, steps) && i <= j <= |steps| && Inv(states[i])
    ensures Inv(states[j]) && Extends(states[i].books, states[j].books)
    decreases j - i
  {
    hide UsageEvent.Defaulted;
    if i < j {
      StepKeepsInv(states[i], steps[i]);
      RunKeepsInv(states, steps, i + 1, j);
    }
  }

  ghost predicate Init(s: State) {
    s.books == Books([], [], []) && s.workers == map[]
  }

  // Recording the same outcome again changes nothing.
  lemma RecordingIsIdempotent(b: Books, e: UsageEvent, c: Charge, c': Charge)
    requires c.usageEventID == c'.usageEventID
    ensures InsertEvent(InsertEvent(b, e), e) == InsertEvent(b, e)
    ensures InsertCharge(InsertCharge(b, c), c') == InsertCharge(b, c)
  {
    var b1 := InsertEvent(b, e);
    if b1 != b {
      assert b1.events[|b.events|] in b1.events;
      assert HasEvent(b1.events, e.eventID);
    }
    var b2 := InsertCharge(b, c);
    if b2 != b {
      assert b2.charges[|b.charges|] in b2.charges;
      assert HasCharge(b2.charges, c'.usageEventID);
    }
  }
}
