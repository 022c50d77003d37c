/**
  What the ledger promises of every run: unique events and charges, and that each charge is what
  its event owed at some moment between the two writes.
 */
module LedgerRuns {
  import opened Wrappers
  import opened Weighted
  import opened Pricing
  import opened Ledger

  // ---------- When events and charges are written ----------

  // The charge is what the event earns from the first k price rows.
  ghost predicate EarnedAt(b: Books, e: UsageEvent, c: Charge, k: nat) {
    k <= |b.prices| && e in b.events && c == ChargeFor(e, Resolve(b.prices[..k], e.PriceQuery(), 0))
  }

  ghost predicate WrittenBy(states: seq<State>, i: nat, e: UsageEvent) {
    i + 1 < |states| && e !in states[i].books.events && e in states[i + 1].books.events
  }

  ghost predicate ChargedBy(states: seq<State>, l: nat, c: Charge) {
    l + 1 < |states| && c !in states[l].books.charges && c in states[l + 1].books.charges
  }

  lemma {:induction false} EventIsWritten(states: seq<State>, steps: seq<Step>, j: nat, e: UsageEvent) returns (i: nat)
    requires Run(states, steps) && Init(states[0]) && j <= |steps| && e in states[j].books.events
    ensures i < j && WrittenBy(states, i, e)
  {
    hide Enabled, After;
    if e in states[j - 1].books.events {
      i := EventIsWritten(states, steps, j - 1, e);
    } else {
      i := j - 1;
    }
  }

  lemma {:induction false} ChargeIsWritten(states: seq<State>, steps: seq<Step>, j: nat, c: Charge) returns (l: nat)
    requires Run(states, steps) && Init(states[0]) && j <= |steps| && c in states[j].books.charges
    ensures l < j && ChargedBy(states, l, c)
  {
    hide Enabled, After;
    if c in states[j - 1].books.charges {
      l := ChargeIsWritten(states, steps, j - 1, c);
    } else {
      l := j - 1;
    }
  }

  // ---------- No charge overlooks a row its event could have had ----------

  // Whoever holds a price for the event, and every charge of it, looked at m rows at least.
  ghost predicate PricedFrom(s: State, e: UsageEvent, m: nat) {
    && (forall id :: id in s.workers && s.workers[id].Priced? && s.workers[id].persisted == e ==>
          exists k: nat :: m <= k && PricedBy(s.books, e, s.workers[id].price, k))
    && (forall c :: c in s.books.charges && c.usageEventID == e.id ==>
          exists k: nat :: m <= k && EarnedAt(s.books, e, c, k))
  }

  lemma SameEvent(b: Books, e: UsageEvent, x: UsageEvent)
    requires UniqueEvents(b.events) && e in b.events && x in b.events && e.id == x.id
    ensures e == x
  {
  }

  lemma NewEventUnpriced(s: State, e: UsageEvent, next: State)
    requires Inv(s) && Inv(next) && Extends(s.books, next.books) && e !in s.books.events && e in next.books.events
    ensures forall id :: id in s.workers && s.workers[id].Priced? ==> s.workers[id].persisted != e
    ensures forall c :: c in s.books.charges ==> c.usageEventID != e.id
  {
    hide PricedBy, ChargeFor, UniqueEvents, UniqueCharges;
    forall id | id in s.workers && s.workers[id].Priced? ensures s.workers[id].persisted != e {
      assert WorkerOk(s.books, s.workers[id]);
    }
    forall c | c in s.books.charges ensures c.usageEventID != e.id {
      var x, price, k: nat :| x in s.books.events && PricedBy(s.books, x, price, k) && c == ChargeFor(x, price);
      ChargeNamesEvent(x, price);
      if c.usageEventID == e.id {
        SameEvent(next.books, e, x);
      }
    }
  }

  lemma ChargeNamesEvent(e: UsageEvent, price: Option<Price>)
    ensures ChargeFor(e, price).usageEventID == e.id
  {
  }

  // What a step does to the parts of the books and to the workers that hold a price.
  lemma StepParts(s: State, step: Step)
    requires Enabled(s, step)
    ensures !step.WriteEvent? ==> After(s, step).books.events == s.books.events
    ensures !step.WriteCharge? ==> After(s, step).books.charges == s.books.charges
    ensures !step.AddPrice? ==> After(s, step).books.prices == s.books.prices
    ensures step.WriteCharge? ==>
              var w := s.workers[step.id];
              forall c :: c in After(s, step).books.charges ==> c in s.books.charges || c == ChargeFor(w.persisted, w.price)
    ensures forall id :: id in After(s, step).workers && After(s, step).workers[id].Priced? ==>
              || (id in s.workers && s.workers[id] == After(s, step).workers[id])
              || (step.FindPrice? && step.id == id
                  && After(s, step).workers[id].price ==
                     Resolve(s.books.prices, After(s, step).workers[id].persisted.PriceQuery(), step.now)
                  && s.workers[id] == Loaded(After(s, step).workers[id].persisted))
  {
    hide Resolve, FindEvent, HasEvent, FreshEventId, ChargeFor, UsageEvent.PriceQuery, UsageEvent.Defaulted;
  }

  lemma PricedFromStarts(s: State, step: Step, e: UsageEvent)
    requires Inv(s) && Enabled(s, step) && e !in s.books.events && e in After(s, step).books.events
    ensures PricedFrom(After(s, step), e, |After(s, step).books.prices|)
  {
    hide Inv, Enabled, After, PricedBy, EarnedAt, ChargeFor, Resolve;
    StepKeepsInv(s, step);
    StepParts(s, step);
    NewEventUnpriced(s, e, After(s, step));
  }

  lemma PricedFromStays(s: State, step: Step, e: UsageEvent, m: nat)
    requires Inv(s) && Enabled(s, step) && e in s.books.events && m <= |s.books.prices| && PricedFrom(s, e, m)
    ensures PricedFrom(After(s, step), e, m)
  {
    hide Inv, Enabled, After, PricedBy, EarnedAt, ChargeFor, Resolve, Extends, UsageEvent.PriceQuery;
    var next := After(s, step);
    StepKeepsInv(s, step);
    StepParts(s, step);
    forall id | id in next.workers && next.workers[id].Priced? && next.workers[id].persisted == e
      ensures exists k: nat :: m <= k && PricedBy(next.books, e, next.workers[id].price, k)
    {
      if id in s.workers && s.workers[id] == next.workers[id] {
        var k: nat :| m <= k && PricedBy(s.books, e, s.workers[id].price, k);
        PricedStays(s.books, next.books, e, s.workers[id].price, k);
      } else {
        RecordedIsTimed(s, e);
        PricedNow(s.books, e, step.now);
        assert next.books.prices == s.books.prices;
        PricedStays(s.books, next.books, e, next.workers[id].price, |s.books.prices|);
      }
    }
    forall c | c in next.books.charges && c.usageEventID == e.id
      ensures exists k: nat :: m <= k && EarnedAt(next.books, e, c, k)
    {
      if c in s.books.charges {
        var k: nat :| m <= k && EarnedAt(s.books, e, c, k);
        EarnedAtStays(s.books, next.books, e, c, k);
      } else {
        PricedWorker(s, step);
        var w := s.workers[step.id];
        ChargeNamesEvent(w.persisted, w.price);
        InvUnique(s);
        SameEvent(s.books, e, w.persisted);
        var k: nat :| m <= k && PricedBy(s.books, e, w.price, k);
        PricedIsEarned(s.books, next.books, e, w.price, k);
      }
    }
  }

  lemma RecordedIsTimed(s: State, e: UsageEvent)
    requires Inv(s) && e in s.books.events
    ensures e.completedAt != 0
  {
    hide UniqueEvents, UniqueCharges, Earned, WorkerOk;
  }

  lemma InvUnique(s: State)
    requires Inv(s)
    ensures UniqueEvents(s.books.events)
  {
    hide UniqueEvents, UniqueCharges, Earned, WorkerOk;
  }

  lemma PricedWorker(s: State, step: Step)
    requires Inv(s) && Enabled(s, step) && step.WriteCharge?
    ensures step.id in s.workers && s.workers[step.id].Priced? && s.workers[step.id].persisted in s.books.events
  {
    hide Sound, PricedBy;
  }

  lemma EarnedAtStays(a: Books, b: Books, e: UsageEvent, c: Charge, k: nat)
    requires Extends(a, b) && EarnedAt(a, e, c, k)
    ensures EarnedAt(b, e, c, k)
  {
    hide Resolve, ChargeFor;
    assert a.prices[..k] == b.prices[..k];
  }

  lemma PricedIsEarned(a: Books, b: Books, e: UsageEvent, price: Option<Price>, k: nat)
    requires Extends(a, b) && e in a.events && PricedBy(a, e, price, k)
    ensures EarnedAt(b, e, ChargeFor(e, price), k)
  {
    hide Resolve, ChargeFor;
    assert a.prices[..k] == b.prices[..k];
  }

  lemma {:induction false} RunPricedFrom(states: seq<State>, steps: seq<Step>, i: nat, j: nat, e: UsageEvent)
    requires Run(states, steps) && Init(states[0]) && WrittenBy(states, i, e) && i < j <= |steps|
    ensures PricedFrom(states[j], e, |states[i + 1].books.prices|)
  {
    hide Inv, Enabled, After, PricedFrom;
    InitInv(states[0]);
    RunKeepsInv(states, steps, 0, j - 1);
    if j == i + 1 {
      PricedFromStarts(states[i], steps[i], e);
    } else {
      RunPricedFrom(states, steps, i, j - 1, e);
      RunKeepsInv(states, steps, 0, i + 1);
      RunKeepsInv(states, steps, i + 1, j - 1);
      PricedFromStays(states[j - 1], steps[j - 1], e, |states[i + 1].books.prices|);
    }
  }

  lemma InitInv(s: State)
    requires Init(s)
    ensures Inv(s)
  {
  }

  // ---------- What the books promise ----------

  // The charge is written by step l for the event written by step i before it, and is what the
  // event earned from the rows of some moment between the two.
  ghost predicate EarnedBetween(
    states: seq<State>, j: nat, c: Charge, i: nat, l: nat, e: UsageEvent, k: nat)
  {
    && i < l < j < |states| && WrittenBy(states, i, e) && ChargedBy(states, l, c)
    && |states[i + 1].books.prices| <= k <= |states[l].books.prices|
    && c.usageEventID == e.id && EarnedAt(states[j].books, e, c, k)
  }

  lemma ChargeIsEarned(states: seq<State>, steps: seq<Step>, j: nat, c: Charge) returns (i: nat, l: nat, e: UsageEvent, k: nat)
    requires Run(states, steps) && Init(states[0]) && j <= |steps| && c in states[j].books.charges
    ensures EarnedBetween(states, j, c, i, l, e, k)
  {
    hide Inv, Enabled, After, PricedBy, ChargeFor, EarnedAt, Resolve, UniqueEvents, UniqueCharges;
    l := ChargeIsWritten(states, steps, j, c);
    InitInv(states[0]);
    RunKeepsInv(states, steps, 0, l + 1);
    RunKeepsInv(states, steps, l + 1, j);
    e := EventOfCharge(states[l + 1], c);
    StepParts(states[l], steps[l]);
    assert steps[l].WriteCharge?;
    i := EventIsWritten(states, steps, l, e);
    RunPricedFrom(states, steps, i, l + 1, e);
    k :| |states[i + 1].books.prices| <= k && EarnedAt(states[l + 1].books, e, c, k);
    EarnedAtRange(states[l + 1].books, e, c, k);
    EarnedAtStays(states[l + 1].books, states[j].books, e, c, k);
  }

  lemma EarnedAtRange(b: Books, e: UsageEvent, c: Charge, k: nat)
    requires EarnedAt(b, e, c, k)
    ensures k <= |b.prices|
  {
  }

  lemma EventOfCharge(s: State, c: Charge) returns (e: UsageEvent)
    requires Inv(s) && c in s.books.charges
    ensures e in s.books.events && c.usageEventID == e.id
  {
    hide UniqueEvents, UniqueCharges, WorkerOk, PricedBy;
    assert Earned(s.books, c);
    var x, price, k: nat :| x in s.books.events && PricedBy(s.books, x, price, k) && c == ChargeFor(x, price);
    e := x;
  }

  // In every run: one event per identifier, one charge per event, and every charge is what its own
  // event earned from the price rows of some moment between the writing of the two.
  lemma BooksAreSound(states: seq<State>, steps: seq<Step>, j: nat)
    requires Run(states, steps) && Init(states[0]) && j <= |steps|
    ensures UniqueEvents(states[j].books.events) && UniqueCharges(states[j].books.charges)
    ensures forall c :: c in states[j].books.charges ==>
              exists i: nat, l: nat, e, k: nat :: EarnedBetween(states, j, c, i, l, e, k)
  {
    hide Enabled, After, Earned, WorkerOk, EarnedBetween;
    InitInv(states[0]);
    RunKeepsInv(states, steps, 0, j);
    forall c | c in states[j].books.charges
      ensures exists i: nat, l: nat, e, k: nat :: EarnedBetween(states, j, c, i, l, e, k)
    {
      var i, l, e, k := ChargeIsEarned(states, steps, j, c);
    }
  }

  // Price rows only ever arrive through the save hook, each under an ID of its own.
  lemma {:induction false} RunKeepsPrices(states: seq<State>, steps: seq<Step>, j: nat)
    requires Run(states, steps) && Init(states[0]) && j <= |steps|
    ensures Normal(states[j].books.prices) && DistinctPrices(states[j].books.prices)
  {
    hide Enabled, After, Price.Defaulted;
    if j > 0 {
      RunKeepsPrices(states, steps, j - 1);
      var step := steps[j - 1];
      PricesOfStep(states[j - 1], step);
      if step.AddPrice? {
        SavedRowKeeps(step.price, step.now);
      }
      PricesOfStep(states[j - 1], step);
    }
  }

  lemma PricesOfStep(s: State, step: Step)
    requires Enabled(s, step)
    ensures After(s, step).books.prices ==
            if step.AddPrice? then s.books.prices + [step.price.Defaulted(step.now)] else s.books.prices
    ensures step.AddPrice? ==> forall p :: p in s.books.prices ==> p.id != step.price.id
  {
    hide Resolve, FindEvent, HasEvent, HasCharge, FreshEventId, ChargeFor, Price.Defaulted, UsageEvent.Defaulted;
  }

  // The charge is what the event owes under the first k price rows: the terms of a row that
  // applies and precedes every other applicable one, or nothing when none applies.
  ghost predicate Owed(prices: seq<Price>, e: UsageEvent, c: Charge) {
    var q := Query(e.accountID, e.modelID, e.channelID, e.usageClass, e.cacheState, e.completedAt);
    if c.priceID.None? then
      c.amount == 0 && c.unitPrice == 0 && c.currency == "USD" && !exists p :: Applies(prices, p, q, 0)
    else
      exists p ::
        && Applies(prices, p, q, 0) && c.priceID == Some(p.id) && c.unitPrice == p.unitPrice && c.currency == p.currency
        && c.amount == Wrap64(p.unitPrice * e.billableUnits)
        && forall other :: Applies(prices, other, q, 0) ==> Precedence(p, other)
  }

  lemma EarnedIsOwed(b: Books, e: UsageEvent, c: Charge, k: nat)
    requires Normal(b.prices) && EarnedAt(b, e, c, k)
    ensures k <= |b.prices| && Owed(b.prices[..k], e, c)
  {
    hide Resolve, Wrap64, Applies, Precedence;
    assert Normal(b.prices[..k]);
    ResolvedPrecedes(b.prices[..k], e.PriceQuery(), 0);
  }

  // In every run each charge is what its event owed at some moment between the writing of the
  // two: the lexicographically first row applicable then sets its terms, and it is unpriced
  // exactly when none applied.
  lemma ChargesAreOwed(states: seq<State>, steps: seq<Step>, j: nat)
    requires Run(states, steps) && Init(states[0]) && j <= |steps|
    ensures forall c :: c in states[j].books.charges ==>
              exists i: nat, l: nat, e, k: nat ::
                EarnedBetween(states, j, c, i, l, e, k) && k <= |states[j].books.prices| && Owed(states[j].books.prices[..k], e, c)
  {
    hide Enabled, After, Init, EarnedAt, Owed, Normal;
    RunKeepsPrices(states, steps, j);
    forall c | c in states[j].books.charges
      ensures exists i: nat, l: nat, e, k: nat ::
                EarnedBetween(states, j, c, i, l, e, k) && k <= |states[j].books.prices| && Owed(states[j].books.prices[..k], e, c)
    {
      var i, l, e, k := ChargeIsEarned(states, steps, j, c);
      EarnedIsOwed(states[j].books, e, c, k);
    }
  }

  // Seen from the event: no charge of it overlooks a price row that stood when it was written.
  lemma NoRowOverlooked(states: seq<State>, steps: seq<Step>, i: nat, j: nat, e: UsageEvent, c: Charge)
    requires Run(states, steps) && Init(states[0]) && WrittenBy(states, i, e) && i < j <= |steps|
    requires c in states[j].books.charges && c.usageEventID == e.id
    ensures exists k: nat ::
              && |states[i + 1].books.prices| <= k <= |states[j].books.prices|
              && EarnedAt(states[j].books, e, c, k) && Owed(states[j].books.prices[..k], e, c)
  {
    hide Enabled, After, Init, EarnedAt, Owed, Normal, WrittenBy, PricedBy;
    RunKeepsPrices(states, steps, j);
    RunPricedFrom(states, steps, i, j, e);
    WrittenInRange(states, i, e);
    var k: nat :| |states[i + 1].books.prices| <= k && EarnedAt(states[j].books, e, c, k);
    EarnedIsOwed(states[j].books, e, c, k);
  }

  lemma WrittenInRange(states: seq<State>, i: nat, e: UsageEvent)
    requires WrittenBy(states, i, e)
    ensures i + 1 < |states|
  {
  }

  // In every run a row added later leaves the price of any query alone or becomes it.
  lemma LaterRowsOnly(states: seq<State>, steps: seq<Step>, j: nat, query: Query, now: int)
    requires Run(states, steps) && Init(states[0]) && j < |steps| && steps[j].AddPrice?
    ensures var before, after := states[j].books.prices, states[j + 1].books.prices;
            && after == before + [steps[j].price.Defaulted(steps[j].now)]
            && (Resolve(after, query, now) == Resolve(before, query, now)
                || Resolve(after, query, now) == Some(steps[j].price.Defaulted(steps[j].now)))
  {
    hide Resolve, Enabled, After;
    RunKeepsPrices(states, steps, j + 1);
    PricesOfStep(states[j], steps[j]);
    AddingARow(states[j].books.prices, steps[j].price.Defaulted(steps[j].now), query, now);
  }

  // What an earned charge says about its event and about the row that priced it.
  lemma EarnedAgrees(b: Books, e: UsageEvent, c: Charge, k: nat)
    requires EarnedAt(b, e, c, k)
    ensures c.usageEventID == e.id && c.accountID == e.accountID && c.apiKeyID == e.apiKeyID
    ensures c.billableUnits == e.billableUnits && c.usageClass == e.usageClass && c.cacheState == e.cacheState
    ensures match Resolve(b.prices[..k], e.PriceQuery(), 0)
            case None => c.priceID == None && c.unitPrice == c.amount == 0
            case Some(p) => c.priceID == Some(p.id) && c.currency == p.currency && c.unitPrice == p.unitPrice
    ensures c.amount == c.unitPrice * c.billableUnits <==> InInt64(c.unitPrice * c.billableUnits)
  {
    hide Resolve, Wrap64;
    if Resolve(b.prices[..k], e.PriceQuery(), 0).None? {
      assert c.unitPrice * c.billableUnits == 0;
    }
  }

  // Once written, an event or a charge keeps its place and its contents: later prices, retries and
  // other workers never change it, and a worker that got to the end has left a charge behind.
  lemma ChargesNeverChange(states: seq<State>, steps: seq<Step>, i: nat, j: nat)
    requires Run(states, steps) && Init(states[0]) && i <= j <= |steps|
    ensures states[i].books.charges <= states[j].books.charges
    ensures states[i].books.events <= states[j].books.events
    ensures forall id :: id in states[i].workers && states[i].workers[id].Charged? ==>
              HasCharge(states[j].books.charges, states[i].workers[id].persisted.id)
  {
    hide Price.Defaulted, PricedBy, Resolve, UsageEvent.Defaulted;
    assert Inv(states[0]);
    RunKeepsInv(states, steps, 0, i);
    RunKeepsInv(states, steps, i, j);
  }
}
