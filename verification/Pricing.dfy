/** Price resolution: a scored scan of the price rows, and the order it realises. */
module Pricing {
  import opened Wrappers
  import opened Text
  import opened Sorting

  const CLASS_REQUEST := "request"
  const CACHE_UNKNOWN := "unknown"

  // Times are integers; 0 is the unset time.
  datatype Price = Price(
    id: nat,
    accountID: Option<nat>,
    modelID: string,
    channelID: Option<nat>,
    usageClass: string,
    cacheState: string,
    currency: string,
    unitPrice: int,
    effectiveAt: int)
  {
    // The save hook.
    function Defaulted(now: int): Price {
      var usage, state, money := TrimSpace(usageClass), TrimSpace(cacheState), ToUpper(TrimSpace(currency));
      this.(modelID := TrimSpace(modelID),
            usageClass := if usage == "" then CLASS_REQUEST else usage,
            cacheState := if state == "" then CACHE_UNKNOWN else state,
            currency := if money == "" then "USD" else money,
            effectiveAt := if effectiveAt == 0 then now else effectiveAt)
    }

    predicate ForAccount() { accountID.Some? }

    predicate ForChannel() { channelID.Some? }

    predicate ForModel() { modelID != "" }

    predicate ForCache() { cacheState != "" && cacheState != CACHE_UNKNOWN }
  }

  datatype Query = Query(
    accountID: nat,
    modelID: string,
    channelID: Option<nat>,
    usageClass: string,
    cacheState: string,
    at: int)
  {
    function Normalized(now: int): Query {
      var usage, state := TrimSpace(usageClass), TrimSpace(cacheState);
      this.(modelID := TrimSpace(modelID),
            usageClass := if usage == "" then CLASS_REQUEST else usage,
            cacheState := if state == "" then CACHE_UNKNOWN else state,
            at := if at == 0 then now else at)
    }
  }

  // The row's score for a query, or nothing when one of its conditions fails.
  function Score(p: Price, q: Query): Option<nat> {
    if p.accountID.Some? && (q.accountID == 0 || p.accountID.value != q.accountID) then None
    else if p.channelID.Some? && p.channelID != q.channelID then None
    else if p.modelID != "" && p.modelID != q.modelID then None
    else if p.usageClass != "" && p.usageClass != q.usageClass then None
    else if p.ForCache() && p.cacheState != q.cacheState then None
    else Some((if p.ForAccount() then 8 else 0) + (if p.ForChannel() then 4 else 0)
              + (if p.ForModel() then 2 else 0) + (if p.usageClass != "" then 1 else 0)
              + (if p.ForCache() then 1 else 0))
  }

  // The same score as the router adds it up, condition by condition.
  method Matches(p: Price, q: Query) returns (score: nat, ok: bool)
    ensures ok <==> Score(p, q).Some?
    ensures ok ==> score == Score(p, q).value
    ensures ok <==> && (p.accountID == None || (q.accountID != 0 && p.accountID == Some(q.accountID)))
                    && (p.channelID == None || p.channelID == q.channelID)
                    && (p.modelID == "" || p.modelID == q.modelID) && (p.usageClass == "" || p.usageClass == q.usageClass)
                    && (p.cacheState == "" || p.cacheState == "unknown" || p.cacheState == q.cacheState)
  {
    score := 0;
    if p.accountID.Some? {
      if q.accountID == 0 || p.accountID.value != q.accountID {
        return 0, false;
      }
      score := score + 8;
    }
    if p.channelID.Some? {
      if q.channelID.None? || p.channelID.value != q.channelID.value {
        return 0, false;
      }
      score := score + 4;
    }
    if p.modelID != "" {
      if p.modelID != q.modelID {
        return 0, false;
      }
      score := score + 2;
    }
    if p.usageClass != "" {
      if p.usageClass != q.usageClass {
        return 0, false;
      }
      score := score + 1;
    }
    if p.cacheState != "" && p.cacheState != CACHE_UNKNOWN {
      if p.cacheState != q.cacheState {
        return 0, false;
      }
      score := score + 1;
    }
    ok := true;
  }

  // Latest first, and the larger ID first among equals.
  predicate NewestFirst(a: Price, b: Price) {
    a.effectiveAt > b.effectiveAt || (a.effectiveAt == b.effectiveAt && a.id >= b.id)
  }

  function Effective(prices: seq<Price>, at: int): seq<Price> {
    if prices == [] then []
    else
      var p := prices[|prices| - 1];
      Effective(prices[..|prices| - 1], at) + if p.effectiveAt <= at then [p] else []
  }

  function EffectiveRows(prices: seq<Price>, at: int): seq<Price> {
    Sort(Effective(prices, at), NewestFirst)
  }

  // The first row of strictly highest score.
  function Scan(rows: seq<Price>, q: Query): Option<Price> {
    if rows == [] then None
    else
      var best := Scan(rows[..|rows| - 1], q);
      var p := rows[|rows| - 1];
      if Score(p, q).Some? && (best.None? || Score(p, q).value > BestScore(best, q)) then Some(p) else best
  }

  function BestScore(best: Option<Price>, q: Query): int {
    if best.Some? && Score(best.value, q).Some? then Score(best.value, q).value else -1
  }

  function Resolve(prices: seq<Price>, query: Query, now: int): Option<Price> {
    var q := query.Normalized(now);
    Scan(EffectiveRows(prices, q.at), q)
  }

  method ResolvePrice(prices: seq<Price>, query: Query, now: int) returns (selected: Option<Price>)
    ensures selected == Resolve(prices, query, now)
  {
    hide TrimSpace;
    var q := query.Normalized(now);
    var rows := EffectiveRows(prices, q.at);
    selected := None;
    var selectedScore: int := -1;
    for i := 0 to |rows|
      invariant selected == Scan(rows[..i], q)
      invariant selectedScore == BestScore(selected, q)
      invariant selected.Some? ==> Score(selected.value, q).Some?
    {
      assert rows[..i + 1][..i] == rows[..i];
      var score, ok := Matches(rows[i], q);
      if ok && score > selectedScore {
        selected := Some(rows[i]);
        selectedScore := score;
      }
    }
    assert rows[..|rows|] == rows;
  }

  // ---------- The order that the scan realises ----------

  // The row may price the query: whatever it names is what the query asks about, and it is in
  // force by the time of the query.
  predicate Admits(p: Price, query: Query, now: int) {
    var usage, state := TrimSpace(query.usageClass), TrimSpace(query.cacheState);
    && (p.accountID == None || (query.accountID != 0 && p.accountID == Some(query.accountID)))
    && (p.channelID == None || p.channelID == query.channelID)
    && (p.modelID == "" || p.modelID == TrimSpace(query.modelID))
    && (p.usageClass == "" || p.usageClass == if usage == "" then "request" else usage)
    && (p.cacheState == "" || p.cacheState == "unknown" || p.cacheState == if state == "" then "unknown" else state)
    && p.effectiveAt <= if query.at == 0 then now else query.at
  }

  // Whether the row takes part in answering the query.
  ghost predicate Applies(prices: seq<Price>, p: Price, query: Query, now: int) {
    p in prices && Admits(p, query, now)
  }

  // A row has a score for a query, and is effective by then, exactly when it admits the query.
  lemma ScoreAdmits(p: Price, query: Query, now: int)
    ensures var q := query.Normalized(now);
            Score(p, q).Some? && p.effectiveAt <= q.at <==> Admits(p, query, now)
  {
    hide TrimSpace;
  }

  predicate NamesCache(p: Price) {
    p.cacheState != "" && p.cacheState != "unknown"
  }

  // a comes no later than b: account first, then channel, model, cache state, effective time, ID.
  ghost predicate Precedence(a: Price, b: Price) {
    if a.accountID.Some? != b.accountID.Some? then a.accountID.Some?
    else if a.channelID.Some? != b.channelID.Some? then a.channelID.Some?
    else if (a.modelID != "") != (b.modelID != "") then a.modelID != ""
    else if NamesCache(a) != NamesCache(b) then NamesCache(a)
    else if a.effectiveAt != b.effectiveAt then a.effectiveAt > b.effectiveAt
    else a.id >= b.id
  }

  ghost predicate ByScore(a: Price, b: Price, q: Query) {
    && Score(a, q).Some? && Score(b, q).Some?
    && (Score(a, q).value > Score(b, q).value || (Score(a, q).value == Score(b, q).value && NewestFirst(a, b)))
  }

  lemma {:induction false} EffectiveMembers(prices: seq<Price>, at: int, p: Price)
    ensures p in Effective(prices, at) <==> p in prices && p.effectiveAt <= at
  {
    if prices != [] {
      var n := |prices| - 1;
      EffectiveMembers(prices[..n], at, p);
      assert prices == prices[..n] + [prices[n]];
    }
  }

  lemma RowsMembers(prices: seq<Price>, at: int)
    ensures SortedBy(EffectiveRows(prices, at), NewestFirst)
    ensures forall p :: p in EffectiveRows(prices, at) <==> p in prices && p.effectiveAt <= at
  {
    assert TotalPreorder(NewestFirst);
    SortSorts(Effective(prices, at), NewestFirst);
    forall p ensures p in EffectiveRows(prices, at) <==> p in prices && p.effectiveAt <= at {
      EffectiveMembers(prices, at, p);
    }
  }

  lemma {:induction false} ScanIsBest(rows: seq<Price>, q: Query)
    requires SortedBy(rows, NewestFirst)
    ensures Scan(rows, q).None? ==> forall p :: p in rows ==> Score(p, q).None?
    ensures Scan(rows, q).Some? ==> Scan(rows, q).value in rows && Score(Scan(rows, q).value, q).Some?
    ensures forall p :: Scan(rows, q).Some? && p in rows && Score(p, q).Some? ==> ByScore(Scan(rows, q).value, p, q)
  {
    hide Score;
    if rows != [] {
      var n := |rows| - 1;
      ScanIsBest(rows[..n], q);
      assert rows == rows[..n] + [rows[n]];
      forall p | p in rows[..n] ensures NewestFirst(p, rows[n]) {
        var i :| 0 <= i < n && rows[i] == p;
      }
      assert NewestFirst(rows[n], rows[n]);
    }
  }

  // Rows saved through the hook name a usage class.
  ghost predicate Normal(prices: seq<Price>) {
    forall p :: p in prices ==> p.usageClass != ""
  }

  // What a save keeps of a row, and what it fills in.
  lemma SavedRowKeeps(p: Price, now: int)
    ensures var s := p.Defaulted(now);
            && s.id == p.id && s.accountID == p.accountID && s.channelID == p.channelID && s.unitPrice == p.unitPrice
            && s.modelID == TrimSpace(p.modelID)
            && s.usageClass == (if TrimSpace(p.usageClass) == "" then "request" else TrimSpace(p.usageClass)) != ""
            && s.cacheState == (if TrimSpace(p.cacheState) == "" then "unknown" else TrimSpace(p.cacheState)) != ""
            && s.currency != "" && (TrimSpace(p.currency) == "" ==> s.currency == "USD")
            && (TrimSpace(p.currency) != "" ==> s.currency == ToUpper(TrimSpace(p.currency)))
            && s.effectiveAt == (if p.effectiveAt == 0 then now else p.effectiveAt)
  {
    hide TrimSpace;
  }

  // On saved rows the additive score has no ties between different specificities.
  lemma ScoreIsLexicographic(a: Price, b: Price, q: Query)
    requires a.usageClass != "" && b.usageClass != "" && ByScore(a, b, q)
    ensures Precedence(a, b)
  {
  }

  // The resolved price precedes every row that applies, and there is none exactly when no row applies.
  lemma ResolvedPrecedes(prices: seq<Price>, query: Query, now: int)
    requires Normal(prices)
    ensures var r := Resolve(prices, query, now);
            && (r.None? <==> !exists p :: Applies(prices, p, query, now))
            && (r.Some? ==> Applies(prices, r.value, query, now))
            && (forall p :: r.Some? && Applies(prices, p, query, now) ==> Precedence(r.value, p))
  {
    hide Score, Admits, Precedence, Query.Normalized;
    var q := query.Normalized(now);
    var rows := EffectiveRows(prices, q.at);
    RowsMembers(prices, q.at);
    ScanIsBest(rows, q);
    var r := Resolve(prices, query, now);
    forall p ensures Applies(prices, p, query, now) <==> p in rows && Score(p, q).Some? {
      ScoreAdmits(p, query, now);
    }
    if r.Some? {
      forall p | Applies(prices, p, query, now) ensures Precedence(r.value, p) {
        ScoreIsLexicographic(r.value, p, q);
      }
    }
  }

  ghost predicate DistinctPrices(prices: seq<Price>) {
    forall i, j :: 0 <= i < j < |prices| ==> prices[i].id != prices[j].id
  }

  // Adding a row leaves the answer alone or becomes the answer.
  lemma AddingARow(prices: seq<Price>, p: Price, query: Query, now: int)
    requires Normal(prices + [p]) && DistinctPrices(prices + [p])
    ensures var r := Resolve(prices + [p], query, now);
            r == Resolve(prices, query, now) || r == Some(p)
  {
    var more := prices + [p];
    assert forall x :: x in more <==> x in prices || x == p;
    ResolvedPrecedes(prices, query, now);
    ResolvedPrecedes(more, query, now);
    var a, b := Resolve(prices, query, now), Resolve(more, query, now);
    if b.Some? && b.value != p {
      assert Applies(prices, b.value, query, now);
      assert Applies(more, a.value, query, now);
      PrecedenceBothWays(more, a.value, b.value);
    } else if a.Some? {
      assert Applies(more, a.value, query, now);
    }
  }

  lemma PrecedenceBothWays(prices: seq<Price>, a: Price, b: Price)
    requires DistinctPrices(prices) && a in prices && b in prices
    requires Precedence(a, b) && Precedence(b, a)
    ensures a == b
  {
    var i :| 0 <= i < |prices| && prices[i] == a;
    var j :| 0 <= j < |prices| && prices[j] == b;
    assert a.id == b.id;
  }

  // Without the hook a row can lack its usage class, and then a newer general row beats an older
  // one that names the cache state.
  lemma UnsavedRowsTie(older: Price, newer: Price, q: Query)
    requires older.accountID == newer.accountID == None && older.channelID == newer.channelID == None
    requires older.modelID == newer.modelID == "" && older.effectiveAt < newer.effectiveAt
    requires older.usageClass == "" && older.ForCache() && older.cacheState == q.cacheState
    requires newer.usageClass == q.usageClass != "" && newer.cacheState == CACHE_UNKNOWN
    ensures Scan([newer, older], q) == Some(newer) && !Precedence(newer, older)
  {
    var rows := [newer, older];
    assert rows[..1] == [newer] && rows[..1][..0] == [];
    assert Scan([newer], q) == Some(newer);
  }
}
