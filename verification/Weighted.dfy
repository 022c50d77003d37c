/** Weighted choice by cumulative sums, in the 64-bit arithmetic of the router. */
module Weighted {

  const TWO_62: int := 0x4000_0000_0000_0000
  const TWO_63: int := 0x8000_0000_0000_0000
  const TWO_64: int := 0x1_0000_0000_0000_0000

  type Uint64 = x: int | 0 <= x < TWO_64

  predicate InInt64(x: int) {
    -TWO_63 <= x < TWO_63
  }

  // What an int64 variable holds after x is stored in it.
  function Wrap64(x: int): (r: int)
    ensures InInt64(r)
    ensures InInt64(x) ==> r == x
  {
    (x + TWO_63) % TWO_64 - TWO_63
  }

  lemma WrapUnique(x: int, y: int, k: int)
    requires InInt64(y) && y == x + k * TWO_64
    ensures Wrap64(x) == y
  {
    var q := (x + TWO_63) / TWO_64;
    assert Wrap64(x) == x - q * TWO_64;
    assert -TWO_64 < (k + q) * TWO_64 < TWO_64;
  }

  lemma WrapSteps(a: int, b: int)
    ensures Wrap64(Wrap64(a) + Wrap64(b)) == Wrap64(a + b)
    ensures Wrap64(Wrap64(a) - Wrap64(b)) == Wrap64(a - b)
  {
    var i := (a + TWO_63) / TWO_64;
    var j := (b + TWO_63) / TWO_64;
    var s := (a + b + TWO_63) / TWO_64;
    var d := (a - b + TWO_63) / TWO_64;
    assert Wrap64(a) == a - i * TWO_64 && Wrap64(b) == b - j * TWO_64;
    WrapUnique(Wrap64(a) + Wrap64(b), Wrap64(a + b), i + j - s);
    WrapUnique(Wrap64(a) - Wrap64(b), Wrap64(a - b), i - j - d);
  }

  function Sum(ws: seq<Uint64>): nat {
    if ws == [] then 0 else Sum(ws[..|ws| - 1]) + ws[|ws| - 1]
  }

  // The weight that lies before position i.
  function Before(ws: seq<Uint64>, i: nat): nat
    requires i <= |ws|
  {
    Sum(ws[..i])
  }

  lemma BeforeStart(ws: seq<Uint64>)
    ensures Before(ws, 0) == 0 == Wrap64(0)
  {
    assert ws[..0] == [];
  }

  lemma BeforeStep(ws: seq<Uint64>, i: nat)
    requires i < |ws|
    ensures Before(ws, i + 1) == Before(ws, i) + ws[i]
  {
    assert ws[..i + 1][..i] == ws[..i];
  }

  lemma {:induction false} BeforeMonotone(ws: seq<Uint64>, i: nat, j: nat)
    requires i <= j <= |ws|
    ensures Before(ws, i) <= Before(ws, j) <= Sum(ws)
    decreases |ws| - i
  {
    if i < j {
      BeforeStep(ws, i);
      BeforeMonotone(ws, i + 1, j);
    } else if j < |ws| {
      BeforeStep(ws, j);
      BeforeMonotone(ws, j + 1, |ws|);
    } else {
      assert ws[..j] == ws;
    }
  }

  datatype Draw = Chosen(index: nat) | Panicked

  // The subtracting walk of the sampler from position k, with its fallback at the end.
  function Walk(ws: seq<Uint64>, n: int, k: nat): (i: nat)
    requires k <= |ws| && |ws| > 0
    ensures i < |ws|
    decreases |ws| - k
  {
    if k == |ws| then |ws| - 1
    else
      var left := Wrap64(n - Wrap64(ws[k]));
      if left < 0 then k else Walk(ws, left, k + 1)
  }

  // The sampler for a draw of the random source: rand.Intn(b) is draw % b, and it panics on b <= 0.
  function Pick(ws: seq<Uint64>, draw: nat): (r: Draw)
    ensures r.Chosen? ==> r.index < |ws|
  {
    if |ws| == 0 then Panicked
    else if |ws| == 1 then Chosen(0)
    else
      var total := Wrap64(Sum(ws));
      if total == 0 then Chosen(draw % |ws|)
      else if total < 0 then Panicked
      else Chosen(Walk(ws, draw % total, 0))
  }

  // The range of the draw is the whole weight exactly when that weight fits an int64.
  lemma DrawRangeExact(ws: seq<Uint64>)
    ensures Wrap64(Sum(ws)) == Sum(ws) <==> Sum(ws) < TWO_63
  {
  }

  // What the 64 bits of the stored total say: it is negative when their top bit is set.
  lemma WrapSign(x: nat)
    ensures Wrap64(x) < 0 <==> x % TWO_64 >= TWO_63
    ensures Wrap64(x) == 0 <==> x % TWO_64 == 0
  {
    var r, q := x % TWO_64, x / TWO_64;
    assert x == q * TWO_64 + r;
    WrapUnique(x, if r >= TWO_63 then r - TWO_64 else r, if r >= TWO_63 then -q - 1 else -q);
  }

  // Whether the sampler panics depends on the weights alone.
  predicate Panicky(ws: seq<Uint64>) {
    |ws| >= 2 && Sum(ws) % TWO_64 >= TWO_63
  }

  lemma PickPanicsExactly(ws: seq<Uint64>, draw: nat)
    ensures Pick(ws, draw).Panicked? <==> |ws| == 0 || Panicky(ws)
  {
    WrapSign(Sum(ws));
  }

  // Two weights that each fit a signed column are enough.
  lemma OverflowPanics(draw: nat)
    ensures Pick([TWO_62, TWO_62], draw) == Panicked
  {
    var ws: seq<Uint64> := [TWO_62, TWO_62];
    BeforeStep(ws, 0);
    BeforeStep(ws, 1);
    assert ws[..0] == [] && ws[..2] == ws;
    assert Sum(ws) == TWO_63;
    PickPanicsExactly(ws, draw);
  }

  lemma {:induction false} WalkFinds(ws: seq<Uint64>, n: nat, k: nat)
    requires k <= |ws| && Sum(ws) < TWO_63
    requires Before(ws, k) <= n < Sum(ws)
    ensures var i := Walk(ws, n - Before(ws, k), k);
            Before(ws, i) <= n < Before(ws, i + 1)
    decreases |ws| - k
  {
    assert Before(ws, |ws|) == Sum(ws) by {
      assert ws[..|ws|] == ws;
    }
    BeforeStep(ws, k);
    BeforeMonotone(ws, k + 1, |ws|);
    var left := n - Before(ws, k) - ws[k];
    assert Wrap64(ws[k]) == ws[k] && Wrap64(left) == left;
    if left >= 0 {
      WalkFinds(ws, n, k + 1);
    }
  }

  lemma SmallMod(d: nat, m: nat)
    requires d < m
    ensures d % m == d
  {
  }

  lemma PickLands(ws: seq<Uint64>, draw: nat) returns (j: nat)
    requires draw < Sum(ws) < TWO_63
    ensures j < |ws| && Pick(ws, draw) == Chosen(j)
    ensures Before(ws, j) <= draw < Before(ws, j + 1)
  {
    assert ws[..0] == [];
    assert ws[..|ws|] == ws;
    if |ws| == 1 {
      j := 0;
    } else {
      WalkFinds(ws, draw, 0);
      DrawRangeExact(ws);
      SmallMod(draw, Sum(ws));
      j := Walk(ws, draw, 0);
    }
  }

  // Position i is chosen exactly by the draws of its own interval; the intervals are
  // consecutive, so they are disjoint, cover the range and leave the fallback unreachable.
  lemma PickInterval(ws: seq<Uint64>, draw: nat, i: nat)
    requires i < |ws| && draw < Sum(ws) < TWO_63
    ensures Pick(ws, draw) == Chosen(i) <==> Before(ws, i) <= draw < Before(ws, i + 1)
  {
    var j := PickLands(ws, draw);
    if j < i {
      BeforeMonotone(ws, j + 1, i);
    } else if i < j {
      BeforeMonotone(ws, i + 1, j);
    }
  }

  // When the stored total is zero the positions are drawn evenly, one draw each.
  lemma PickEvenly(ws: seq<Uint64>, draw: nat)
    requires draw < |ws| && Sum(ws) % TWO_64 == 0
    ensures Pick(ws, draw) == Chosen(draw)
  {
    WrapSign(Sum(ws));
    SmallMod(draw, |ws|);
  }

  lemma PickTotal(ws: seq<Uint64>, draw: nat)
    requires 0 < |ws| && Sum(ws) < TWO_63
    ensures Pick(ws, draw).Chosen?
  {
  }

  // How many numbers below n satisfy p.
  function CountBelow(n: nat, p: nat -> bool): nat {
    if n == 0 then 0 else CountBelow(n - 1, p) + if p(n - 1) then 1 else 0
  }

  lemma {:induction false} CountInterval(a: nat, b: nat, p: nat -> bool, h: bool)
    requires a <= b && forall d :: a <= d < b ==> p(d) == h
    ensures CountBelow(b, p) == CountBelow(a, p) + if h then b - a else 0
    decreases b
  {
    if a < b {
      CountInterval(a, b - 1, p, h);
    }
  }

  // The weight of the positions that satisfy hit.
  function HitWeight(ws: seq<Uint64>, hit: nat -> bool): nat {
    if ws == [] then 0
    else HitWeight(ws[..|ws| - 1], hit) + if hit(|ws| - 1) then ws[|ws| - 1] else 0
  }

  lemma {:induction false} ShareUpTo(ws: seq<Uint64>, k: nat, hit: nat -> bool, p: nat -> bool)
    requires k <= |ws| && Sum(ws) < TWO_63
    requires forall d :: 0 <= d < Sum(ws) ==> Pick(ws, d).Chosen? && p(d) == hit(Pick(ws, d).index)
    ensures CountBelow(Before(ws, k), p) == HitWeight(ws[..k], hit)
  {
    if k > 0 {
      ShareUpTo(ws, k - 1, hit, p);
      BeforeStep(ws, k - 1);
      BeforeMonotone(ws, k, |ws|);
      assert ws[..k][..k - 1] == ws[..k - 1];
      forall d: nat | Before(ws, k - 1) <= d < Before(ws, k) ensures p(d) == hit(k - 1) {
        PickInterval(ws, d, k - 1);
      }
      CountInterval(Before(ws, k - 1), Before(ws, k), p, hit(k - 1));
    }
  }

  // Of the draws below the total weight, exactly as many land on a set of positions as those weigh.
  lemma Share(ws: seq<Uint64>, hit: nat -> bool, p: nat -> bool)
    requires Sum(ws) < TWO_63
    requires forall d :: 0 <= d < Sum(ws) ==> Pick(ws, d).Chosen? && p(d) == hit(Pick(ws, d).index)
    ensures CountBelow(Sum(ws), p) == HitWeight(ws, hit)
  {
    ShareUpTo(ws, |ws|, hit, p);
    assert ws[..|ws|] == ws;
  }
}
