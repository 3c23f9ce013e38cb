/**
 * Largest-first change-making: the loop that `calculateChange` (server/src/routes/sales.ts:7-29)
 * and `calculateOptimalPayout` (server/src/routes/drawer.ts:4-33) both run. Each visits a list
 * of face values once, takes `min(floor(remaining / d), available)` of each, records the
 * positive counts and keeps what is left over.
 */
module ChangeMaking {
  import opened Denominations

  function Min(x: int, y: int): int {
    if x <= y then x else y
  }

  lemma MulMono(n: int, q: int, d: int)
    requires n <= q && d > 0
    ensures n * d <= q * d
  {
  }

  /**
   * How many of face value d one step takes out of `remaining` when `available` are at hand:
   * `Math.min(Math.floor(remaining / d), available)`. Dafny's division rounds down for a
   * positive divisor, as Math.floor does.
   */
  function Take(d: int, available: int, remaining: int): (n: int)
    requires d > 0
    ensures n <= available && n <= remaining / d && n * d <= remaining
    ensures n == available || remaining < (n + 1) * d
  {
    var q := remaining / d;
    assert remaining == q * d + remaining % d && 0 <= remaining % d < d;
    var n := Min(q, available);
    MulMono(n, q, d);
    assert n == q ==> (n + 1) * d == q * d + d;
    n
  }

  /**
   * The loop from the current position on: `acc` holds the counts recorded so far and the
   * result is the final record together with the amount still left over.
   */
  function Run(ds: seq<int>, avail: Amount, remaining: int, acc: Amount): (Amount, int)
    requires AllPositive(ds)
  {
    if ds == [] then (acc, remaining)
    else
      var d := ds[0];
      var n := Take(d, Count(avail, d), remaining);
      if n > 0 then Run(ds[1..], avail, remaining - n * d, acc[d := n])
      else Run(ds[1..], avail, remaining, acc)
  }

  /** Facts about the tail of a duplicate-free list of positive face values. */
  lemma Tail(ds: seq<int>)
    requires ds != [] && AllPositive(ds) && Distinct(ds)
    ensures AllPositive(ds[1..]) && Distinct(ds[1..])
    ensures forall x | x in ds[1..] :: x in ds && x != ds[0]
  {
    forall x | x in ds[1..]
      ensures x in ds && x != ds[0]
    {
      var i :| 0 <= i < |ds[1..]| && ds[1..][i] == x;
      assert ds[i + 1] == x;
    }
  }

  /** One step of the loop at position i, as the source writes it. */
  lemma RunStep(ds: seq<int>, i: int, avail: Amount, remaining: int, acc: Amount)
    requires AllPositive(ds) && 0 <= i < |ds|
    ensures AllPositive(ds[i..]) && AllPositive(ds[i + 1..])
    ensures var d := ds[i];
      var n := Min(remaining / d, Count(avail, d));
      Run(ds[i..], avail, remaining, acc) ==
        if n > 0 then Run(ds[i + 1..], avail, remaining - n * d, acc[d := n])
        else Run(ds[i + 1..], avail, remaining, acc)
  {
    assert forall j | 0 <= j < |ds[i..]| :: ds[i..][j] == ds[i + j];
    assert ds[i..][1..] == ds[i + 1..];
  }

  /** The loop reads the available counts only through Count on the listed face values. */
  lemma {:induction false} RunAgree(ds: seq<int>, a: Amount, b: Amount, remaining: int, acc: Amount)
    requires AllPositive(ds)
    requires forall d | d in ds :: Count(a, d) == Count(b, d)
    ensures Run(ds, a, remaining, acc) == Run(ds, b, remaining, acc)
  {
    if ds != [] {
      var d := ds[0];
      var n := Take(d, Count(a, d), remaining);
      assert d in ds;
      assert forall x | x in ds[1..] :: x in ds;
      if n > 0 {
        RunAgree(ds[1..], a, b, remaining - n * d, acc[d := n]);
      } else {
        RunAgree(ds[1..], a, b, remaining, acc);
      }
    }
  }

  /** What is recorded plus what is left over always accounts for the amount asked for. */
  lemma {:induction false} RunExact(ds: seq<int>, avail: Amount, remaining: int, acc: Amount, all: seq<int>)
    requires AllPositive(ds) && Distinct(ds) && Distinct(all)
    requires forall d | d in ds :: d in all && d !in acc
    ensures ValueOver(all, Run(ds, avail, remaining, acc).0) + Run(ds, avail, remaining, acc).1
         == ValueOver(all, acc) + remaining
  {
    if ds != [] {
      var d := ds[0];
      var n := Take(d, Count(avail, d), remaining);
      Tail(ds);
      assert d in ds;
      if n > 0 {
        var acc' := acc[d := n];
        ValueOverUpdate(all, acc, d, n);
        assert ValueOver(all, acc') == ValueOver(all, acc) + d * n;
        assert forall x | x in ds[1..] :: x in all && x !in acc';
        RunExact(ds[1..], avail, remaining - n * d, acc', all);
        assert Run(ds, avail, remaining, acc) == Run(ds[1..], avail, remaining - n * d, acc');
      } else {
        RunExact(ds[1..], avail, remaining, acc, all);
        assert Run(ds, avail, remaining, acc) == Run(ds[1..], avail, remaining, acc);
      }
    }
  }

  /** Starting from a non-negative amount, what is left over stays between zero and the start. */
  lemma {:induction false} RunLeftover(ds: seq<int>, avail: Amount, remaining: int, acc: Amount)
    requires AllPositive(ds) && remaining >= 0
    ensures 0 <= Run(ds, avail, remaining, acc).1 <= remaining
  {
    if ds != [] {
      var d := ds[0];
      var n := Take(d, Count(avail, d), remaining);
      if n > 0 {
        RunLeftover(ds[1..], avail, remaining - n * d, acc[d := n]);
      } else {
        RunLeftover(ds[1..], avail, remaining, acc);
      }
    }
  }

  /** Nothing is taken when nothing is owed. */
  lemma {:induction false} RunNothingOwed(ds: seq<int>, avail: Amount, remaining: int, acc: Amount)
    requires AllPositive(ds) && remaining <= 0
    ensures Run(ds, avail, remaining, acc) == (acc, remaining)
  {
    if ds != [] {
      RunNothingOwed(ds[1..], avail, remaining, acc);
    }
  }

  /**
   * Every recorded count is either carried over from `acc` or a positive count of a visited face
   * value, at most what was available of it.
   */
  lemma {:induction false} RunBounds(ds: seq<int>, avail: Amount, remaining: int, acc: Amount)
    requires AllPositive(ds)
    ensures var r := Run(ds, avail, remaining, acc).0;
      forall k | k in r :: (k in ds && 0 < r[k] <= Count(avail, k)) || (k in acc && r[k] == acc[k])
  {
    if ds != [] {
      var d := ds[0];
      var n := Take(d, Count(avail, d), remaining);
      assert forall x | x in ds[1..] :: x in ds;
      if n > 0 {
        RunBounds(ds[1..], avail, remaining - n * d, acc[d := n]);
      } else {
        RunBounds(ds[1..], avail, remaining, acc);
      }
    }
  }

  /**
   * The whole greedy pass over `ds` from an empty record: the counts it chooses and the amount
   * it could not pay. The chosen counts pay exactly the amount minus the leftover, each is
   * positive and within what is available, and nothing is chosen when nothing is owed.
   */
  function Greedy(ds: seq<int>, avail: Amount, amount: int): (r: (Amount, int))
    requires AllPositive(ds) && Distinct(ds)
    ensures ValueOver(ds, r.0) + r.1 == amount
    ensures amount >= 0 ==> 0 <= r.1 <= amount
    ensures amount <= 0 ==> r == (map[], amount)
    ensures forall k | k in r.0 :: k in ds && 0 < r.0[k] <= Count(avail, k)
  {
    var empty: Amount := map[];
    RunExact(ds, avail, amount, empty, ds);
    ValueOverNoKeys(ds, empty);
    RunBounds(ds, avail, amount, empty);
    RunSign(ds, avail, amount, empty);
    Run(ds, avail, amount, empty)
  }

  lemma RunSign(ds: seq<int>, avail: Amount, amount: int, acc: Amount)
    requires AllPositive(ds)
    ensures amount >= 0 ==> 0 <= Run(ds, avail, amount, acc).1 <= amount
    ensures amount <= 0 ==> Run(ds, avail, amount, acc) == (acc, amount)
  {
    if amount >= 0 {
      RunLeftover(ds, avail, amount, acc);
    }
    if amount <= 0 {
      RunNothingOwed(ds, avail, amount, acc);
    }
  }

  /** The greedy pass over the fixed face values, largest first, as `calculateChange` runs it. */
  function ChangeFor(avail: Amount, amount: int): (r: (Amount, int))
    ensures Value(r.0) + r.1 == amount
    ensures amount >= 0 ==> 0 <= r.1 <= amount
    ensures amount <= 0 ==> r == (map[], amount)
    ensures forall k | k in r.0 :: k in Denoms && 0 < r.0[k] <= Count(avail, k)
  {
    DenomsFacts();
    Greedy(Denoms, avail, amount)
  }

  /** Two drawers with the same count of every fixed face value get the same change. */
  lemma ChangeForAgree(a: Amount, b: Amount, amount: int)
    requires forall d | d in Denoms :: Count(a, d) == Count(b, d)
    ensures ChangeFor(a, amount) == ChangeFor(b, amount)
  {
    DenomsFacts();
    RunAgree(Denoms, a, b, amount, map[]);
  }
}
