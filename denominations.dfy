/**
 * Yen face values and per-denomination counts.
 *
 * The fixed list of face values (DENOMINATIONS in server/src/utils.ts, repeated as a literal in
 * the routes and the client components) and the cash value of a count map, which the source
 * computes everywhere as `Object.entries(a).reduce((s, [d, c]) => s + parseInt(d) * c, 0)`.
 */
module Denominations {

  /** Counts per face value, as the JSON objects `{ [denom]: count }` hold them. */
  type Amount = map<int, int>

  /** The face values, largest first. */
  const Denoms: seq<int> := [10000, 5000, 2000, 1000, 500, 100, 50, 10, 5, 1]

  /** The count of face value d; an absent key reads as zero (`a[d] || 0`). */
  function Count(a: Amount, d: int): int {
    if d in a then a[d] else 0
  }

  predicate Distinct(ds: seq<int>) {
    forall i, j | 0 <= i < j < |ds| :: ds[i] != ds[j]
  }

  predicate Descending(ds: seq<int>) {
    forall i, j | 0 <= i < j < |ds| :: ds[i] > ds[j]
  }

  predicate AllPositive(ds: seq<int>) {
    forall i | 0 <= i < |ds| :: ds[i] > 0
  }

  /** Every key of the amount is one of the listed face values. */
  predicate KeysIn(a: Amount, ds: seq<int>) {
    forall d | d in a :: d in ds
  }

  /** The sum of d * count over the face values listed in ds. */
  function ValueOver(ds: seq<int>, a: Amount): int {
    if ds == [] then 0 else ds[0] * Count(a, ds[0]) + ValueOver(ds[1..], a)
  }

  /** A non-empty set has an element. */
  lemma NonEmpty(s: set<int>)
    requires s != {}
    ensures exists x :: x in s
  {
    if forall x :: x !in s {
      assert false;
    }
  }

  /** m is at least every element of s. */
  predicate IsMax(m: int, s: set<int>) {
    forall x | x in s :: x <= m
  }

  lemma {:induction false} MaxWitness(s: set<int>) returns (m: int)
    requires s != {}
    ensures m in s && IsMax(m, s)
    decreases |s|
  {
    NonEmpty(s);
    var y :| y in s;
    var rest := s - {y};
    if rest == {} {
      assert s == {y};
      m := y;
    } else {
      var r := MaxWitness(rest);
      m := if y > r then y else r;
      forall x | x in s
        ensures x <= m
      {
        if x != y {
          assert x in rest;
        }
      }
    }
  }

  function MaxOf(s: set<int>): (m: int)
    requires s != {}
    ensures m in s && IsMax(m, s)
  {
    MaxWitnessExists(s);
    var m :| m in s && IsMax(m, s);
    m
  }

  lemma MaxWitnessExists(s: set<int>)
    requires s != {}
    ensures exists m :: m in s && IsMax(m, s)
  {
    var m := MaxWitness(s);
  }

  /** The keys of an object listed as `Object.keys(o).map(Number).sort((a, b) => b - a)` lists them. */
  function SortDesc(s: set<int>): (r: seq<int>)
    ensures Descending(r) && |r| == |s|
    ensures forall x :: x in r <==> x in s
    decreases |s|
  {
    if s == {} then [] else
      var m := MaxOf(s);
      [m] + SortDesc(s - {m})
  }

  /**
   * The cash value of an amount whose keys are face values: what the source's
   * `Object.entries(a).reduce((s, [d, c]) => s + parseInt(d) * c, 0)` computes for it.
   */
  function Value(a: Amount): int {
    ValueOver(Denoms, a)
  }

  /** Removing one position from a duplicate-free list removes exactly that element. */
  lemma RemoveAt(ds: seq<int>, i: int)
    requires Distinct(ds) && 0 <= i < |ds|
    ensures Distinct(ds[..i] + ds[i + 1..])
    ensures forall x :: x in ds[..i] + ds[i + 1..] <==> x in ds && x != ds[i]
  {
    var r := ds[..i] + ds[i + 1..];
    assert forall j | 0 <= j < |r| :: r[j] == if j < i then ds[j] else ds[j + 1];
    forall x | x in ds && x != ds[i]
      ensures x in r
    {
      var j :| 0 <= j < |ds| && ds[j] == x;
      if j < i { assert r[j] == x; } else { assert r[j - 1] == x; }
    }
  }

  lemma {:induction false} ValueOverAgree(ds: seq<int>, a: Amount, b: Amount)
    requires forall d | d in ds :: Count(a, d) == Count(b, d)
    ensures ValueOver(ds, a) == ValueOver(ds, b)
  {
    if ds != [] {
      ValueOverAgree(ds[1..], a, b);
    }
  }

  lemma {:induction false} ValueOverNoKeys(ds: seq<int>, a: Amount)
    requires forall d | d in ds :: d !in a
    ensures ValueOver(ds, a) == 0
  {
    if ds != [] {
      ValueOverNoKeys(ds[1..], a);
    }
  }

  /** Any one face value of the list can be summed first. */
  lemma {:induction false} ValueOverRemove(ds: seq<int>, i: int, a: Amount)
    requires 0 <= i < |ds|
    ensures ValueOver(ds, a) == ds[i] * Count(a, ds[i]) + ValueOver(ds[..i] + ds[i + 1..], a)
  {
    if i == 0 {
      assert ds[..0] + ds[1..] == ds[1..];
    } else {
      ValueOverRemove(ds[1..], i - 1, a);
      assert ds[1..][..i - 1] + ds[1..][i..] == (ds[..i] + ds[i + 1..])[1..];
    }
  }

  /**
   * The value does not depend on the order in which the face values are visited: two
   * duplicate-free lists that contain the same keys of `a` give the same sum.
   */
  lemma {:induction false} ValueOverCover(ds: seq<int>, es: seq<int>, a: Amount)
    requires Distinct(ds) && Distinct(es)
    requires forall d | d in a :: d in ds <==> d in es
    ensures ValueOver(ds, a) == ValueOver(es, a)
    decreases |ds|
  {
    if ds == [] {
      ValueOverNoKeys(es, a);
    } else {
      var d := ds[0];
      assert forall x | x in ds[1..] :: x in ds && x != d;
      if d in es {
        var i :| 0 <= i < |es| && es[i] == d;
        ValueOverRemove(es, i, a);
        RemoveAt(es, i);
        ValueOverCover(ds[1..], es[..i] + es[i + 1..], a);
      } else {
        ValueOverCover(ds[1..], es, a);
      }
    }
  }

  /** Summing over any duplicate-free list of face values that holds every key gives the value. */
  lemma ValueIsValueOver(ds: seq<int>, a: Amount)
    requires Distinct(ds) && KeysIn(a, ds) && KeysIn(a, Denoms)
    ensures Value(a) == ValueOver(ds, a)
  {
    DenomsFacts();
    ValueOverCover(Denoms, ds, a);
  }

  lemma DenomsFacts()
    ensures Distinct(Denoms) && AllPositive(Denoms) && Descending(Denoms)
  {
    StepsDescending(Denoms);
    forall i | 0 <= i < |Denoms|
      ensures Denoms[i] > 0
    {
      if i < |Denoms| - 1 {
        assert Denoms[i] > Denoms[|Denoms| - 1];
      }
    }
  }

  /** A list that falls from each element to the next is descending. */
  lemma {:induction false} StepsDescending(ds: seq<int>)
    requires forall i | 0 <= i < |ds| - 1 :: ds[i] > ds[i + 1]
    ensures Descending(ds)
    decreases |ds|
  {
    if |ds| > 1 {
      var tail := ds[1..];
      StepsDescending(tail);
      forall i, j | 0 <= i < j < |ds|
        ensures ds[i] > ds[j]
      {
        if i > 0 {
          assert tail[i - 1] > tail[j - 1];
        } else if j > 1 {
          assert tail[0] > tail[j - 1];
        }
      }
    }
  }

  /** Setting the count of one face value changes the value by that face value times the change. */
  lemma {:induction false} ValueOverUpdate(ds: seq<int>, a: Amount, k: int, v: int)
    requires Distinct(ds) && k in ds
    ensures ValueOver(ds, a[k := v]) == ValueOver(ds, a) + k * (v - Count(a, k))
  {
    var i :| 0 <= i < |ds| && ds[i] == k;
    var rest := ds[..i] + ds[i + 1..];
    ValueOverRemove(ds, i, a);
    ValueOverRemove(ds, i, a[k := v]);
    RemoveAt(ds, i);
    ValueOverAgree(rest, a, a[k := v]);
  }

  lemma ValueUpdate(a: Amount, k: int, v: int)
    requires k in Denoms
    ensures Value(a[k := v]) == Value(a) + k * (v - Count(a, k))
  {
    DenomsFacts();
    ValueOverUpdate(Denoms, a, k, v);
  }

  /** The value of a sum of counts is the sum of the values. */
  lemma {:induction false} ValueOverAdd(ds: seq<int>, a: Amount, b: Amount, c: Amount)
    requires forall d | d in ds :: Count(c, d) == Count(a, d) + Count(b, d)
    ensures ValueOver(ds, c) == ValueOver(ds, a) + ValueOver(ds, b)
  {
    if ds != [] {
      var d := ds[0];
      assert d in ds;
      assert forall x | x in ds[1..] :: x in ds;
      ValueOverAdd(ds[1..], a, b, c);
      Distribute(d, Count(a, d), Count(b, d));
    }
  }

  lemma Distribute(x: int, y: int, z: int)
    ensures x * (y + z) == x * y + x * z
  {
  }

  /** A descending list is the sorted form of its own element set. */
  lemma {:induction false} SortDescUnique(ds: seq<int>, s: set<int>)
    requires Descending(ds)
    requires forall x :: x in ds <==> x in s
    ensures ds == SortDesc(s)
    decreases |ds|
  {
    if ds == [] {
      assert forall x :: x !in s;
      assert s == {};
    } else {
      DescendingHead(ds, s);
      DescendingTail(ds, s);
      SortDescUnique(ds[1..], s - {ds[0]});
      SortDescCons(ds, s);
    }
  }

  lemma SortDescCons(ds: seq<int>, s: set<int>)
    requires ds != [] && s != {} && ds[0] == MaxOf(s)
    requires ds[1..] == SortDesc(s - {ds[0]})
    ensures ds == SortDesc(s)
  {
    assert ds == [ds[0]] + ds[1..];
  }

  /** The first element of a descending list is the largest of its elements. */
  lemma DescendingHead(ds: seq<int>, s: set<int>)
    requires Descending(ds) && ds != []
    requires forall x :: x in ds <==> x in s
    ensures s != {} && ds[0] == MaxOf(s)
  {
    assert ds[0] in ds;
    var m := MaxOf(s);
    var j :| 0 <= j < |ds| && ds[j] == m;
  }

  /** The rest of a descending list holds every other element, and is descending. */
  lemma DescendingTail(ds: seq<int>, s: set<int>)
    requires Descending(ds) && ds != []
    requires forall x :: x in ds <==> x in s
    ensures Descending(ds[1..])
    ensures forall x :: x in ds[1..] <==> x in s - {ds[0]}
  {
    var tail := ds[1..];
    forall x
      ensures x in tail <==> x in s - {ds[0]}
    {
      if x in tail {
        var i :| 0 <= i < |tail| && tail[i] == x;
        assert ds[i + 1] == x;
      }
      if x in s - {ds[0]} {
        var i :| 0 <= i < |ds| && ds[i] == x;
        assert tail[i - 1] == x;
      }
    }
  }

  /**
   * A set holding exactly the fixed face values sorts back to the fixed list; in particular
   * the `.sort((a, b) => b - a)` applied to the literal list leaves it unchanged.
   */
  lemma DenomsSorted(s: set<int>)
    requires forall x :: x in s <==> x in Denoms
    ensures SortDesc(s) == Denoms
  {
    DenomsFacts();
    SortDescUnique(Denoms, s);
  }
}
