/** The combinations the depth-first enumeration visits, as nested loops over the factors'
    admissible levels with the leftmost factor slowest. */
module Enumeration {
  import opened Experiments

  /** `x` put in front of every tail. */
  function Prepend(x: int, tails: seq<seq<int>>): (r: seq<seq<int>>)
    ensures |r| == |tails|
    ensures forall j :: 0 <= j < |r| ==> r[j] == [x] + tails[j]
  {
    seq(|tails|, j requires 0 <= j < |tails| => [x] + tails[j])
  }

  /** For each x of `xs` in order, all of `tails` with x in front. */
  function Branches(xs: seq<int>, tails: seq<seq<int>>): seq<seq<int>>
  {
    if xs == [] then [] else Prepend(xs[0], tails) + Branches(xs[1..], tails)
  }

  /** The level combinations of `vs`, in the order they are visited. */
  function CrossProduct(vs: seq<Variation>): seq<seq<int>>
  {
    if vs == [] then [[]] else Branches(Admissible(vs[0]), CrossProduct(vs[1..]))
  }

  /** The product of the factors' admissible-level counts. */
  function LevelCountProduct(vs: seq<Variation>): nat
  {
    if vs == [] then 1 else |Admissible(vs[0])| * LevelCountProduct(vs[1..])
  }

  lemma {:induction false} BranchesSize(xs: seq<int>, tails: seq<seq<int>>)
    ensures |Branches(xs, tails)| == |xs| * |tails|
  {
    if xs != [] {
      BranchesSize(xs[1..], tails);
      assert Branches(xs, tails) == Prepend(xs[0], tails) + Branches(xs[1..], tails);
      assert |xs| * |tails| == (|xs| - 1) * |tails| + |tails|;
    }
  }

  /** The enumeration visits exactly the product of the admissible counts; with no factor
      at all, exactly one (empty) combination. */
  lemma {:induction false} CrossProductSize(vs: seq<Variation>)
    ensures |CrossProduct(vs)| == LevelCountProduct(vs)
  {
    if vs != [] {
      CrossProductSize(vs[1..]);
      BranchesSize(Admissible(vs[0]), CrossProduct(vs[1..]));
    }
  }

  /** Every combination has one level per factor. */
  lemma {:induction false} CrossProductLengths(vs: seq<Variation>)
    ensures forall k :: 0 <= k < |CrossProduct(vs)| ==> |CrossProduct(vs)[k]| == |vs|
  {
    if vs != [] {
      CrossProductLengths(vs[1..]);
      BranchesLengths(Admissible(vs[0]), CrossProduct(vs[1..]), |vs| - 1);
    }
  }

  lemma {:induction false} BranchesLengths(xs: seq<int>, tails: seq<seq<int>>, n: nat)
    requires forall j :: 0 <= j < |tails| ==> |tails[j]| == n
    ensures forall k :: 0 <= k < |Branches(xs, tails)| ==> |Branches(xs, tails)[k]| == n + 1
  {
    if xs != [] {
      BranchesLengths(xs[1..], tails, n);
      var head, rest := Prepend(xs[0], tails), Branches(xs[1..], tails);
      assert Branches(xs, tails) == head + rest;
      forall k | 0 <= k < |head + rest| ensures |(head + rest)[k]| == n + 1 {
        if k >= |head| { assert (head + rest)[k] == rest[k - |head|]; }
      }
    }
  }

  lemma {:induction false} BranchesAt(xs: seq<int>, tails: seq<seq<int>>, i: nat, j: nat)
    requires i < |xs| && j < |tails|
    ensures |Branches(xs, tails)| == |xs| * |tails|
    ensures i * |tails| + j < |Branches(xs, tails)|
    ensures Branches(xs, tails)[i * |tails| + j] == [xs[i]] + tails[j]
  {
    BranchesSize(xs, tails);
    var m := |tails|;
    var head := Prepend(xs[0], tails);
    var rest := Branches(xs[1..], tails);
    assert Branches(xs, tails) == head + rest;
    if i == 0 {
      assert i * m + j == j;
    } else {
      BranchesAt(xs[1..], tails, i - 1, j);
      var k := (i - 1) * m + j;
      assert i * m == (i - 1) * m + m;
      assert |xs| * m == (|xs| - 1) * m + m;
      assert i * m + j == m + k;
      assert (head + rest)[m + k] == rest[k];
    }
  }

  /** Nested-loop order: combination number i * M + j, with M the number of combinations of
      the remaining factors, is the first factor's i-th level followed by the j-th
      combination of the remaining factors. */
  lemma NestedLoopOrder(vs: seq<Variation>, i: nat, j: nat)
    requires vs != []
    requires i < |Admissible(vs[0])| && j < |CrossProduct(vs[1..])|
    ensures i * |CrossProduct(vs[1..])| + j < |CrossProduct(vs)|
    ensures CrossProduct(vs)[i * |CrossProduct(vs[1..])| + j]
         == [Admissible(vs[0])[i]] + CrossProduct(vs[1..])[j]
  {
    var xs, tails := Admissible(vs[0]), CrossProduct(vs[1..]);
    assert CrossProduct(vs) == Branches(xs, tails);
    BranchesAt(xs, tails, i, j);
  }

  /** `c` has one level per factor, each admissible for its factor. */
  ghost predicate Fits(vs: seq<Variation>, c: seq<int>) {
    |c| == |vs| && forall k :: 0 <= k < |c| ==> c[k] in Admissible(vs[k])
  }

  lemma {:induction false} BranchesMembership(xs: seq<int>, tails: seq<seq<int>>, c: seq<int>)
    ensures c in Branches(xs, tails) <==> |c| > 0 && c[0] in xs && c[1..] in tails
  {
    if xs != [] {
      BranchesMembership(xs[1..], tails, c);
      if |c| > 0 && c[1..] in tails && c[0] == xs[0] {
        var j :| 0 <= j < |tails| && tails[j] == c[1..];
        assert Prepend(xs[0], tails)[j] == c;
      }
    }
  }

  /** The enumeration is sound and complete: a level sequence is visited iff it has one
      admissible level per factor. */
  lemma {:induction false} CrossProductMembership(vs: seq<Variation>, c: seq<int>)
    ensures c in CrossProduct(vs) <==> Fits(vs, c)
  {
    if vs != [] {
      BranchesMembership(Admissible(vs[0]), CrossProduct(vs[1..]), c);
      if |c| > 0 {
        CrossProductMembership(vs[1..], c[1..]);
        if Fits(vs, c) {
          assert Fits(vs[1..], c[1..]) by {
            forall k | 0 <= k < |c[1..]| ensures c[1..][k] in Admissible(vs[1..][k]) {
              assert c[1..][k] == c[k + 1];
            }
          }
        }
        if c[0] in Admissible(vs[0]) && Fits(vs[1..], c[1..]) {
          forall k | 0 <= k < |c| ensures c[k] in Admissible(vs[k]) {
            if k > 0 {
              assert c[k] == c[1..][k - 1];
            }
          }
        }
      }
    }
  }

  /** Every visited combination has one level per factor, each within that factor's
      [minValue, maxValue]. */
  lemma CombinationsInRange(vs: seq<Variation>, c: seq<int>)
    requires c in CrossProduct(vs)
    ensures |c| == |vs|
    ensures forall k :: 0 <= k < |c| ==> vs[k].minValue <= c[k] <= vs[k].maxValue
  {
    CrossProductMembership(vs, c);
    forall k | 0 <= k < |c| ensures vs[k].minValue <= c[k] <= vs[k].maxValue {
      AdmissibleInRange(vs[k]);
      var i :| 0 <= i < |Admissible(vs[k])| && Admissible(vs[k])[i] == c[k];
    }
  }

  /** Branching over the levels of `xs`, then of `ys`, is branching over `xs + ys`. */
  lemma {:induction false} BranchesAppend(xs: seq<int>, ys: seq<int>, tails: seq<seq<int>>)
    ensures Branches(xs + ys, tails) == Branches(xs, tails) + Branches(ys, tails)
  {
    if xs == [] {
      assert xs + ys == ys;
    } else {
      assert (xs + ys)[1..] == xs[1..] + ys;
      BranchesAppend(xs[1..], ys, tails);
    }
  }
}
