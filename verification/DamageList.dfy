/** How a damage over time is split into falling portions (`generateDamageList`, src/condition.cpp). */
module DamageList {

  ghost function Total(xs: seq<int>): int {
    if xs == [] then 0 else Total(xs[..|xs| - 1]) + xs[|xs| - 1]
  }

  lemma TotalPush(xs: seq<int>, x: int)
    ensures Total(xs + [x]) == Total(xs) + x
  {
    assert (xs + [x])[..|xs|] == xs;
  }

  predicate Falling(xs: seq<int>) {
    forall i, j :: 0 <= i < j < |xs| ==> xs[i] >= xs[j]
  }

  lemma FallingPush(xs: seq<int>, x: int)
    requires Falling(xs) && forall v :: v in xs ==> x <= v
    ensures Falling(xs + [x])
  {
    assert forall i :: 0 <= i < |xs| ==> xs[i] in xs;
  }

  function Abs(n: int): nat {
    if n < 0 then -n else n
  }

  /** 1 + 2 + ... + n. */
  function Triangle(n: nat): nat {
    n * (n + 1) / 2
  }

  lemma TriangleStep(n: nat)
    requires n > 0
    ensures Triangle(n) == Triangle(n - 1) + n
  {
    assert n * (n + 1) == (n - 1) * n + 2 * n;
  }

  /** Is another portion of `i` called for? The source asks whether `sum + i` would be nearer to `med`,
      relatively, than `sum` is; when `med` is 0 both distances are infinite and the answer is no. */
  predicate AnotherIsNearer(sum: int, i: int, med: nat) {
    med > 0 && Abs(med - (sum + i)) < Abs(med - sum)
  }

  /** What the whole list comes to: the amount, or what the portions start, ..., 1 come to if that is more. */
  function Goal(amount: nat, start: nat): nat {
    if amount >= Triangle(start) then amount else Triangle(start)
  }

  function Share(amount: nat, start: nat, i: nat): nat
    requires 1 <= i <= start
  {
    Quotient((start + 1 - i) * amount, start)
  }

  function Quotient(a: nat, b: nat): nat
    requires b > 0
  {
    a / b
  }

  lemma ShareBound(amount: nat, start: nat, i: nat)
    requires 1 <= i <= start
    ensures start * Share(amount, start, i) <= (start + 1 - i) * amount
  {
    QuotientBound((start + 1 - i) * amount, start);
  }

  lemma QuotientBound(a: nat, b: nat)
    requires b > 0
    ensures b * Quotient(a, b) <= a < b * Quotient(a, b) + b
  {
  }

  /** Another portion of `i` is only called for while the portions `i - 1`, ..., 1 still fit after it. */
  lemma StillFits(amount: nat, start: nat, i: nat, sum: nat)
    requires 1 <= i <= start && AnotherIsNearer(sum, i, Share(amount, start, i))
    ensures sum + i + Triangle(i - 1) <= Goal(amount, start)
  {
    hide Share;
    hide Triangle;
    hide Goal;
    EvenProduct(i - 1);
    ShareBound(amount, start, i);
    Room(amount, start, i);
    Fits(start, Share(amount, start, i), i, sum + i, Goal(amount, start), (start + 1 - i) * amount);
  }

  lemma Fits(start: nat, med: nat, i: nat, x: int, limit: nat, share: nat)
    requires 1 <= i <= start && 2 * x <= 2 * med + i - 1 && start * med <= share
    requires 2 * share + start * ((i - 1) * (i + 1)) <= start * (2 * limit)
    ensures 2 * x + (i - 1) * i <= 2 * limit
  {
    var lhs, rhs := 2 * x + (i - 1) * i, 2 * med + (i - 1) * (i + 1);
    assert (i - 1) * (i + 1) == (i - 1) * i + (i - 1);
    Scale(start, lhs, rhs);
    assert start * rhs == 2 * (start * med) + start * ((i - 1) * (i + 1));
    Cancel(start, lhs, 2 * limit);
  }

  lemma Cancel(s: nat, a: int, b: int)
    requires s > 0 && s * a <= s * b
    ensures a <= b
  {
    if a > b {
      Scale(s, b + 1, a);
    }
  }

  lemma Scale(s: nat, a: int, b: int)
    requires a <= b
    ensures s * a <= s * b
  {
  }

  lemma EvenProduct(n: nat)
    ensures 2 * Triangle(n) == n * (n + 1)
  {
    if n == 0 {
    } else {
      EvenProduct(n - 1);
      TriangleStep(n);
    }
  }

  lemma Room(amount: nat, start: nat, i: nat)
    requires 1 <= i <= start
    ensures 2 * ((start + 1 - i) * amount) + start * ((i - 1) * (i + 1)) <= start * (2 * Goal(amount, start))
  {
    hide Triangle;
    EvenProduct(start);
    Scale(start, i + 1, start + 1);
    Combine(start + 1 - i, i - 1, amount, i + 1, 2 * Goal(amount, start));
  }

  /** Two products with a common bound `m`, weighed by `n` and `p`. */
  lemma Combine(n: nat, p: nat, a: nat, q: nat, m: nat)
    requires 2 * a <= m && (n + p) * q <= m
    ensures 2 * (n * a) + (n + p) * (p * q) <= (n + p) * m
  {
    var x := (n + p) * q;
    Scale(n, 2 * a, m);
    Scale(p, x, m);
    Swap(n + p, p, q);
    Double(n, a);
    Distribute(n, p, m);
  }

  lemma Swap(a: nat, b: nat, c: nat)
    ensures a * (b * c) == b * (a * c)
  {
  }

  lemma Double(a: nat, b: nat)
    ensures a * (2 * b) == 2 * (a * b)
  {
  }

  lemma Distribute(a: nat, b: nat, c: nat)
    ensures (a + b) * c == a * c + b * c
  {
  }

  /** The portions `from`, ..., 1 are each in the list. */
  predicate HasAll(xs: seq<int>, from: nat, to: nat) {
    forall v :: to < v <= from ==> v in xs
  }

  /** How far a sum is from the share, in shares. */
  function Distance(sum: int, med: nat): real
    requires med > 0
  {
    var d := 1.0 - sum as real / med as real;
    if d < 0.0 then -d else d
  }

  lemma NearerIs(sum: int, i: int, med: nat)
    ensures AnotherIsNearer(sum, i, med) <==> med > 0 && Distance(sum + i, med) < Distance(sum, med)
  {
    if med > 0 {
      DistancesCompare(sum + i, sum, med);
    }
    hide Distance;
    hide Abs;
  }

  lemma DistancesCompare(s: int, t: int, med: nat)
    requires med > 0
    ensures Distance(s, med) < Distance(t, med) <==> Abs(med - s) < Abs(med - t)
  {
    Apart(s, med);
    Apart(t, med);
    Compare(Distance(s, med), Distance(t, med), med as real, Abs(med - s), Abs(med - t));
    hide Distance;
    hide Abs;
  }

  lemma Compare(x: real, y: real, d: real, a: int, b: int)
    requires d > 0.0 && x * d == a as real && y * d == b as real
    ensures x < y <==> a < b
  {
    if x < y {
      ScaleReal(x, y, d);
    } else if y < x {
      ScaleReal(y, x, d);
    }
  }

  lemma Apart(sum: int, med: nat)
    requires med > 0
    ensures Distance(sum, med) * med as real == Abs(med - sum) as real
  {
    assert (sum as real / med as real) * med as real == sum as real;
    assert (1.0 - sum as real / med as real) * med as real == (med - sum) as real;
  }

  lemma ScaleReal(x: real, y: real, d: real)
    requires d > 0.0 && x < y
    ensures x * d < y * d
  {
    assert (y - x) * d > 0.0;
    assert (y - x) * d == y * d - x * d;
  }

  /** The k-th portion is followed by an equal one exactly if that takes the sum nearer to the share of portions that
      large. */
  ghost predicate RepeatsRightly(xs: seq<int>, k: nat, amount: nat, start: nat)
    requires k < |xs|
  {
    1 <= xs[k] <= start &&
    var share, sum := (start + 1 - xs[k]) * amount / start, Total(xs[..k + 1]);
    k + 1 < |xs| && xs[k + 1] == xs[k] <==> share > 0 && Distance(sum + xs[k], share) < Distance(sum, share)
  }

  ghost predicate Repeats(xs: seq<int>, n: int, amount: nat, start: nat)
    requires n <= |xs|
  {
    forall k :: 0 <= k < n ==> RepeatsRightly(xs, k, amount, start)
  }

  lemma RepeatsPush(xs: seq<int>, x: int, amount: nat, start: nat)
    requires xs != [] && Repeats(xs, |xs| - 1, amount, start) && xs[|xs| - 1] == x && 1 <= x <= start
    requires AnotherIsNearer(Total(xs), x, Share(amount, start, x))
    ensures Repeats(xs + [x], |xs|, amount, start)
  {
    forall k | 0 <= k < |xs| ensures RepeatsRightly(xs + [x], k, amount, start) {
      assert (xs + [x])[..k + 1] == xs[..k + 1];
      if k == |xs| - 1 {
        assert xs[..k + 1] == xs;
        NearerIs(Total(xs), x, Share(amount, start, x));
      } else {
        assert RepeatsRightly(xs, k, amount, start);
      }
    }
  }

  /** A smaller portion settles nothing about those before it. */
  lemma RepeatsSmaller(xs: seq<int>, x: int, amount: nat, start: nat)
    requires Repeats(xs, |xs|, amount, start) && forall v :: v in xs ==> x < v
    ensures Repeats(xs + [x], |xs|, amount, start)
  {
    forall k | 0 <= k < |xs| ensures RepeatsRightly(xs + [x], k, amount, start) {
      assert (xs + [x])[..k + 1] == xs[..k + 1];
      assert RepeatsRightly(xs, k, amount, start);
      assert xs[k] in xs;
    }
  }

  lemma RepeatsEnd(xs: seq<int>, amount: nat, start: nat)
    requires xs != [] && Repeats(xs, |xs| - 1, amount, start)
    requires var last := xs[|xs| - 1]; 1 <= last <= start && !AnotherIsNearer(Total(xs), last, Share(amount, start, last))
    ensures Repeats(xs, |xs|, amount, start)
  {
    assert xs[..|xs|] == xs;
    NearerIs(Total(xs), xs[|xs| - 1], Share(amount, start, xs[|xs| - 1]));
  }

  /** `generateDamageList`: falling portions, each of start, ..., 1 at least once, that come to exactly
      the amount if it is at least 1 + ... + start, and to just 1 + ... + start otherwise. */
  method GenerateDamageList(amount: int, start: int, list: seq<int>) returns (r: seq<int>)
    ensures |list| <= |r| && r[..|list|] == list
    ensures start <= 0 ==> r == list
    ensures start > 0 ==>
              var added, n := r[|list|..], Abs(amount);
              && (forall i, j :: 0 <= i < j < |added| ==> added[i] >= added[j])
              && (forall v :: v in added <==> 1 <= v <= start)
              && (forall k :: 0 <= k < |added| ==> RepeatsRightly(added, k, n, start))
              && 2 * Total(added) == if 2 * n >= start * (start + 1) then 2 * n else start * (start + 1)
  {
    hide Falling;
    hide Triangle;
    hide Share;
    hide Goal;
    hide Quotient;
    hide AnotherIsNearer;
    hide Total;
    hide Repeats;
    hide HasAll;
    var total: nat := Abs(amount);
    var sum := 0;
    var i := start;
    ghost var added: seq<int> := [];
    r := list;
    Nothing();
    if start > 0 {
      GoalIs(total, start);
      NothingYet(total, start);
    }
    while i > 0
      invariant start > 0 ==> 0 <= i <= start
      invariant r == list + added && Falling(added)
      invariant start > 0 ==> sum == Total(added) && sum >= 0 && Triangle(start) - Triangle(i) <= sum <= Goal(total, start) - Triangle(i)
      invariant start > 0 ==> HasAll(added, start, i) && forall v :: v in added ==> i < v <= start
      invariant i == 0 && start > 0 ==> sum >= total
      invariant start > 0 ==> Repeats(added, |added|, total, start)
      invariant start <= 0 ==> i == start && added == []
      decreases i
    {
      var n := start + 1 - i;
      var med := Quotient(n * total, start);
      ShareIs(total, start, i);
      TriangleStep(i);
      FallingPush(added, i);
      TotalPush(added, i);
      RepeatsSmaller(added, i, total, start);
      HasAllPush(added, start, i);
      sum := sum + i;
      r, added := r + [i], added + [i];
      while AnotherIsNearer(sum, i, med)
        invariant r == list + added && Falling(added)
        invariant sum == Total(added) && sum >= 0 && Triangle(start) - Triangle(i - 1) <= sum <= Goal(total, start) - Triangle(i - 1)
        invariant HasAll(added, start, i - 1) && forall v :: v in added ==> i <= v <= start
        invariant added != [] && added[|added| - 1] == i && Repeats(added, |added| - 1, total, start)
        decreases med - sum
      {
        NearerIsBelow(sum, i, med);
        StillFits(total, start, i, sum);
        FallingPush(added, i);
        TotalPush(added, i);
        RepeatsPush(added, i, total, start);
        HasAllPush(added, start, i);
        sum := sum + i;
        r, added := r + [i], added + [i];
      }
      RepeatsEnd(added, total, start);
      if i == 1 {
        LastShare(total, start);
        NotNearerIsDone(sum, med);
      }
      i := i - 1;
    }
    assert r[|list|..] == added;
    if start > 0 { Meaning(added, total, start); }
  }

  lemma HasAllPush(xs: seq<int>, from: nat, i: nat)
    requires i >= 1 && (HasAll(xs, from, i) || HasAll(xs, from, i - 1))
    ensures HasAll(xs + [i], from, i - 1)
  {
  }

  lemma Meaning(xs: seq<int>, amount: nat, start: nat)
    requires Falling(xs) && HasAll(xs, start, 0) && Repeats(xs, |xs|, amount, start)
    ensures forall i, j :: 0 <= i < j < |xs| ==> xs[i] >= xs[j]
    ensures forall v :: 1 <= v <= start ==> v in xs
    ensures forall k :: 0 <= k < |xs| ==> RepeatsRightly(xs, k, amount, start)
    ensures 2 * Triangle(start) == start * (start + 1)
  {
    EvenProduct(start);
  }

  lemma Nothing()
    ensures Falling([]) && Triangle(0) == 0 && Total([]) == 0
  {
  }

  lemma NothingYet(amount: nat, start: nat)
    ensures HasAll([], start, start) && Repeats([], 0, amount, start)
  {
  }

  lemma GoalIs(amount: nat, start: nat)
    ensures Goal(amount, start) == if amount >= Triangle(start) then amount else Triangle(start)
  {
  }

  /** Portions are added below the share only. */
  lemma NearerIsBelow(sum: int, i: int, med: nat)
    requires i >= 1 && AnotherIsNearer(sum, i, med)
    ensures sum < med
  {
  }

  lemma NotNearerIsDone(sum: int, med: nat)
    requires sum >= 0 && !AnotherIsNearer(sum, 1, med)
    ensures sum >= med
  {
  }

  lemma ShareIs(amount: nat, start: nat, i: nat)
    requires 1 <= i <= start
    ensures Share(amount, start, i) == Quotient((start + 1 - i) * amount, start)
  {
  }

  lemma LastShare(amount: nat, start: nat)
    requires start >= 1
    ensures Share(amount, start, 1) == amount
  {
    hide Quotient;
    var q := Share(amount, start, 1);
    QuotientBound(start * amount, start);
    Cancel(start, q, amount);
    if q < amount { Scale(start, q + 1, amount); }
  }
}
