/** The bisection search that finds the distance at which a path reaches a
    given altitude (used for the horizon distance). The path is represented
    only by its altitude-at-distance query `hAtDist`, an arbitrary function. */
module HorizonSearch {

  /** The search bracket starts as [0 m, 5000 km]. */
  const SearchStart: real := 0.0
  const SearchEnd: real := 5000000.0

  /** The loop stops once the bracket is at most 1e-5 m wide. */
  const Tolerance: real := 0.00001

  /** Number of halvings that brings 5000 km down to the tolerance:
      5e6 / 2^38 > 1e-5 >= 5e6 / 2^39. */
  const Halvings: nat := 39

  datatype Bracket = Bracket(minDist: real, maxDist: real)

  function Width(b: Bracket): real
  {
    b.maxDist - b.minDist
  }

  function Mid(b: Bracket): real
  {
    0.5 * (b.minDist + b.maxDist)
  }

  /** One pass of the loop: probe the midpoint and move the end on the
      side the altitude says the crossing lies. Exactly one end stays, the
      width halves, an ordered bracket stays inside the old one, and an end
      that moved has the altitude above the target (upper end) or at or
      below it (lower end). */
  function Halve(hAtDist: real -> real, tgtH: real, b: Bracket): (r: Bracket)
    ensures r.minDist == b.minDist || r.maxDist == b.maxDist
    ensures Width(r) == Width(b) / 2.0
    ensures b.minDist <= b.maxDist ==> b.minDist <= r.minDist <= r.maxDist <= b.maxDist
    ensures r.maxDist != b.maxDist ==> hAtDist(r.maxDist) > tgtH
    ensures r.minDist != b.minDist ==> hAtDist(r.minDist) <= tgtH
  {
    var cur := Mid(b);
    if hAtDist(cur) > tgtH then Bracket(b.minDist, cur) else Bracket(cur, b.maxDist)
  }

  /** The bracket after k passes of the loop: 5000 km halved k times wide. */
  function BracketAfter(hAtDist: real -> real, tgtH: real, k: nat): (r: Bracket)
    ensures Width(r) == WidthAfter(k)
  {
    if k == 0 then Bracket(SearchStart, SearchEnd)
    else Halve(hAtDist, tgtH, BracketAfter(hAtDist, tgtH, k - 1))
  }

  function Pow2(k: nat): nat
  {
    if k == 0 then 1 else 2 * Pow2(k - 1)
  }

  lemma {:induction false} Pow2Monotonic(j: nat, k: nat)
    requires j <= k
    ensures Pow2(j) <= Pow2(k)
  {
    if j < k {
      Pow2Monotonic(j, k - 1);
    }
  }

  lemma {:induction false} Pow2Add(a: nat, b: nat)
    ensures Pow2(a + b) == Pow2(a) * Pow2(b)
  {
    if b > 0 {
      Pow2Add(a, b - 1);
    }
  }

  lemma Pow2Values()
    ensures Pow2(38) == 274877906944 && Pow2(39) == 549755813888
  {
    assert Pow2(3) == 8;
    Pow2Add(3, 3);
    Pow2Add(6, 6);
    Pow2Add(12, 12);
    Pow2Add(24, 12);
    Pow2Add(36, 2);
    assert Pow2(2) == 4;
  }

  lemma MulMonotonic(a: real, b: real, c: real)
    requires a <= b && c >= 0.0
    ensures a * c <= b * c
  {
  }

  lemma WidthStep(w: real, w': real, p: real, p': real)
    requires w * p == SearchEnd && w' == w / 2.0 && p' == 2.0 * p
    ensures w' * p' == SearchEnd
  {
  }

  /** A width w with w * p == 5000 km for p <= 2^38 exceeds the tolerance. */
  lemma StillTooWide(w: real, p: real)
    requires w * p == SearchEnd && 0.0 <= p <= 274877906944.0
    ensures w > Tolerance
  {
    if w <= Tolerance {
      MulMonotonic(w, Tolerance, p);
    }
  }

  /** A width w with w * 2^39 == 5000 km is within the tolerance. */
  lemma NarrowEnough(w: real)
    requires w * 549755813888.0 == SearchEnd
    ensures w <= Tolerance
  {
  }

  /** What holds of the bracket after every pass: it is ordered, stays
      inside [0, 5000 km], and an end that has moved has the altitude above
      the target (upper end) or at or below it (lower end). */
  lemma {:induction false} BracketInvariant(hAtDist: real -> real, tgtH: real, k: nat)
    ensures var b := BracketAfter(hAtDist, tgtH, k);
      && SearchStart <= b.minDist <= b.maxDist <= SearchEnd
      && (b.maxDist < SearchEnd ==> hAtDist(b.maxDist) > tgtH)
      && (b.minDist > SearchStart ==> hAtDist(b.minDist) <= tgtH)
  {
    if k > 0 {
      BracketInvariant(hAtDist, tgtH, k - 1);
    }
  }

  /** Width of the bracket after k passes: 5000 km halved k times. */
  function WidthAfter(k: nat): real
  {
    if k == 0 then SearchEnd else WidthAfter(k - 1) / 2.0
  }

  /** WidthAfter(k) is 5000 km / 2^k. */
  lemma {:induction false} WidthAfterPow2(k: nat)
    ensures WidthAfter(k) * (Pow2(k) as real) == SearchEnd
  {
    if k > 0 {
      WidthAfterPow2(k - 1);
      WidthStep(WidthAfter(k - 1), WidthAfter(k), Pow2(k - 1) as real, Pow2(k) as real);
    }
  }

  /** After fewer than 39 passes the bracket is still wider than the
      tolerance; after 39 it is not. */
  lemma HalvingCount(hAtDist: real -> real, tgtH: real, k: nat)
    ensures k < Halvings ==> Width(BracketAfter(hAtDist, tgtH, k)) > Tolerance
    ensures k == Halvings ==> Width(BracketAfter(hAtDist, tgtH, k)) <= Tolerance
  {
    WidthAfterPow2(k);
    Pow2Values();
    if k < Halvings {
      Pow2Monotonic(k, 38);
      StillTooWide(WidthAfter(k), Pow2(k) as real);
    } else if k == Halvings {
      NarrowEnough(WidthAfter(k));
    }
  }

  /** The search of `find_dist_for_h`: halve [0, 5000 km] until it is at
      most 1e-5 m wide and return the midpoint. The result is the midpoint
      of the bracket after exactly 39 passes, so it depends on nothing but
      the path and the target altitude. */
  method FindDistForH(hAtDist: real -> real, tgtH: real) returns (dist: real)
    ensures dist == Mid(BracketAfter(hAtDist, tgtH, Halvings))
    ensures SearchStart <= dist <= SearchEnd
  {
    var minDist, maxDist := SearchStart, SearchEnd;
    ghost var k: nat := 0;
    while maxDist - minDist > Tolerance
      invariant k <= Halvings
      invariant Bracket(minDist, maxDist) == BracketAfter(hAtDist, tgtH, k)
      decreases Halvings - k
    {
      HalvingCount(hAtDist, tgtH, k);
      var curDist := 0.5 * (minDist + maxDist);
      var h := hAtDist(curDist);
      if h > tgtH {
        maxDist := curDist;
      } else {
        minDist := curDist;
      }
      k := k + 1;
    }
    HalvingCount(hAtDist, tgtH, k);
    BracketInvariant(hAtDist, tgtH, k);
    dist := 0.5 * (minDist + maxDist);
  }

  /** The result lies within half the tolerance of both final ends. */
  lemma ResultNearEnds(hAtDist: real -> real, tgtH: real)
    ensures var b := BracketAfter(hAtDist, tgtH, Halvings);
      && b.minDist <= Mid(b) <= b.maxDist
      && Mid(b) - b.minDist <= Tolerance / 2.0
      && b.maxDist - Mid(b) <= Tolerance / 2.0
  {
    BracketInvariant(hAtDist, tgtH, Halvings);
    HalvingCount(hAtDist, tgtH, Halvings);
  }

  /** If the altitude is at or below the target before some distance c
      and above it after c (the crossing), every bracket contains c, so
      the result is within 5e-6 m of the crossing. */
  lemma FindsCrossing(hAtDist: real -> real, tgtH: real, c: real, k: nat)
    requires SearchStart <= c <= SearchEnd
    requires forall y :: SearchStart <= y < c ==> hAtDist(y) <= tgtH
    requires forall y :: c < y <= SearchEnd ==> hAtDist(y) > tgtH
    ensures BracketAfter(hAtDist, tgtH, k).minDist <= c <= BracketAfter(hAtDist, tgtH, k).maxDist
    ensures k == Halvings ==> -Tolerance / 2.0 <= Mid(BracketAfter(hAtDist, tgtH, k)) - c <= Tolerance / 2.0
  {
    BracketInvariant(hAtDist, tgtH, k);
    HalvingCount(hAtDist, tgtH, k);
  }
}
