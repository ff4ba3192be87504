/** The integer running average of adc_rails.c: three rails sampled round-robin, each folded
  * into avg = (avg * 63 + raw) / 64. */
module AdcRails {
  import opened Words

  function Average(avg: nat, raw: nat): nat { Wrap32(Wrap32(avg * 63) + raw) / 64 }

  /** One rail over a series of samples. */
  function Fold(avg: nat, xs: seq<Half>): nat {
    if xs == [] then avg else Average(Fold(avg, xs[..|xs| - 1]), xs[|xs| - 1])
  }

  /** The samples that rail i takes from a series: every third. */
  function Share(xs: seq<Half>, i: nat): seq<Half> {
    if xs == [] then []
    else Share(xs[..|xs| - 1], i) + if (|xs| - 1) % 3 == i then [xs[|xs| - 1]] else []
  }

  class Rails {
    const avg: array<nat>
    var currentRail: nat
    ghost var taken: seq<Half>    // every sample since adc_rails_init

    ghost predicate Valid()
      reads this, avg
    {
      && avg.Length == 3 && currentRail == |taken| % 3
      && forall i :: 0 <= i < 3 ==> avg[i] == Fold(0, Share(taken, i)) <= 0xFFFF
    }

    constructor ()
      ensures Valid() && taken == []
    {
      avg := new nat[3](_ => 0);
      currentRail := 0;
      taken := [];
    }

    method Sample(raw: Half)
      requires Valid()
      modifies this, avg
      ensures Valid() && taken == old(taken) + [raw]
    {
      NoOverflow(avg[currentRail], raw);
      avg[currentRail] := Average(avg[currentRail], raw);
      currentRail := (currentRail + 1) % 3;
      taken := taken + [raw];
      assert taken[..|taken| - 1] == old(taken);
      forall i | 0 <= i < 3 && i != old(currentRail)
        ensures Share(taken, i) == Share(old(taken), i)
      {
      }
      ghost var share := Share(taken, old(currentRail));
      assert share[..|share| - 1] == Share(old(taken), old(currentRail));
    }
  }

  /** Sixteen-bit samples keep the average sixteen-bit, so the 32-bit product never wraps. */
  lemma NoOverflow(avg: nat, raw: nat)
    requires avg <= 0xFFFF && raw <= 0xFFFF
    ensures Average(avg, raw) == (avg * 63 + raw) / 64 <= 0xFFFF
  {
  }

  /** With samples in [lo, hi], an average in [lo - 63, hi] stays there. */
  lemma {:induction false} StaysInBand(avg: nat, xs: seq<Half>, lo: nat, hi: nat)
    requires lo <= hi <= 0xFFFF && lo - 63 <= avg <= hi
    requires forall i :: 0 <= i < |xs| ==> lo <= xs[i] <= hi
    ensures lo - 63 <= Fold(avg, xs) <= hi
  {
    if xs != [] {
      StaysInBand(avg, xs[..|xs| - 1], lo, hi);
      NoOverflow(Fold(avg, xs[..|xs| - 1]), xs[|xs| - 1]);
    }
  }

  /** Where a constant input takes the average: exactly there from above; 63 short of it from 63 or
    * more below; and it does not move at all when it is less than 64 below. */
  function Limit(avg: nat, r: nat): nat {
    if avg >= r then r else if r - avg >= 63 then r - 63 else avg
  }

  function Distance(avg: nat, r: nat): nat {
    if avg >= Limit(avg, r) then avg - Limit(avg, r) else Limit(avg, r) - avg
  }

  lemma OneStep(avg: nat, r: nat)
    requires avg <= 0xFFFF && r <= 0xFFFF
    ensures Limit(Average(avg, r), r) == Limit(avg, r)
    ensures Distance(avg, r) > 0 ==> Distance(Average(avg, r), r) < Distance(avg, r)
    ensures Average(avg, r) == avg <==> avg == Limit(avg, r)
  {
    NoOverflow(avg, r);
    if avg >= r {
      assert avg * 63 + r == 64 * avg - (avg - r);
    } else {
      assert avg * 63 + r == 64 * avg + (r - avg);
    }
  }

  lemma {:induction false} Approaches(avg: nat, xs: seq<Half>, r: nat)
    requires avg <= 0xFFFF && r <= 0xFFFF && forall i :: 0 <= i < |xs| ==> xs[i] == r
    ensures Fold(avg, xs) <= 0xFFFF && Limit(Fold(avg, xs), r) == Limit(avg, r)
    ensures Fold(avg, xs) == Limit(avg, r) || Distance(Fold(avg, xs), r) + |xs| <= Distance(avg, r)
  {
    if xs != [] {
      var init := xs[..|xs| - 1];
      Approaches(avg, init, r);
      OneStep(Fold(avg, init), r);
      NoOverflow(Fold(avg, init), r);
    }
  }

  /** A constant input brings the average to its limit within Distance samples, and it stays
    * there; the limit is the input itself if and only if the average did not start below it. */
  lemma Converges(avg: nat, xs: seq<Half>, r: nat)
    requires avg <= 0xFFFF && r <= 0xFFFF && forall i :: 0 <= i < |xs| ==> xs[i] == r
    requires |xs| >= Distance(avg, r)
    ensures Fold(avg, xs) == Limit(avg, r)
    ensures r - 63 <= Fold(avg, xs) <= r
    ensures Fold(avg, xs) == r <==> avg >= r
  {
    Approaches(avg, xs, r);
  }
}
