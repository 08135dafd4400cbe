/** The search for a strike by delta: the leg of a band nearest to a target. */
module StrikeSearch {
  import opened Wrappers
  import opened CondorRoll

  /** A priced leg with a delta inside the band. */
  predicate InBand(l: OptionLeg, lo: real, hi: real) {
    l.ltp > 0.0 && l.delta.Some? && lo <= Abs(l.delta.value) <= hi
  }

  function Distance(l: OptionLeg, target: real): real
    requires l.delta.Some?
  {
    Abs(Abs(l.delta.value) - target)
  }

  /** Nearer to the target, or as near with more open interest. */
  predicate Preferred(a: OptionLeg, b: OptionLeg, target: real)
    requires a.delta.Some? && b.delta.Some?
  {
    Distance(a, target) < Distance(b, target)
    || (Distance(a, target) == Distance(b, target) && a.oi > b.oi)
  }

  /** One side of a chain in listed order: the legs of a strike, some missing. */
  predicate Listed(chain: seq<Option<OptionLeg>>, i: nat, lo: real, hi: real) {
    i < |chain| && chain[i].Some? && InBand(chain[i].value, lo, hi)
  }

  /** The leg at i is in the band; none there is preferred to it, and none listed before it is as good. */
  predicate Wins(chain: seq<Option<OptionLeg>>, i: nat, lo: real, hi: real, target: real) {
    && Listed(chain, i, lo, hi)
    && (forall j | 0 <= j < |chain| && Listed(chain, j, lo, hi) ::
          if j < i then Preferred(chain[i].value, chain[j].value, target)
          else !Preferred(chain[j].value, chain[i].value, target))
  }

  /** What the search finds: the winner, which is unique, or nothing in an empty band. */
  ghost predicate Found(chain: seq<Option<OptionLeg>>, lo: real, hi: real, target: real, r: Option<OptionLeg>) {
    if r.Some? then exists i: nat :: Wins(chain, i, lo, hi, target) && chain[i] == r
    else forall i: nat :: !Listed(chain, i, lo, hi)
  }

  lemma WinnerIsUnique(chain: seq<Option<OptionLeg>>, lo: real, hi: real, target: real, i: nat, j: nat)
    requires Wins(chain, i, lo, hi, target) && Wins(chain, j, lo, hi, target)
    ensures i == j
  {
    assert Listed(chain, i, lo, hi) && Listed(chain, j, lo, hi);
  }

  /** The search has one answer. */
  lemma FoundIsUnique(chain: seq<Option<OptionLeg>>, lo: real, hi: real, target: real, r: Option<OptionLeg>,
                      r': Option<OptionLeg>)
    requires Found(chain, lo, hi, target, r) && Found(chain, lo, hi, target, r')
    ensures r == r'
  {
    if r.Some? && r'.Some? {
      var i: nat :| Wins(chain, i, lo, hi, target) && chain[i] == r;
      var j: nat :| Wins(chain, j, lo, hi, target) && chain[j] == r';
      WinnerIsUnique(chain, lo, hi, target, i, j);
    }
  }

  /** The candidates of the band in listed order, then the first of the best of them. */
  method FindStrikeByDelta(chain: seq<Option<OptionLeg>>, lo: real, hi: real, target: real)
    returns (r: Option<OptionLeg>)
    ensures Found(chain, lo, hi, target, r)
  {
    var candidates: seq<nat> := [];
    for i := 0 to |chain|
      invariant forall k :: 0 <= k < |candidates| ==> candidates[k] < i && Listed(chain, candidates[k], lo, hi)
      invariant forall j: nat :: j < i && Listed(chain, j, lo, hi) ==> j in candidates
      invariant forall k, l :: 0 <= k < l < |candidates| ==> candidates[k] < candidates[l]
    {
      var leg := chain[i];
      if leg.None? { continue; }
      if leg.value.ltp <= 0.0 { continue; }
      if leg.value.delta.None? { continue; }
      if lo <= Abs(leg.value.delta.value) <= hi { candidates := candidates + [i]; }
    }
    if candidates == [] { return None; }
    var best := BestOf(chain, candidates, lo, hi, target);
    return chain[best];
  }

  /** min() by the sort key: the first of equally good candidates. */
  method BestOf(chain: seq<Option<OptionLeg>>, candidates: seq<nat>, lo: real, hi: real, target: real)
    returns (best: nat)
    requires candidates != [] && forall k :: 0 <= k < |candidates| ==> Listed(chain, candidates[k], lo, hi)
    requires forall j: nat :: Listed(chain, j, lo, hi) ==> j in candidates
    requires forall k, l :: 0 <= k < l < |candidates| ==> candidates[k] < candidates[l]
    ensures Wins(chain, best, lo, hi, target)
  {
    best := candidates[0];
    for k := 1 to |candidates|
      invariant best in candidates[..k]
      invariant forall l :: 0 <= l < k ==>
        if candidates[l] < best then Preferred(chain[best].value, chain[candidates[l]].value, target)
        else !Preferred(chain[candidates[l]].value, chain[best].value, target)
    {
      if Preferred(chain[candidates[k]].value, chain[best].value, target) { best := candidates[k]; }
    }
  }

  // --- The search without absolute values --------------------------------------------------

  /** The delta is s or -s. */
  predicate Sized(l: OptionLeg, s: real) { s >= 0.0 && (l.delta == Some(s) || l.delta == Some(-s)) }

  predicate Eligible(l: OptionLeg, s: real, lo: real, hi: real) { l.ltp > 0.0 && Sized(l, s) && lo <= s <= hi }

  /** No farther from the target than g, on either side of it. */
  predicate Within(s: real, target: real, g: real) { target - g <= s <= target + g }

  /** The eligible leg at i, at distance g on one side of the target: no eligible leg is nearer, none as near has more
      open interest, and none listed before it is as near with as much. */
  ghost predicate Nearest(chain: seq<Option<OptionLeg>>, i: nat, lo: real, hi: real, target: real, s: real, g: real) {
    && i < |chain| && chain[i].Some? && Eligible(chain[i].value, s, lo, hi)
    && g >= 0.0 && (s == target - g || s == target + g)
    && (forall j: nat, x: real | j < |chain| && chain[j].Some? && Eligible(chain[j].value, x, lo, hi) ::
          NoBetter(x, target, g, chain[j].value.oi, chain[i].value.oi, j < i))
  }

  /** At least as far away, and when as near, with less open interest, or as much and not listed before. */
  predicate NoBetter(x: real, target: real, g: real, oi: int, best: int, before: bool) {
    && (x <= target - g || target + g <= x)
    && (Within(x, target, g) ==> if before then oi < best else oi <= best)
  }

  /** The search finds the nearest leg by size of delta, calls and puts alike, and nothing only when no leg is
      eligible. */
  lemma FoundIsNearest(chain: seq<Option<OptionLeg>>, lo: real, hi: real, target: real, r: Option<OptionLeg>)
    requires Found(chain, lo, hi, target, r)
    ensures r.None? <==>
      forall i: nat, s: real :: i < |chain| && chain[i].Some? ==> !Eligible(chain[i].value, s, lo, hi)
    ensures r.Some? ==> exists i: nat, s: real, g: real :: Nearest(chain, i, lo, hi, target, s, g) && chain[i] == r
  {
    forall i: nat, s: real | i < |chain| && chain[i].Some? && Eligible(chain[i].value, s, lo, hi)
      ensures Listed(chain, i, lo, hi)
    {
    }
    if r.Some? {
      var i: nat :| Wins(chain, i, lo, hi, target) && chain[i] == r;
      WinnerIsNearest(chain, i, lo, hi, target);
    }
  }

  lemma WinnerIsNearest(chain: seq<Option<OptionLeg>>, i: nat, lo: real, hi: real, target: real)
    requires Wins(chain, i, lo, hi, target)
    ensures exists s, g: real :: Nearest(chain, i, lo, hi, target, s, g) && Eligible(chain[i].value, s, lo, hi)
  {
    var d := chain[i].value.delta.value;
    var s := if d < 0.0 then -d else d;
    var g := if s < target then target - s else s - target;
    forall j: nat, x: real | j < |chain| && chain[j].Some? && Eligible(chain[j].value, x, lo, hi)
      ensures NoBetter(x, target, g, chain[j].value.oi, chain[i].value.oi, j < i)
    {
      assert Listed(chain, j, lo, hi);
    }
    assert Eligible(chain[i].value, s, lo, hi);
    assert Nearest(chain, i, lo, hi, target, s, g);
  }
}
