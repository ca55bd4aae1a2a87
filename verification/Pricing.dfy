/**
 What a licensed item costs for one period: the tier loop of `_item_amount` against a
 definition unit by unit, and the included quantity that a plan announces.
 */
module Pricing {
  import opened Util

  /** A Stripe price tier; upTo None is the open-ended one. Amounts are in cents. */
  datatype Tier = Tier(upTo: Option<nat>, unit: int, flat: int)

  datatype Price = PerUnit(unit: int) | Graduated(tiers: seq<Tier>) | Volume(tiers: seq<Tier>)

  predicate Holds(t: Tier, unit: nat) {
    t.upTo.None? || unit <= t.upTo.value
  }

  /** The first tier that holds the unit, or |tiers|. */
  function TierOf(tiers: seq<Tier>, unit: nat): (i: nat)
    ensures i <= |tiers| && (i < |tiers| ==> Holds(tiers[i], unit))
    ensures forall j | 0 <= j < i :: !Holds(tiers[j], unit)
  {
    if tiers == [] || Holds(tiers[0], unit) then 0 else 1 + TierOf(tiers[1..], unit)
  }

  /** Stripe's rule for tiers: each one begins where the one before it ends. */
  predicate Ascending(tiers: seq<Tier>) {
    forall i, j | 0 <= i < j < |tiers| && tiers[j].upTo.Some? ::
      tiers[i].upTo.Some? && tiers[i].upTo.value <= tiers[j].upTo.value
  }

  /** What unit number `unit` adds: the price of the tier holding it, and that tier's flat
      amount if it is the first unit there. Units beyond the last tier are free. */
  function UnitCharge(tiers: seq<Tier>, unit: nat): int
    requires unit > 0
  {
    var i := TierOf(tiers, unit);
    if i == |tiers| then 0
    else tiers[i].unit + (if unit == 1 || TierOf(tiers, unit - 1) != i then tiers[i].flat else 0)
  }

  /** The sum over units 1..qty. */
  function Charge(tiers: seq<Tier>, qty: nat): int {
    if qty == 0 then 0 else Charge(tiers, qty - 1) + UnitCharge(tiers, qty)
  }

  /** The one-tier definition of volume pricing: the tier that holds the whole quantity
      prices all of it; a quantity beyond every tier takes the last one. */
  function VolumeCharge(tiers: seq<Tier>, qty: nat): int {
    var i := TierOf(tiers, qty);
    if tiers == [] then 0
    else
      var t := tiers[if i < |tiers| then i else |tiers| - 1];
      t.unit * qty + t.flat
  }

  function Amount(p: Price, qty: nat): int {
    match p
    case PerUnit(unit) => unit * qty
    case Graduated(tiers) => Charge(tiers, qty)
    case Volume(tiers) => VolumeCharge(tiers, qty)
  }

  // Facts about tiers

  /** A larger unit is never held by an earlier tier. */
  lemma TierGrows(tiers: seq<Tier>, u: nat, v: nat)
    requires u <= v
    ensures TierOf(tiers, u) <= TierOf(tiers, v)
  {
  }

  lemma TierIs(tiers: seq<Tier>, i: nat, unit: nat)
    requires i < |tiers| && Holds(tiers[i], unit) && forall j | 0 <= j < i :: !Holds(tiers[j], unit)
    ensures TierOf(tiers, unit) == i
  {
  }

  /** Units below+1..top, all in tier i and none there before: their charge at once. */
  lemma {:induction false} TierRun(tiers: seq<Tier>, i: nat, below: nat, top: nat)
    requires i < |tiers| && below < top
    requires TierOf(tiers, below + 1) == i == TierOf(tiers, top)
    requires below == 0 || TierOf(tiers, below) != i
    ensures Charge(tiers, top) == Charge(tiers, below) + tiers[i].unit * (top - below) + tiers[i].flat
    decreases top
  {
    hide TierOf, UnitCharge;
    if top - 1 > below {
      TierGrows(tiers, below + 1, top - 1);
      TierGrows(tiers, top - 1, top);
      TierRun(tiers, i, below, top - 1);
      OneMoreUnit(tiers[i].unit, top - below);
    }
    UnitIn(tiers, i, top);
  }

  /** The first unit of a tier also costs its flat amount. */
  lemma UnitIn(tiers: seq<Tier>, i: nat, unit: nat)
    requires unit > 0 && i < |tiers| && TierOf(tiers, unit) == i
    ensures UnitCharge(tiers, unit) ==
            if unit > 1 && TierOf(tiers, unit - 1) == i then tiers[i].unit else tiers[i].unit + tiers[i].flat
  {
    hide TierOf;
  }

  lemma OneMoreUnit(unit: int, n: nat)
    requires n > 0
    ensures unit * n == unit * (n - 1) + unit
  {
  }

  /** One turn of the tier loop: the units of tier i among below+1..qty. */
  lemma TierTurn(tiers: seq<Tier>, i: nat, below: nat, top: nat)
    requires Ascending(tiers) && i < |tiers| && below < top && Holds(tiers[i], top)
    requires i == 0 ==> below == 0
    requires i > 0 ==> tiers[i - 1].upTo == Some(below)
    ensures Charge(tiers, top) == Charge(tiers, below) + tiers[i].unit * (top - below) + tiers[i].flat
    ensures TierOf(tiers, top) == i
  {
    TierIs(tiers, i, below + 1);
    TierIs(tiers, i, top);
    TierRun(tiers, i, below, top);
  }

  /** Past every tier nothing more is charged. */
  lemma PastTheTiers(tiers: seq<Tier>, below: nat, qty: nat)
    requires Ascending(tiers) && below < qty
    requires tiers == [] ==> below == 0
    requires tiers != [] ==> tiers[|tiers| - 1].upTo == Some(below)
    ensures Charge(tiers, qty) == Charge(tiers, below)
  {
  }

  // The computation

  /** The tier loop computes the sum over the units, for every quantity. */
  method GraduatedAmount(tiers: seq<Tier>, qty: nat) returns (total: int)
    ensures Ascending(tiers) ==> total == Charge(tiers, qty)
  {
    hide TierOf;
    total := 0;
    var below: nat, i := 0, 0;
    while i < |tiers|
      invariant 0 <= i <= |tiers| && below <= qty
      invariant i == 0 ==> below == 0
      invariant i > 0 ==> below < qty
      invariant Ascending(tiers) && i > 0 ==> tiers[i - 1].upTo == Some(below)
      invariant Ascending(tiers) ==> total == Charge(tiers, below)
    {
      var t := tiers[i];
      var top := if t.upTo.None? || qty < t.upTo.value then qty else t.upTo.value;
      var n := if top > below then top - below else 0;
      if n != 0 {
        if Ascending(tiers) {
          TierTurn(tiers, i, below, top);
        }
        total := total + (t.unit * n + t.flat);
      }
      below := if t.upTo.Some? then top else qty;
      if below >= qty {
        return;
      }
      i := i + 1;
    }
    if Ascending(tiers) && below < qty {
      PastTheTiers(tiers, below, qty);
    }
  }

  /** One period's amount for any kind of price. */
  method ItemAmount(p: Price, qty: nat) returns (total: int)
    ensures (p.Graduated? ==> Ascending(p.tiers)) ==> total == Amount(p, qty)
  {
    match p
    case PerUnit(unit) => total := unit * qty;
    case Graduated(tiers) => total := GraduatedAmount(tiers, qty);
    case Volume(tiers) =>
      if tiers == [] {
        return 0;
      }
      var i := 0;
      while i < |tiers| && !(tiers[i].upTo.None? || qty <= tiers[i].upTo.value)
        invariant 0 <= i <= |tiers| && forall j | 0 <= j < i :: !Holds(tiers[j], qty)
      {
        i := i + 1;
      }
      if i < |tiers| {
        TierIs(tiers, i, qty);
      } else {
        i := |tiers| - 1;
      }
      total := tiers[i].unit * qty + tiers[i].flat;
  }

  // What the amounts promise

  predicate NonNegative(tiers: seq<Tier>) {
    forall i | 0 <= i < |tiers| :: tiers[i].unit >= 0 && tiers[i].flat >= 0
  }

  lemma UnitNotNegative(tiers: seq<Tier>, unit: nat)
    requires NonNegative(tiers) && unit > 0
    ensures UnitCharge(tiers, unit) >= 0
  {
  }

  /** Per-unit prices: nothing for nothing, and each further unit costs the same. */
  lemma {:induction false} PerUnitAdds(unit: int, few: nat, more: nat)
    ensures Amount(PerUnit(unit), 0) == 0
    ensures Amount(PerUnit(unit), few + 1) == Amount(PerUnit(unit), few) + unit
    ensures Amount(PerUnit(unit), few + more) == Amount(PerUnit(unit), few) + Amount(PerUnit(unit), more)
  {
    assert unit * (few + 1) == unit * few + unit;
    assert unit * (few + more) == unit * few + unit * more;
  }

  /** More units never cost less under graduated tiers. */
  lemma {:induction false} ChargeGrows(tiers: seq<Tier>, few: nat, many: nat)
    requires NonNegative(tiers) && few <= many
    ensures 0 <= Charge(tiers, few) <= Charge(tiers, many)
    decreases many
  {
    hide UnitCharge, NonNegative;
    if few < many {
      ChargeGrows(tiers, few, many - 1);
      UnitNotNegative(tiers, many);
    } else if few > 0 {
      ChargeGrows(tiers, few - 1, few - 1);
      UnitNotNegative(tiers, few);
    }
  }

  // When volume prices fall

  /** Each tier ends past the one before it, and only the last may be open-ended. */
  predicate StrictlyAscending(tiers: seq<Tier>) {
    forall i, j | 0 <= i < j < |tiers| ::
      tiers[i].upTo.Some? && (tiers[j].upTo.Some? ==> tiers[i].upTo.value < tiers[j].upTo.value)
  }

  function OneTier(t: Tier, qty: nat): int {
    t.unit * qty + t.flat
  }

  /** The last quantity of a tier with an end. */
  function Last(t: Tier): nat {
    if t.upTo.Some? then t.upTo.value else 0
  }

  /** The last quantity of tier i costs no more than the first of the next. */
  predicate NoDrop(tiers: seq<Tier>, i: nat)
    requires i + 1 < |tiers|
  {
    OneTier(tiers[i], Last(tiers[i])) <= OneTier(tiers[i + 1], Last(tiers[i]) + 1)
  }

  predicate NoDrops(tiers: seq<Tier>) {
    forall i | 0 <= i < |tiers| - 1 :: NoDrop(tiers, i)
  }

  lemma OneTierGrows(t: Tier, qty: nat)
    requires t.unit >= 0
    ensures OneTier(t, qty) <= OneTier(t, qty + 1)
  {
    assert t.unit * (qty + 1) == t.unit * qty + t.unit;
  }

  /** A boundary is the last quantity that its tier holds and the next one does not. */
  lemma AtBoundary(tiers: seq<Tier>, i: nat)
    requires StrictlyAscending(tiers) && i + 1 < |tiers|
    ensures tiers[i].upTo == Some(Last(tiers[i]))
    ensures TierOf(tiers, Last(tiers[i])) == i && TierOf(tiers, Last(tiers[i]) + 1) == i + 1
  {
    var t, next := tiers[i], tiers[i + 1];
    assert t.upTo.Some?;
    TierIs(tiers, i, Last(t));
    TierIs(tiers, i + 1, Last(t) + 1);
  }

  /** One unit more stays in the tier, or crosses the boundary to the next. */
  lemma NextUnit(tiers: seq<Tier>, qty: nat)
    requires StrictlyAscending(tiers) && TierOf(tiers, qty) < |tiers|
    ensures var i, j := TierOf(tiers, qty), TierOf(tiers, qty + 1);
            || j == i
            || (tiers[i].upTo == Some(qty) && (j == i + 1 || (j == |tiers| == i + 1)))
  {
    var i := TierOf(tiers, qty);
    TierGrows(tiers, qty, qty + 1);
    if Holds(tiers[i], qty + 1) {
      TierIs(tiers, i, qty + 1);
    } else if i + 1 < |tiers| {
      AtBoundary(tiers, i);
    }
  }

  lemma VolumeStep(tiers: seq<Tier>, qty: nat)
    requires NonNegative(tiers) && StrictlyAscending(tiers) && NoDrops(tiers)
    ensures VolumeCharge(tiers, qty) <= VolumeCharge(tiers, qty + 1)
  {
    var i, j := TierOf(tiers, qty), TierOf(tiers, qty + 1);
    TierGrows(tiers, qty, qty + 1);
    if i < |tiers| {
      NextUnit(tiers, qty);
      OneTierGrows(tiers[i], qty);
      assert j == i + 1 < |tiers| ==> NoDrop(tiers, i);
    } else if tiers != [] {
      OneTierGrows(tiers[|tiers| - 1], qty);
    }
    hide TierOf;
  }

  lemma {:induction false} VolumeRun(tiers: seq<Tier>, few: nat, many: nat)
    requires NonNegative(tiers) && StrictlyAscending(tiers) && NoDrops(tiers) && few <= many
    ensures VolumeCharge(tiers, few) <= VolumeCharge(tiers, many)
    decreases many
  {
    hide VolumeCharge, NonNegative, StrictlyAscending, NoDrops;
    if few < many {
      VolumeRun(tiers, few, many - 1);
      VolumeStep(tiers, many - 1);
    }
  }

  ghost predicate VolumeNeverFalls(tiers: seq<Tier>) {
    forall few: nat, many: nat | few <= many :: VolumeCharge(tiers, few) <= VolumeCharge(tiers, many)
  }

  /** More units never cost less under volume tiers exactly when no boundary between two drops. */
  lemma VolumeNeverFallsExactly(tiers: seq<Tier>)
    requires NonNegative(tiers) && StrictlyAscending(tiers)
    ensures VolumeNeverFalls(tiers) <==> NoDrops(tiers)
  {
    if NoDrops(tiers) {
      forall few: nat, many: nat | few <= many ensures VolumeCharge(tiers, few) <= VolumeCharge(tiers, many) {
        VolumeRun(tiers, few, many);
      }
    }
    if VolumeNeverFalls(tiers) {
      forall i | 0 <= i < |tiers| - 1 ensures NoDrop(tiers, i) {
        AtBoundary(tiers, i);
        var last := Last(tiers[i]);
        assert VolumeCharge(tiers, last) <= VolumeCharge(tiers, last + 1);
      }
    }
    hide TierOf;
  }

  /** For instance, eleven units may cost less than ten. */
  lemma VolumeCanDrop()
    ensures var tiers := [Tier(Some(10), 10, 0), Tier(None, 5, 0)];
            NonNegative(tiers) && Ascending(tiers) && VolumeCharge(tiers, 11) < VolumeCharge(tiers, 10)
  {
  }

  /** The quantity a plan announces as included: the end of a free first graduated tier. */
  function Included(p: Price): nat {
    if p.Graduated? && p.tiers != [] && p.tiers[0].unit == 0 && p.tiers[0].flat == 0 && p.tiers[0].upTo.Some?
    then p.tiers[0].upTo.value
    else 0
  }

  /** Nothing is charged up to the included quantity. */
  lemma IncludedIsFree(p: Price, qty: nat)
    requires p.Graduated? && qty <= Included(p)
    ensures Amount(p, qty) == 0
  {
    if qty > 0 {
      TierIs(p.tiers, 0, 1);
      TierIs(p.tiers, 0, qty);
      TierRun(p.tiers, 0, 0, qty);
    }
  }

  /** And it is the most that costs nothing, once the next tier has a price: with a free first tier that ends
      at n, a quantity is free exactly up to n; with a first tier that is not free, nothing is announced. */
  lemma IncludedIsMost(p: Price, n: nat, qty: nat)
    requires p.Graduated? && NonNegative(p.tiers) && StrictlyAscending(p.tiers)
    requires |p.tiers| > 1 && p.tiers[0].upTo == Some(n) && p.tiers[1].unit + p.tiers[1].flat > 0
    ensures p.tiers[0].unit == 0 && p.tiers[0].flat == 0 ==> Included(p) == n && (Amount(p, qty) == 0 <==> qty <= n)
    ensures p.tiers[0].unit > 0 || p.tiers[0].flat > 0 ==> Included(p) == 0 && (n > 0 ==> (Amount(p, qty) == 0 <==> qty == 0))
  {
    var tiers := p.tiers;
    if tiers[0].unit == 0 && tiers[0].flat == 0 {
      if qty <= n {
        IncludedIsFree(p, qty);
      } else {
        FirstUnitPaid(tiers, 1, n);
        ChargeGrows(tiers, n + 1, qty);
        ChargeGrows(tiers, 0, n);
      }
    } else if n > 0 && qty > 0 {
      FirstUnitPaid(tiers, 0, 0);
      ChargeGrows(tiers, 1, qty);
    }
  }

  /** The first unit of a tier that has a price is not free. */
  lemma FirstUnitPaid(tiers: seq<Tier>, i: nat, below: nat)
    requires NonNegative(tiers) && StrictlyAscending(tiers) && i < |tiers| && tiers[i].unit + tiers[i].flat > 0
    requires Holds(tiers[i], below + 1) && (if i == 0 then below == 0 else tiers[i - 1].upTo == Some(below))
    ensures Charge(tiers, below + 1) > 0
  {
    hide TierOf, UnitCharge;
    FirstUnitIn(tiers, i, below);
    UnitIn(tiers, i, below + 1);
    ChargeGrows(tiers, 0, below);
    assert tiers[i].unit >= 0 && tiers[i].flat >= 0;
  }

  /** The first unit past a tier's end is the first one in the next tier. */
  lemma FirstUnitIn(tiers: seq<Tier>, i: nat, below: nat)
    requires StrictlyAscending(tiers) && i < |tiers| && Holds(tiers[i], below + 1)
    requires if i == 0 then below == 0 else tiers[i - 1].upTo == Some(below)
    ensures TierOf(tiers, below + 1) == i && (below > 0 ==> TierOf(tiers, below) != i)
  {
    hide TierOf;
    forall j | 0 <= j < i ensures !Holds(tiers[j], below + 1) {
      assert tiers[j].upTo.Some? && tiers[j].upTo.value <= below;
    }
    TierIs(tiers, i, below + 1);
    if i > 0 {
      assert Holds(tiers[i - 1], below);
    }
  }

  /** Every unit past it costs what the next tier says: `extra` of them, while they fit in that tier. */
  lemma BeyondIncluded(p: Price, extra: nat)
    requires p.Graduated? && Included(p) > 0 && |p.tiers| > 1 && extra > 0
    requires Holds(p.tiers[1], Included(p) + extra)
    ensures Amount(p, Included(p) + extra) == p.tiers[1].unit * extra + p.tiers[1].flat
  {
    var tiers, n := p.tiers, Included(p);
    IncludedIsFree(p, n);
    TierIs(tiers, 0, n);
    TierIs(tiers, 1, n + 1);
    TierIs(tiers, 1, n + extra);
    TierRun(tiers, 1, n, n + extra);
  }
}
