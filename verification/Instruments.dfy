// The typed models of src/catalyst/core/types/models.py that the ledger uses.
//
// Position and order ids are numbered by the broker's own order sequence, so an
// id is that number; a date is a day number.
module Instruments {
  import opened Common

  type Date = int

  datatype Right = Call | Put

  datatype Side = Buy | Sell {
    function Sign(): real {
      if Buy? then 1.0 else -1.0
    }

    function Inverse(): Side {
      if Buy? then Sell else Buy
    }
  }

  datatype Key =
    | OptionKey(underlying: string, expiry: Date, right: Right, strike: real)
    | EquityKey(underlying: string)
  {
    /** Dollars per 1.0 of quoted price: 100 for options, 1 for shares. */
    function Multiplier(): (m: real)
      ensures m >= 1.0
    {
      if OptionKey? then 100.0 else 1.0
    }
  }

  datatype Leg = Leg(key: Key, side: Side, qty: nat) {
    function Qty(): real {
      qty as real
    }

    /** Signed contracts: positive when bought. */
    function Signed(): real {
      side.Sign() * Qty()
    }

    /** What identifies a leg inside one structure. */
    function Slot(): (Key, Side) {
      (key, side)
    }

    predicate Expired(today: Date) {
      key.OptionKey? && key.expiry < today
    }
  }

  /** The multiplier of a structure: its first leg speaks for all. */
  function Multiplier(legs: seq<Leg>): (m: real)
    ensures m >= 1.0
  {
    if legs == [] then 100.0 else legs[0].key.Multiplier()
  }

  /** What the models enforce on a structure: non-empty, positive quantities and
      one multiplier. */
  ghost predicate WellFormed(legs: seq<Leg>) {
    && legs != []
    && (forall i :: 0 <= i < |legs| ==> legs[i].qty >= 1)
    && (forall i :: 0 <= i < |legs| ==> legs[i].key.Multiplier() == Multiplier(legs))
  }

  /** No two legs share (key, side). The models do not enforce this. */
  ghost predicate DistinctSlots(legs: seq<Leg>) {
    forall i, j :: 0 <= i < j < |legs| ==> legs[i].Slot() != legs[j].Slot()
  }

  /** The closing legs for u units of a structure: sides inverted, ratios times u. */
  function Mirror(legs: seq<Leg>, u: nat): (m: seq<Leg>)
    ensures |m| == |legs|
    ensures forall i :: 0 <= i < |legs| ==>
                          m[i] == Leg(legs[i].key, legs[i].side.Inverse(), legs[i].qty * u)
  {
    seq(|legs|, i requires 0 <= i < |legs| => Leg(legs[i].key, legs[i].side.Inverse(), legs[i].qty * u))
  }

  /** Per-unit legs times u units, as the callers size a proposal. */
  function Scaled(legs: seq<Leg>, u: nat): (m: seq<Leg>)
    ensures |m| == |legs|
    ensures forall i :: 0 <= i < |legs| ==> m[i] == legs[i].(qty := legs[i].qty * u)
  {
    seq(|legs|, i requires 0 <= i < |legs| => legs[i].(qty := legs[i].qty * u))
  }

  lemma MirrorWellFormed(legs: seq<Leg>, u: nat)
    requires WellFormed(legs) && u >= 1
    ensures WellFormed(Mirror(legs, u)) && WellFormed(Scaled(legs, u))
    ensures Multiplier(Mirror(legs, u)) == Multiplier(legs) == Multiplier(Scaled(legs, u))
  {
    forall i | 0 <= i < |legs|
      ensures legs[i].qty * u >= 1
    {
      Positive(legs[i].qty, u);
    }
  }

  lemma Positive(a: nat, b: nat)
    requires a >= 1 && b >= 1
    ensures a * b >= 1 && a * b >= b && a * b >= a
  {
  }

  datatype Intent = Open | Close

  /** An order carries total contracts per leg. */
  datatype Order = Order(
    legs: seq<Leg>,
    intent: Intent,
    positionId: Option<nat>,
    maxLoss: Option<Num>,
    engine: string)
}
