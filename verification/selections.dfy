/** The closed catalogue of selection identifiers (`VendingSelection`) and its raw-value
    (string) conversions, plus the fixed display order the machine exposes. */
module Selections {
  import opened Wrappers

  datatype VendingSelection =
    | Soda | DietSoda | Chips | Cookie | Sandwich | Wrap
    | CandyBar | PopTart | Water | FruitJuice | SportsDrink | Gum

  /** The Swift raw value of a selection: the case name as written in the enum, so a
      non-empty identifier that starts in lower case. */
  function RawValue(s: VendingSelection): (r: string)
    ensures |r| > 0 && 'a' <= r[0] <= 'z'
  {
    match s
    case Soda => "soda"
    case DietSoda => "dietSoda"
    case Chips => "chips"
    case Cookie => "cookie"
    case Sandwich => "sandwich"
    case Wrap => "wrap"
    case CandyBar => "candyBar"
    case PopTart => "popTart"
    case Water => "water"
    case FruitJuice => "fruitJuice"
    case SportsDrink => "sportsDrink"
    case Gum => "gum"
  }

  /** The failable initializer `VendingSelection(rawValue:)`: it yields exactly the
      selection whose raw value is `raw`, and nothing when no selection has that raw value. */
  function FromRawValue(raw: string): (r: Option<VendingSelection>)
    ensures r.Some? ==> RawValue(r.value) == raw
    ensures forall s :: RawValue(s) == raw ==> r == Some(s)
  {
    if raw == "soda" then Some(Soda)
    else if raw == "dietSoda" then Some(DietSoda)
    else if raw == "chips" then Some(Chips)
    else if raw == "cookie" then Some(Cookie)
    else if raw == "sandwich" then Some(Sandwich)
    else if raw == "wrap" then Some(Wrap)
    else if raw == "candyBar" then Some(CandyBar)
    else if raw == "popTart" then Some(PopTart)
    else if raw == "water" then Some(Water)
    else if raw == "fruitJuice" then Some(FruitJuice)
    else if raw == "sportsDrink" then Some(SportsDrink)
    else if raw == "gum" then Some(Gum)
    else None
  }

  /** Parsing a selection's own raw value gives the selection back, so raw values are
      pairwise distinct. */
  lemma RawValueRoundTrip(s: VendingSelection)
    ensures FromRawValue(RawValue(s)) == Some(s)
  {
  }

  lemma RawValueInjective(s: VendingSelection, t: VendingSelection)
    requires RawValue(s) == RawValue(t)
    ensures s == t
  {
    RawValueRoundTrip(s);
    RawValueRoundTrip(t);
  }

  /** The machine's `selection` list: every selection exactly once, in the display order
      of the grid (soda first, gum last). */
  function DisplayOrder(): (r: seq<VendingSelection>)
    ensures |r| == 12
    ensures forall s :: s in r
    ensures forall i, j :: 0 <= i < j < |r| ==> r[i] != r[j]
    ensures r[0] == Soda && r[|r| - 1] == Gum
  {
    var r := [Soda, DietSoda, Chips, Cookie, Sandwich, Wrap,
              CandyBar, PopTart, Water, FruitJuice, SportsDrink, Gum];
    assert forall s :: s in r by {
      forall s ensures s in r {
        if s.Soda? || s.DietSoda? || s.Chips? || s.Cookie? || s.Sandwich? || s.Wrap? {
        } else if s.CandyBar? || s.PopTart? || s.Water? || s.FruitJuice? || s.SportsDrink? {
        } else {
          assert s == Gum;
        }
      }
    }
    r
  }
}
