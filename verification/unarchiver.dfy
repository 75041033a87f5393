/** `InventoryUnarchiver.vendingInventory(fromDictionary:)`: turns the loosely typed
    dictionary read from the property list into the typed inventory. Each entry that is
    a nested dictionary with a `Double` "price" and an `Int` "quantity" becomes an item
    under the selection whose raw value is its key; other entries are skipped; a
    well-formed entry under an unknown key aborts the whole conversion. */
module Unarchiver {
  import opened Wrappers
  import opened Selections
  import Vending

  /** A value inside an item dictionary, seen through the casts `as? Double` and
      `as? Int`: what each cast yields, if it succeeds. A value may pass both. */
  datatype Field = Field(asDouble: Option<real>, asInt: Option<int>)

  /** A value of the top-level dictionary: a nested `[String: Any]` dictionary, or
      anything else. */
  datatype Value = Dictionary(fields: map<string, Field>) | OtherValue

  /** The loader's errors. Only `InvalidSelection` arises here; the other two belong to
      reading the property-list file. */
  datatype ErrorType = InvalidResource | ConversionError | InvalidSelection

  /** The item an entry describes, when the entry is well formed. */
  function ItemOf(v: Value): (r: Option<Vending.Item>)
    ensures r.Some? <==>
      && v.Dictionary?
      && "price" in v.fields && v.fields["price"].asDouble.Some?
      && "quantity" in v.fields && v.fields["quantity"].asInt.Some?
    ensures r.Some? ==>
      r.value.price == v.fields["price"].asDouble.value && r.value.quantity == v.fields["quantity"].asInt.value
  {
    match v
    case OtherValue => None
    case Dictionary(fields) =>
      if "price" in fields && fields["price"].asDouble.Some?
         && "quantity" in fields && fields["quantity"].asInt.Some?
      then Some(Vending.Item(fields["price"].asDouble.value, fields["quantity"].asInt.value))
      else None
  }

  /** Some well-formed entry sits under a key that names no selection. */
  ghost predicate HasUnknownSelection(dictionary: map<string, Value>)
  {
    exists key :: key in dictionary && ItemOf(dictionary[key]).Some? && FromRawValue(key).None?
  }

  /** The conversion. Swift visits the entries in an unspecified order; the loop picks
      any unvisited key, and the contract holds whichever order is taken: the call
      throws `InvalidSelection` exactly when some well-formed entry has an unknown key,
      and otherwise yields exactly the well-formed entries, keyed by their selection,
      with their price and quantity. */
  method VendingInventory(dictionary: map<string, Value>)
    returns (r: Result<map<VendingSelection, Vending.Item>, ErrorType>)
    ensures r.Failure? <==> HasUnknownSelection(dictionary)
    ensures r.Failure? ==> r.error == InvalidSelection
    ensures r.Success? ==> forall s ::
      s in r.value <==> RawValue(s) in dictionary && ItemOf(dictionary[RawValue(s)]).Some?
    ensures r.Success? ==> forall s ::
      s in r.value ==> Some(r.value[s]) == ItemOf(dictionary[RawValue(s)])
  {
    var inventory: map<VendingSelection, Vending.Item> := map[];
    var remaining := dictionary.Keys;
    while remaining != {}
      invariant remaining <= dictionary.Keys
      invariant forall key :: key in dictionary && key !in remaining ==>
        ItemOf(dictionary[key]).Some? ==> FromRawValue(key).Some?
      invariant forall s :: s in inventory <==>
        RawValue(s) in dictionary && RawValue(s) !in remaining && ItemOf(dictionary[RawValue(s)]).Some?
      invariant forall s :: s in inventory ==> Some(inventory[s]) == ItemOf(dictionary[RawValue(s)])
      decreases remaining
    {
      var key :| key in remaining;
      remaining := remaining - {key};
      match ItemOf(dictionary[key]) {
        case None =>
        case Some(item) =>
          match FromRawValue(key) {
            case None =>
              return Failure(InvalidSelection);
            case Some(selection) =>
              inventory := inventory[selection := item];
          }
      }
    }
    return Success(inventory);
  }
}
