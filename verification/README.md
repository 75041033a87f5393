# Vending machine inventory and transactions, in Dafny

This project models the non-UI core of a small iOS vending-machine app:
`VendingMachine/VendingMachine.swift`. The core has four parts:

- the closed set of selections (`VendingSelection`) and its string raw values;
- the `FoodVendingMachine` state: an inventory from selection to `Item {price, quantity}`
  and a running balance `amountDeposited` that starts at 10.00;
- its operations `vend`, `deposit` and `item(forSelection:)`;
- `InventoryUnarchiver.vendingInventory`, which turns the loosely typed
  property-list dictionary into the typed inventory.

Modelling choices:

- Swift `Double` prices and balances are exact Dafny `real`s. Swift `Int` quantities are
  unbounded `int`s.
- The mutable machine is an immutable `Vending.Machine` value. `Vend` returns
  `Result<Machine, VendingError>`: the machine after the sale, or the error that `vend` throws.
- `Session.Step` and `Session.Run` replay calls on the one mutable object. A throwing call
  leaves the object as it was. These two functions state what happens over a sequence of calls.
- The unarchiver input is a `map<string, Value>`. A `Value` is a nested dictionary of
  `Field`s or something else. A `Field` records what the casts `as? Double` and `as? Int`
  yield for a value, each present or absent. Swift visits the dictionary in an unspecified order. The model's
  loop therefore picks an arbitrary unvisited key, and its contract holds for every order.

Modules: `Wrappers` (Option, Result), `Selections`, `Vending`, `Unarchiver`, `Session`,
`Scenarios` (worked examples).

The code does not validate its inputs, and the model keeps that:

- `vend` accepts any integer quantity, not only positive ones. A negative quantity puts stock
  back and credits the balance (`Scenarios.NegativeQuantityRefunds`).
- `deposit` accepts any amount, including negative ones.
- Vending zero units is a no-op only when the stock count and the balance are not negative.
  Otherwise the same checks refuse it (`Vending.VendZeroIsNoOp`).
- A well-formed entry under an unknown key makes the loader throw. A malformed entry is
  skipped silently.

## Model

| member | source | states |
|---|---|---|
| `Selections.RawValue` | VendingMachine/VendingMachine.swift:12-24 | the implicit raw value is the case name, a non-empty identifier starting in lower case; together with `FromRawValue` and `RawValueRoundTrip` it is the exact inverse of parsing |
| `Selections.FromRawValue` | VendingMachine/VendingMachine.swift:12-24 | the failable raw-value initializer returns exactly the selection whose raw value is the string, and nothing when no selection has that raw value |
| `Selections.RawValueRoundTrip` | VendingMachine/VendingMachine.swift:12-24 | parsing a selection's own raw value gives that selection back |
| `Selections.RawValueInjective` | VendingMachine/VendingMachine.swift:12-24 | two selections with the same raw value are the same selection |
| `Selections.DisplayOrder` | VendingMachine/VendingMachine.swift:108 | the machine's `selection` list has twelve entries, lists every selection exactly once, and runs from soda to gum |
| `Vending.NewMachine` | VendingMachine/VendingMachine.swift:110-114 | a new machine holds the given inventory and starts with a balance of 10.00 |
| `Vending.NewMachineValid` | VendingMachine/VendingMachine.swift:110-114 | a new machine has no negative price, stock or balance exactly when its catalogue has no negative price or stock |
| `Vending.Vend` | VendingMachine/VendingMachine.swift:116-131 | fails with `InvalidSelection` iff the selection is not stocked; with `OutOfStock` iff it is stocked with fewer units than asked, even when the balance is also short; with `InsufficientFunds` iff stock suffices but the balance is below price times quantity; on success the balance drops by exactly price times quantity, that selection's count drops by exactly the quantity at the same price, and every other entry and the key set stay the same |
| `Vending.VendKeepsValid` | VendingMachine/VendingMachine.swift:119-127 | a successful sale on a machine with no negative price, stock or balance leaves none negative, whatever the sign of the quantity |
| `Vending.VendZeroIsNoOp` | VendingMachine/VendingMachine.swift:116-131 | vending zero units that succeeds leaves the machine unchanged, and it succeeds iff the selection is stocked with a non-negative count and the balance is non-negative |
| `Vending.VendTwiceIsOneSale` | VendingMachine/VendingMachine.swift:119-127 | whatever the signs of the quantities and the price, two successive sales of one selection that both succeed are one successful sale of the summed quantity and leave the same machine |
| `Vending.VendTwiceIsVendSum` | VendingMachine/VendingMachine.swift:119-127 | with non-negative quantities and price, two successive sales of one selection both succeed iff one sale of the summed quantity does, and then they leave the same machine |
| `Vending.VendCommutes` | VendingMachine/VendingMachine.swift:116-131 | when sales of two different selections succeed in one order and the first sale has a non-negative price and quantity, they succeed in the other order too and leave the same machine |
| `Vending.VendOrdersAgree` | VendingMachine/VendingMachine.swift:116-131 | whatever the signs of quantities and prices, sales of two different selections that succeed in both orders leave the same machine |
| `Vending.Deposit` | VendingMachine/VendingMachine.swift:133-135 | a deposit raises the balance by exactly the amount and leaves the inventory alone |
| `Vending.DepositsAccumulate` | VendingMachine/VendingMachine.swift:133-135 | two deposits equal one deposit of their sum, and depositing the negated amount undoes a deposit |
| `Vending.DepositThenVend` | VendingMachine/VendingMachine.swift:116-135 | a non-negative deposit never turns a sale into a refusal, and the sale after it leaves the same inventory with the deposit added to the balance; a deposit of any sign never changes whether a sale is refused as `InvalidSelection` or as `OutOfStock` |
| `Vending.ShortfallDepositSucceeds` | VendingMachine/VendingMachine.swift:116-135 | after an `InsufficientFunds` refusal the shortfall is positive, and depositing exactly the shortfall makes the same sale succeed with a zero balance left |
| `Vending.ItemFor` | VendingMachine/VendingMachine.swift:137-139 | the lookup returns an item iff the selection is stocked, and then it returns the stored item |
| `Vending.ItemForAfterVend` | VendingMachine/VendingMachine.swift:122-139 | after a sale, the lookup shows the sold selection at its old price with the quantity fewer units, and every other selection as before |
| `Unarchiver.ItemOf` | VendingMachine/VendingMachine.swift:86-87 | an entry yields an item iff it is a dictionary with a `Double` "price" and an `Int` "quantity"; the item carries exactly that price and quantity |
| `Unarchiver.VendingInventory` | VendingMachine/VendingMachine.swift:81-97 | throws `InvalidSelection` iff some well-formed entry's key is not a selection's raw value; otherwise the result stocks a selection iff its raw value keys a well-formed entry, with that entry's price and quantity; malformed entries are skipped; all of this holds for any visiting order |
| `Session.Step` | VendingMachine/VendingMachine.swift:116-135 | only a vend can throw; it throws exactly when `Vend` fails and then throws `Vend`'s error and leaves the machine exactly as it was; a vend that does not throw performs exactly the sale described for `Vend`; a deposit never throws, adds exactly its amount to the balance and leaves the inventory alone |
| `Session.FailedCallRepeats` | VendingMachine/VendingMachine.swift:116-131 | repeating a call that threw throws the same error again and still leaves the machine unchanged |
| `Session.RunKeepsCatalogue` | VendingMachine/VendingMachine.swift:112-135 | after any sequence of `vend` and `deposit` calls the inventory has the same selections and every price is unchanged |
| `Session.RunKeepsValid` | VendingMachine/VendingMachine.swift:116-135 | without negative deposits, a machine with no negative price, stock or balance stays that way through any sequence of `vend` and `deposit` calls |
| `Session.RunNeverRestocks` | VendingMachine/VendingMachine.swift:116-135 | without negative sale quantities, no selection's stock count ever grows |
| `Scenarios.SodaSaleThenOutOfStock` | VendingMachine/VendingMachine.swift:110-131 | two sodas at 1.50 on a new machine: one sells and leaves 8.50 and one soda, and a request for two more throws `OutOfStock` and leaves the 8.50 and the soda in place |
| `Scenarios.GumUnderfunded` | VendingMachine/VendingMachine.swift:122-130 | a balance of 0.50 does not buy a 0.75 gum (`InsufficientFunds`) |
| `Scenarios.EmptyShelfBeatsShortBalance` | VendingMachine/VendingMachine.swift:119-130 | an empty shelf with a price above the balance is reported as `OutOfStock` |
| `Scenarios.UnstockedSelection` | VendingMachine/VendingMachine.swift:117-118 | a selection that is not stocked is `InvalidSelection` whatever the balance |
| `Scenarios.TwoDeposits` | VendingMachine/VendingMachine.swift:110-135 | depositing 5.00 and then 2.50 on a new machine gives 17.50 and the same stock |
| `Scenarios.NegativeQuantityRefunds` | VendingMachine/VendingMachine.swift:116-131 | vending minus one soda returns a soda to stock and credits its price |

## Left out

- `VendingMachine/ViewController.swift` is not part of this model. It is UIKit glue: the grid, labels, stepper, alerts and the fixed 5.00 deposit button.
- `PlistConverter.dictionary` and its `invalidResource` and `conversionError` errors are not modelled. They cover bundle lookup and file decoding. The constructors exist in `Unarchiver.ErrorType`, but nothing produces them.
- `VendingSelection.icon()` is not modelled. It only looks up image assets.
- The `VendingMachine` and `VendingItem` protocols are not modelled separately. The one concrete `FoodVendingMachine` and `Item` are modelled directly.
- Floating point is not modelled. Prices and balances are exact reals, so IEEE-754 rounding of `price * Double(quantity)` and of the balance arithmetic is out of scope.
- Vending.Vend: Swift's 64-bit `Int` traps on overflow in `item.quantity -= quantity`. With unbounded integers the model returns a machine where Swift would crash. The trap happens whenever the stock minus a negative quantity exceeds `Int.max` and both checks pass. Examples are a stock of `Int.max` with a quantity of -1, or a quantity of `Int.min` with any non-negative stock.
- Selections.RawValue: its contract states only the shape of a raw value. The correspondence with parsing is stated by `Selections.FromRawValue` and `Selections.RawValueRoundTrip`, because stating it in both functions' contracts would make them depend on each other.
- Direct assignment to the settable `inventory` and `amountDeposited` properties is not modelled as an action. The `Session` lemmas cover sequences of `vend` and `deposit` calls only.
- Which property-list values pass `as? Double` and `as? Int` under Foundation's `NSNumber` bridging is not decided here. A `Field` records the outcome of each cast, so a value that passes both is representable.
