/** `FoodVendingMachine`: an inventory of items keyed by selection and a running
    deposited balance, with the `vend`, `deposit` and `item(forSelection:)` operations.
    Swift `Double` amounts are exact `real`s; Swift `Int` quantities are unbounded `int`s.
    The class's mutable state is a `Machine` value, and `vend` returns either the
    machine after the purchase or the error it throws. */
module Vending {
  import opened Wrappers
  import opened Selections

  /** A stocked product: unit price and units left. */
  datatype Item = Item(price: real, quantity: int)

  /** The errors `vend` throws. */
  datatype VendingError = InsufficientFunds | InvalidSelection | OutOfStock

  datatype Machine = Machine(inventory: map<VendingSelection, Item>, amountDeposited: real)

  /** The balance a freshly built machine starts with. */
  const InitialDeposit: real := 10.0

  /** A machine in a sensible state: no negative price, stock or balance. */
  ghost predicate Valid(m: Machine)
  {
    && m.amountDeposited >= 0.0
    && forall s :: s in m.inventory ==> m.inventory[s].price >= 0.0 && m.inventory[s].quantity >= 0
  }

  /** `init(inventory:)`: takes the catalogue as given, with the initial balance. */
  function NewMachine(inventory: map<VendingSelection, Item>): (m: Machine)
    ensures m.inventory == inventory
    ensures m.amountDeposited == InitialDeposit
  {
    Machine(inventory, InitialDeposit)
  }

  /** A fresh machine is in a good state exactly when its catalogue has no negative
      price or stock. */
  lemma NewMachineValid(inventory: map<VendingSelection, Item>)
    ensures Valid(NewMachine(inventory)) <==>
      forall s :: s in inventory ==> inventory[s].price >= 0.0 && inventory[s].quantity >= 0
  {
  }

  /** The cost of `quantity` units of `item`. */
  function TotalPrice(item: Item, quantity: int): real
  {
    item.price * quantity as real
  }

  /** `after` is `before` with `quantity` units of `selection` sold: the balance is down
      by exactly price times quantity, that selection's stock is down by exactly
      `quantity` at the same price, and every other entry and the key set are untouched. */
  ghost predicate Sold(before: Machine, after: Machine, selection: VendingSelection, quantity: int)
  {
    && selection in before.inventory
    && after.inventory.Keys == before.inventory.Keys
    && after.amountDeposited == before.amountDeposited - before.inventory[selection].price * quantity as real
    && after.inventory[selection].price == before.inventory[selection].price
    && after.inventory[selection].quantity == before.inventory[selection].quantity - quantity
    && forall s :: s in before.inventory && s != selection ==> after.inventory[s] == before.inventory[s]
  }

  /** `vend(_:selection:)`. The checks run in order: a selection missing from the
      inventory is `InvalidSelection`; too little stock is `OutOfStock`, even when the
      balance is also too low; otherwise too little balance is `InsufficientFunds`.
      Success debits the balance and the stock together and changes nothing else. */
  function Vend(m: Machine, quantity: int, selection: VendingSelection): (r: Result<Machine, VendingError>)
    ensures r == Failure(InvalidSelection) <==> selection !in m.inventory
    ensures r == Failure(OutOfStock) <==>
      selection in m.inventory && m.inventory[selection].quantity < quantity
    ensures r == Failure(InsufficientFunds) <==>
      && selection in m.inventory
      && quantity <= m.inventory[selection].quantity
      && m.amountDeposited < m.inventory[selection].price * quantity as real
    ensures r.Success? ==> Sold(m, r.value, selection, quantity)
  {
    if selection !in m.inventory then
      Failure(InvalidSelection)
    else
      var item := m.inventory[selection];
      if item.quantity < quantity then
        Failure(OutOfStock)
      else
        var totalPrice := TotalPrice(item, quantity);
        if m.amountDeposited >= totalPrice then
          Success(Machine(m.inventory[selection := item.(quantity := item.quantity - quantity)],
                          m.amountDeposited - totalPrice))
        else
          Failure(InsufficientFunds)
  }

  /** `deposit(_:)`: adds to the balance whatever the amount, and leaves the inventory alone. */
  function Deposit(m: Machine, money: real): (r: Machine)
    ensures r.inventory == m.inventory
    ensures r.amountDeposited - m.amountDeposited == money
  {
    m.(amountDeposited := m.amountDeposited + money)
  }

  /** `item(forSelection:)`: the stored item for a selection, or nothing when the
      inventory does not stock it. */
  function ItemFor(m: Machine, selection: VendingSelection): (r: Option<Item>)
    ensures r.Some? <==> selection in m.inventory
    ensures r.Some? ==> r.value == m.inventory[selection]
  {
    if selection in m.inventory then Some(m.inventory[selection]) else None
  }

  /** A successful sale keeps a good state good. No sign condition on `quantity` is
      needed: a negative quantity raises both stock and balance. */
  lemma VendKeepsValid(m: Machine, quantity: int, selection: VendingSelection)
    requires Valid(m)
    requires Vend(m, quantity, selection).Success?
    ensures Valid(Vend(m, quantity, selection).value)
  {
  }

  /** Vending zero units is a no-op when it succeeds, and it succeeds exactly when the
      selection is stocked with a non-negative count and the balance is not negative
      (zero units cost nothing, and both checks compare against zero). */
  lemma VendZeroIsNoOp(m: Machine, selection: VendingSelection)
    ensures Vend(m, 0, selection).Success? ==> Vend(m, 0, selection) == Success(m)
    ensures Vend(m, 0, selection).Success? <==>
      selection in m.inventory && m.inventory[selection].quantity >= 0 && m.amountDeposited >= 0.0
  {
    if selection in m.inventory && m.inventory[selection].quantity >= 0 && m.amountDeposited >= 0.0 {
      var item := m.inventory[selection];
      assert TotalPrice(item, 0) == 0.0;
      assert item.(quantity := item.quantity - 0) == item;
      assert m.inventory[selection := item] == m.inventory;
      assert Vend(m, 0, selection) == Success(Machine(m.inventory, m.amountDeposited));
    }
  }

  /** Two successive sales of the same selection that both succeed are one sale of the
      summed quantity, whatever the signs of the quantities and the price. */
  lemma VendTwiceIsOneSale(m: Machine, q1: int, q2: int, selection: VendingSelection)
    requires Vend(m, q1, selection).Success? && Vend(Vend(m, q1, selection).value, q2, selection).Success?
    ensures Vend(m, q1 + q2, selection).Success?
    ensures Vend(Vend(m, q1, selection).value, q2, selection) == Vend(m, q1 + q2, selection)
  {
    var item := m.inventory[selection];
    var p, n, b := item.price, item.quantity, m.amountDeposited;
    var c1, c2, c12 := TotalPrice(item, q1), TotalPrice(item, q2), TotalPrice(item, q1 + q2);
    assert c12 == c1 + c2 by {
      PriceOfSum(p, q1, q2);
    }
    var mid := Machine(m.inventory[selection := Item(p, n - q1)], b - c1);
    var twice := Machine(m.inventory[selection := Item(p, n - (q1 + q2))], b - c12);
    assert n >= q1 && b >= c1 && Vend(m, q1, selection) == Success(mid) by {
      SaleOutcome(m, q1, selection, c1, mid);
    }
    assert n - q1 >= q2 && b - c1 >= c2 && Vend(mid, q2, selection) == Success(twice) by {
      assert mid.inventory[selection := Item(p, n - q1 - q2)] == twice.inventory;
      SaleOutcome(mid, q2, selection, c2, twice);
    }
    assert Vend(m, q1 + q2, selection) == Success(twice) by {
      SaleOutcome(m, q1 + q2, selection, c12, twice);
    }
  }

  /** With non-negative quantities and price, the converse holds too: two successive
      sales of one selection both succeed exactly when the summed sale does. */
  lemma VendTwiceIsVendSum(m: Machine, q1: int, q2: int, selection: VendingSelection)
    requires q1 >= 0 && q2 >= 0
    requires selection in m.inventory ==> m.inventory[selection].price >= 0.0
    ensures (Vend(m, q1, selection).Success? && Vend(Vend(m, q1, selection).value, q2, selection).Success?)
            <==> Vend(m, q1 + q2, selection).Success?
    ensures Vend(m, q1 + q2, selection).Success? ==>
      Vend(Vend(m, q1, selection).value, q2, selection) == Vend(m, q1 + q2, selection)
  {
    if selection in m.inventory {
      var item := m.inventory[selection];
      var p, n, b := item.price, item.quantity, m.amountDeposited;
      var c1, c2, c12 := TotalPrice(item, q1), TotalPrice(item, q2), TotalPrice(item, q1 + q2);
      assert c12 == c1 + c2 && c1 >= 0.0 && c2 >= 0.0 by {
        PriceOfSum(p, q1, q2);
        ProductNonNegative(p, q1);
        ProductNonNegative(p, q2);
      }
      var mid := Machine(m.inventory[selection := Item(p, n - q1)], b - c1);
      var twice := Machine(m.inventory[selection := Item(p, n - (q1 + q2))], b - c12);
      assert (Vend(m, q1, selection).Success? <==> n >= q1 && b >= c1)
          && (Vend(m, q1, selection).Success? ==> Vend(m, q1, selection) == Success(mid)) by {
        SaleOutcome(m, q1, selection, c1, mid);
      }
      assert (Vend(m, q1 + q2, selection).Success? <==> n >= q1 + q2 && b >= c12)
          && (Vend(m, q1 + q2, selection).Success? ==> Vend(m, q1 + q2, selection) == Success(twice)) by {
        SaleOutcome(m, q1 + q2, selection, c12, twice);
      }
      assert (Vend(mid, q2, selection).Success? <==> n - q1 >= q2 && b - c1 >= c2)
          && (Vend(mid, q2, selection).Success? ==> Vend(mid, q2, selection) == Success(twice)) by {
        assert mid.inventory[selection := Item(p, n - q1 - q2)] == twice.inventory;
        SaleOutcome(mid, q2, selection, c2, twice);
      }
    }
  }

  /** One sale spelled out with its cost named: it succeeds exactly when stock and
      balance cover it, and then leaves `after`. */
  lemma SaleOutcome(m: Machine, quantity: int, selection: VendingSelection, cost: real, after: Machine)
    requires selection in m.inventory
    requires cost == TotalPrice(m.inventory[selection], quantity)
    requires after.amountDeposited == m.amountDeposited - cost
    requires after.inventory == m.inventory[selection := Item(m.inventory[selection].price,
                                                             m.inventory[selection].quantity - quantity)]
    ensures Vend(m, quantity, selection).Success? <==>
      m.inventory[selection].quantity >= quantity && m.amountDeposited >= cost
    ensures Vend(m, quantity, selection).Success? ==> Vend(m, quantity, selection) == Success(after)
  {
  }

  /** Sales of two different selections that succeed in both orders leave the same
      machine, whatever the signs of the quantities and prices. */
  lemma VendOrdersAgree(m: Machine, qa: int, a: VendingSelection, qb: int, b: VendingSelection)
    requires a != b
    requires Vend(m, qa, a).Success? && Vend(Vend(m, qa, a).value, qb, b).Success?
    requires Vend(m, qb, b).Success? && Vend(Vend(m, qb, b).value, qa, a).Success?
    ensures Vend(Vend(m, qb, b).value, qa, a) == Vend(Vend(m, qa, a).value, qb, b)
  {
    var ia, ib := m.inventory[a], m.inventory[b];
    var ca, cb := TotalPrice(ia, qa), TotalPrice(ib, qb);
    var ma := Machine(m.inventory[a := Item(ia.price, ia.quantity - qa)], m.amountDeposited - ca);
    var ab := Machine(ma.inventory[b := Item(ib.price, ib.quantity - qb)], m.amountDeposited - ca - cb);
    assert Vend(m, qa, a) == Success(ma) && Vend(ma, qb, b) == Success(ab) by {
      SaleOutcome(m, qa, a, ca, ma);
      SaleOutcome(ma, qb, b, cb, ab);
    }
    var mb := Machine(m.inventory[b := Item(ib.price, ib.quantity - qb)], m.amountDeposited - cb);
    var ba := Machine(mb.inventory[a := Item(ia.price, ia.quantity - qa)], m.amountDeposited - cb - ca);
    assert Vend(m, qb, b) == Success(mb) && Vend(mb, qa, a) == Success(ba) by {
      SaleOutcome(m, qb, b, cb, mb);
      SaleOutcome(mb, qa, a, ca, ba);
    }
    assert ab == ba by {
      assert ab.inventory == ba.inventory;
    }
  }

  /** Sales of two different selections commute: when one order succeeds and the first
      sale in it costs nothing negative (non-negative price and quantity), the other
      order succeeds too, with the same result. The second sale's price and quantity
      may have any sign. */
  lemma VendCommutes(m: Machine, qa: int, a: VendingSelection, qb: int, b: VendingSelection)
    requires a in m.inventory ==> m.inventory[a].price >= 0.0
    requires a != b && qa >= 0
    requires Vend(m, qa, a).Success? && Vend(Vend(m, qa, a).value, qb, b).Success?
    ensures Vend(m, qb, b).Success? && Vend(Vend(m, qb, b).value, qa, a).Success?
    ensures Vend(Vend(m, qb, b).value, qa, a) == Vend(Vend(m, qa, a).value, qb, b)
  {
    var ia := m.inventory[a];
    var ca := TotalPrice(ia, qa);
    var ma := Machine(m.inventory[a := Item(ia.price, ia.quantity - qa)], m.amountDeposited - ca);
    assert b in m.inventory && Vend(m, qa, a) == Success(ma) by {
      SaleOutcome(m, qa, a, ca, ma);
    }
    var ib := m.inventory[b];
    var cb := TotalPrice(ib, qb);
    var ab := Machine(ma.inventory[b := Item(ib.price, ib.quantity - qb)], m.amountDeposited - ca - cb);
    assert ib.quantity >= qb && m.amountDeposited - ca >= cb by {
      SaleOutcome(ma, qb, b, cb, ab);
    }
    assert ca >= 0.0 by {
      ProductNonNegative(ia.price, qa);
    }
    var mb := Machine(m.inventory[b := Item(ib.price, ib.quantity - qb)], m.amountDeposited - cb);
    assert Vend(m, qb, b) == Success(mb) by {
      SaleOutcome(m, qb, b, cb, mb);
    }
    var ba := Machine(mb.inventory[a := Item(ia.price, ia.quantity - qa)], m.amountDeposited - cb - ca);
    assert Vend(mb, qa, a).Success? by {
      SaleOutcome(mb, qa, a, ca, ba);
    }
    VendOrdersAgree(m, qa, a, qb, b);
  }

  /** No deposit, of either sign, changes whether a sale is refused as `InvalidSelection`
      or as `OutOfStock`; a non-negative deposit never turns a sale into a refusal: the
      sale after it leaves the same inventory and the deposit on top of the balance. */
  lemma DepositThenVend(m: Machine, money: real, quantity: int, selection: VendingSelection)
    ensures money >= 0.0 && Vend(m, quantity, selection).Success? ==>
      Vend(Deposit(m, money), quantity, selection) == Success(Deposit(Vend(m, quantity, selection).value, money))
    ensures Vend(m, quantity, selection) == Failure(InvalidSelection) <==>
      Vend(Deposit(m, money), quantity, selection) == Failure(InvalidSelection)
    ensures Vend(m, quantity, selection) == Failure(OutOfStock) <==>
      Vend(Deposit(m, money), quantity, selection) == Failure(OutOfStock)
  {
  }

  /** Topping the balance up by exactly the shortfall turns an `InsufficientFunds`
      refusal into a sale that leaves a zero balance. */
  lemma ShortfallDepositSucceeds(m: Machine, quantity: int, selection: VendingSelection)
    requires Vend(m, quantity, selection) == Failure(InsufficientFunds)
    ensures var shortfall := m.inventory[selection].price * quantity as real - m.amountDeposited;
      && shortfall > 0.0
      && Vend(Deposit(m, shortfall), quantity, selection).Success?
      && Vend(Deposit(m, shortfall), quantity, selection).value.amountDeposited == 0.0
  {
  }

  /** Successive deposits add up, and a deposit is undone by depositing its negation. */
  lemma DepositsAccumulate(m: Machine, a: real, b: real)
    ensures Deposit(Deposit(m, a), b) == Deposit(m, a + b)
    ensures Deposit(Deposit(m, a), -a) == m
  {
  }

  /** What `item(forSelection:)` reports after a sale: the sold selection at its old
      price with `quantity` fewer units, every other selection as before. */
  lemma ItemForAfterVend(m: Machine, quantity: int, selection: VendingSelection, other: VendingSelection)
    requires Vend(m, quantity, selection).Success?
    ensures var item := m.inventory[selection];
      ItemFor(Vend(m, quantity, selection).value, selection) == Some(Item(item.price, item.quantity - quantity))
    ensures other != selection ==>
      ItemFor(Vend(m, quantity, selection).value, other) == ItemFor(m, other)
  {
  }

  lemma ProductNonNegative(p: real, q: int)
    requires p >= 0.0 && q >= 0
    ensures p * q as real >= 0.0
  {
  }

  lemma PriceOfSum(p: real, q1: int, q2: int)
    ensures p * (q1 + q2) as real == p * q1 as real + p * q2 as real
  {
  }
}
