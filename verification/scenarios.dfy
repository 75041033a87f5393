/** Worked examples of the machine's behaviour on small concrete catalogues. */
module Scenarios {
  import opened Wrappers
  import opened Selections
  import opened Vending
  import opened Session

  /** A fresh machine stocking two sodas at 1.50: one soda sells and leaves 8.50 and one
      soda; asking for two more is then out of stock and the 8.50 stays. */
  lemma SodaSaleThenOutOfStock()
    ensures var start := NewMachine(map[Soda := Item(1.5, 2)]);
      && Vend(start, 1, Soda) == Success(Machine(map[Soda := Item(1.5, 1)], 8.5))
      && Vend(Vend(start, 1, Soda).value, 2, Soda) == Failure(OutOfStock)
      && var after := Vend(start, 1, Soda).value;
         Step(after, VendAction(2, Soda)) == Reply(after, Some(OutOfStock))
  {
    assert map[Soda := Item(1.5, 2)][Soda := Item(1.5, 1)] == map[Soda := Item(1.5, 1)];
  }

  /** 0.50 does not buy a 0.75 gum. */
  lemma GumUnderfunded()
    ensures Vend(Machine(map[Gum := Item(0.75, 5)], 0.5), 1, Gum) == Failure(InsufficientFunds)
  {
  }

  /** An empty shelf is reported before a price the balance cannot cover. */
  lemma EmptyShelfBeatsShortBalance()
    ensures Vend(Machine(map[Chips := Item(20.0, 0)], 1.0), 1, Chips) == Failure(OutOfStock)
  {
  }

  /** A selection the catalogue does not stock is refused whatever the balance. */
  lemma UnstockedSelection(balance: real)
    ensures Vend(Machine(map[Soda := Item(1.5, 2)], balance), 1, Water) == Failure(InvalidSelection)
  {
  }

  /** Depositing 5.00 and then 2.50 on a fresh machine gives 17.50 and leaves the stock alone. */
  lemma TwoDeposits()
    ensures var start := NewMachine(map[Soda := Item(1.5, 2)]);
      Deposit(Deposit(start, 5.0), 2.5) == Machine(start.inventory, 17.5)
  {
  }

  /** Negative input is not validated: vending minus one soda puts a soda back and
      credits its price. */
  lemma NegativeQuantityRefunds()
    ensures Vend(Machine(map[Soda := Item(1.5, 2)], 0.0), -1, Soda) == Success(Machine(map[Soda := Item(1.5, 3)], 1.5))
  {
    assert map[Soda := Item(1.5, 2)][Soda := Item(1.5, 3)] == map[Soda := Item(1.5, 3)];
  }
}
