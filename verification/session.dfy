/** A machine driven by a sequence of calls, as the screen drives the one
    `FoodVendingMachine` it owns. Each call either changes the machine or throws and
    leaves it exactly as it was. */
module Session {
  import opened Wrappers
  import opened Selections
  import opened Vending

  /** One mutating call on the machine. */
  datatype Action = VendAction(quantity: int, selection: VendingSelection) | DepositAction(money: real)

  /** What a call leaves behind: the machine afterwards and the error it threw, if any. */
  datatype Reply = Reply(machine: Machine, thrown: Option<VendingError>)

  /** Performing one call on the mutable machine. */
  function Step(m: Machine, a: Action): (r: Reply)
    ensures r.thrown.Some? ==> a.VendAction? && r.machine == m
    ensures a.DepositAction? ==> r.thrown.None? && r.machine.inventory == m.inventory
    ensures a.VendAction? && r.thrown.None? ==> Sold(m, r.machine, a.selection, a.quantity)
    ensures a.VendAction? ==> (r.thrown.None? <==> Vend(m, a.quantity, a.selection).Success?)
    ensures a.VendAction? && r.thrown.Some? ==> Vend(m, a.quantity, a.selection) == Failure(r.thrown.value)
    ensures a.DepositAction? ==> r.machine.amountDeposited == m.amountDeposited + a.money
  {
    match a
    case DepositAction(money) => Reply(Deposit(m, money), None)
    case VendAction(quantity, selection) =>
      match Vend(m, quantity, selection)
      case Success(after) => Reply(after, None)
      case Failure(e) => Reply(m, Some(e))
  }

  /** A call that throws can be repeated: it throws the same error again and still
      leaves the machine untouched. */
  lemma FailedCallRepeats(m: Machine, a: Action)
    requires Step(m, a).thrown.Some?
    ensures Step(Step(m, a).machine, a) == Step(m, a)
  {
  }

  /** The machine after a whole sequence of calls. */
  function Run(m: Machine, actions: seq<Action>): Machine
    decreases |actions|
  {
    if |actions| == 0 then m else Run(Step(m, actions[0]).machine, actions[1..])
  }

  ghost predicate NoNegativeDeposits(actions: seq<Action>)
  {
    forall i :: 0 <= i < |actions| && actions[i].DepositAction? ==> actions[i].money >= 0.0
  }

  ghost predicate NoNegativeSales(actions: seq<Action>)
  {
    forall i :: 0 <= i < |actions| && actions[i].VendAction? ==> actions[i].quantity >= 0
  }

  /** The inventory never gains or loses a selection and no price ever changes,
      whatever `vend` and `deposit` calls are made. */
  lemma {:induction false} RunKeepsCatalogue(m: Machine, actions: seq<Action>)
    ensures Run(m, actions).inventory.Keys == m.inventory.Keys
    ensures forall s :: s in m.inventory ==> Run(m, actions).inventory[s].price == m.inventory[s].price
    decreases |actions|
  {
    if |actions| > 0 {
      RunKeepsCatalogue(Step(m, actions[0]).machine, actions[1..]);
    }
  }

  /** Without negative deposits, a machine with no negative price, stock or balance
      stays that way. */
  lemma {:induction false} RunKeepsValid(m: Machine, actions: seq<Action>)
    requires Valid(m)
    requires NoNegativeDeposits(actions)
    ensures Valid(Run(m, actions))
    decreases |actions|
  {
    if |actions| > 0 {
      var a := actions[0];
      var next := Step(m, a).machine;
      if a.VendAction? && Step(m, a).thrown.None? {
        VendKeepsValid(m, a.quantity, a.selection);
      }
      assert Valid(next);
      assert NoNegativeDeposits(actions[1..]) by {
        forall i | 0 <= i < |actions[1..]| && actions[1..][i].DepositAction?
          ensures actions[1..][i].money >= 0.0
        {
          assert actions[1..][i] == actions[i + 1];
        }
      }
      RunKeepsValid(next, actions[1..]);
    }
  }

  /** Without negative sale quantities, no selection's stock ever grows. */
  lemma {:induction false} RunNeverRestocks(m: Machine, actions: seq<Action>, s: VendingSelection)
    requires NoNegativeSales(actions)
    requires s in m.inventory
    ensures s in Run(m, actions).inventory
    ensures Run(m, actions).inventory[s].quantity <= m.inventory[s].quantity
    decreases |actions|
  {
    if |actions| > 0 {
      var next := Step(m, actions[0]).machine;
      assert s in next.inventory && next.inventory[s].quantity <= m.inventory[s].quantity;
      assert NoNegativeSales(actions[1..]) by {
        forall i | 0 <= i < |actions[1..]| && actions[1..][i].VendAction?
          ensures actions[1..][i].quantity >= 0
        {
          assert actions[1..][i] == actions[i + 1];
        }
      }
      RunNeverRestocks(next, actions[1..], s);
    }
  }
}
