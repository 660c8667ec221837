/**
 What every run of the storefront keeps: an order is credited once, only when paid and matched, never after it
 is canceled, and Scouts are never credited more than their orders brought in.
 */
module StorefrontTheorems {
  import opened Prelude
  import opened Text
  import opened Ledger
  import opened LedgerInvariants
  import opened LedgerTheorems
  import opened Storefront

  // ----- the invariant -----

  /** An allocation is backed by a posted entry from the unit's general fund to the Scout's own account. */
  ghost predicate Backed(b: Books, al: Allocation) {
    && 0 < al.credited <= al.gross
    && al.tx < |b.txs|
    && b.txs[al.tx].status == Posted
    && |b.txs[al.tx].rows| == 2
    && var debit, credit := b.txs[al.tx].rows[0], b.txs[al.tx].rows[1];
       && debit.cents == -al.credited && credit.cents == al.credited
       && debit.account < |b.accounts| && b.accounts[debit.account].kind == UnitGeneral
       && credit.account < |b.accounts| && b.accounts[credit.account].kind == ScoutIndividual(al.member)
  }

  ghost predicate AllocationsOk(s: Shop) {
    && (forall k :: 0 <= k < |s.allocations| ==> Backed(s.books, s.allocations[k]))
    && (forall j, k :: 0 <= j < k < |s.allocations| ==> s.allocations[j].tx != s.allocations[k].tx)
  }

  ghost predicate OrderOk(s: Shop, order: Order) {
    && ItemsOk(order.items) && order.total == Sum(LineTotals(order.items))
    && (order.allocation.Some? <==> order.status == Credited)
    && (order.status == Credited ==>
          && order.member.Some?
          && order.allocation.value < |s.allocations|
          && s.allocations[order.allocation.value].gross == order.total
          && s.allocations[order.allocation.value].fundraiser == order.fundraiser)
  }

  ghost predicate OrdersOk(s: Shop) {
    && (forall o :: 0 <= o < |s.orders| ==> OrderOk(s, s.orders[o]))
    && (forall o, p :: 0 <= o < p < |s.orders| && s.orders[o].allocation.Some? ==>
                         s.orders[o].allocation != s.orders[p].allocation)
  }

  ghost predicate ShopOk(s: Shop) {
    Sound(s.books) && AllocationsOk(s) && OrdersOk(s)
  }

  // ----- how one order moves -----

  /** What may happen to an order: it is paid, credited or canceled, and the last two are final. */
  ghost predicate Follows(order: Order, order': Order) {
    && order'.fundraiser == order.fundraiser && order'.items == order.items && order'.total == order.total
    && (order.status == Canceled ==> order'.status == Canceled)
    && (order.status == Credited ==> order'.status == Credited && order'.allocation == order.allocation)
    && (order.status == Paid ==> order'.status != AwaitingPayment)
  }

  ghost predicate ShopAdvances(s: Shop, s': Shop) {
    && Extends(s.books, s'.books)
    && |s.orders| <= |s'.orders| && (forall o :: 0 <= o < |s.orders| ==> Follows(s.orders[o], s'.orders[o]))
    && |s.allocations| <= |s'.allocations| && s'.allocations[..|s.allocations|] == s.allocations
  }

  lemma BackedKept(b: Books, b': Books, al: Allocation)
    requires Backed(b, al) && Extends(b, b')
    ensures Backed(b', al)
  {
    var tx := b.txs[al.tx];
    assert SameEntry(tx, b'.txs[al.tx]);
    assert SameAccount(b.accounts[tx.rows[0].account], b'.accounts[tx.rows[0].account]);
    assert SameAccount(b.accounts[tx.rows[1].account], b'.accounts[tx.rows[1].account]);
  }

  lemma AllocationsKept(s: Shop, b': Books)
    requires AllocationsOk(s) && Extends(s.books, b')
    ensures forall k :: 0 <= k < |s.allocations| ==> Backed(b', s.allocations[k])
  {
    hide Extends, Backed;
    forall k | 0 <= k < |s.allocations|
      ensures Backed(b', s.allocations[k])
    {
      BackedKept(s.books, b', s.allocations[k]);
    }
  }

  /** Changing the books alone. */
  lemma NewBooksAreOk(s: Shop, b': Books)
    requires ShopOk(s) && Sound(b') && Extends(s.books, b')
    ensures ShopOk(s.(books := b')) && ShopAdvances(s, s.(books := b'))
  {
    hide Sound, Extends, Backed, ItemsOk;
    AllocationsKept(s, b');
    var s' := s.(books := b');
    forall o | 0 <= o < |s'.orders|
      ensures OrderOk(s', s'.orders[o])
    {
      assert OrderOk(s, s.orders[o]);
    }
  }

  /** Changing one order that is not credited, and does not become so. */
  lemma NewStatusIsOk(s: Shop, o: OrderId, order: Order)
    requires ShopOk(s) && o < |s.orders| && Follows(s.orders[o], order)
    requires order.allocation == s.orders[o].allocation && (order.status == Credited <==> s.orders[o].status == Credited)
    requires s.orders[o].member.Some? ==> order.member.Some?
    ensures var s' := s.(orders := s.orders[o := order]); ShopOk(s') && ShopAdvances(s, s')
  {
    hide Sound, Backed, ItemsOk, Sum;
    NoBooksChange(s.books);
    var s' := s.(orders := s.orders[o := order]);
    forall p | 0 <= p < |s'.orders|
      ensures OrderOk(s', s'.orders[p])
    {
      assert OrderOk(s, s.orders[p]);
    }
  }

  lemma NoBooksChange(b: Books)
    ensures Extends(b, b)
  {
  }

  // ----- recording an allocation -----

  lemma EnsureBothIsSound(b: Books, unit: UnitId, member: MemberId)
    requires Sound(b)
    ensures var (b', general, scout) := EnsureBoth(b, unit, member);
            && Sound(b') && Extends(b, b') && b'.txs == b.txs
            && general < |b'.accounts| && b'.accounts[general].kind == UnitGeneral && b'.accounts[general].unit == unit
            && scout < |b'.accounts| && b'.accounts[scout].kind == ScoutIndividual(member)
            && b'.accounts[scout].unit == unit
  {
    hide Sound, SameAccount, SameEntry, Balance, NeverDebits;
    EnsureAccountIsSound(b, unit, UnitGeneral);
    var b1 := EnsureAccount(b, unit, UnitGeneral).0;
    EnsureAccountIsSound(b1, unit, ScoutIndividual(member));
    ExtendsTransitive(b, b1, EnsureAccount(b1, unit, ScoutIndividual(member)).0);
  }

  /** Crediting from open accounts of the same unit always posts. */
  lemma CreditPosts(b: Books, unit: UnitId, general: AccountId, scout: AccountId, credited: Cents, now: int)
    requires Sound(b) && credited > 0
    requires general < |b.accounts| && b.accounts[general].kind == UnitGeneral && b.accounts[general].unit == unit
    requires scout < |b.accounts| && b.accounts[scout].kind.ScoutIndividual? && b.accounts[scout].unit == unit
    ensures var (b', r) := Post(b, unit, "fundraiser_allocation", now, CreditPostings(general, scout, credited));
            && r == Ok(|b.txs|) && Sound(b') && Extends(b, b') && |b'.txs| == |b.txs| + 1
            && b'.accounts == b.accounts
            && b'.txs[|b.txs|].rows == RowsOf(CreditPostings(general, scout, credited))
            && b'.txs[|b.txs|].status == Posted
  {
    hide AllBalanced, ReversalsOk, RequestsOk, ClosedOk, Extends, Sum, Balance;
    var ps := CreditPostings(general, scout, credited);
    assert CentsOf(ps) == [-(credited as int), credited as int];
    PairSum(credited);
    assert AccountProblem(b.accounts, unit, ps).None?;
    PostIsSound(b, unit, "fundraiser_allocation", now, ps);
  }

  lemma PairSum(x: int)
    ensures Sum([-x, x]) == 0
  {
    assert [-x, x] == [-x] + [x];
    SumConcat([-x], [x]);
  }

  /** Whether recording this allocation gets as far as posting to the ledger. */
  predicate Posts(s: Shop, f: FundraiserId, gross: Cents, quantity: Option<int>) {
    gross > 0 && f < |s.fundraisers| && CreditFor(s.fundraisers[f].rule, gross, quantity).Ok?
  }

  predicate Recordable(quantity: Option<int>) {
    quantity.Some? ==> quantity.value <= MAX_RECORDED_QUANTITY
  }

  /** It posts exactly when the rule yields a credit, and records exactly when the quantity also fits its column. */
  lemma RecordOutcome(s: Shop, f: FundraiserId, member: MemberId, gross: Cents, quantity: Option<int>, now: int)
    requires Sound(s.books)
    ensures var (s', r) := RecordAllocation(s, f, member, gross, quantity, now);
            && Sound(s'.books) && Extends(s.books, s'.books)
            && s'.orders == s.orders && s'.fundraisers == s.fundraisers
            && |s'.books.txs| == |s.books.txs| + (if Posts(s, f, gross, quantity) then 1 else 0)
            && (r.Ok? <==> Posts(s, f, gross, quantity) && Recordable(quantity))
            && (r.Err? ==> s'.allocations == s.allocations)
            && (r.Ok? ==>
                  && r.value == |s.allocations|
                  && var al := Allocation(f, member, gross, quantity,
                                          CreditFor(s.fundraisers[f].rule, gross, quantity).value, |s.books.txs|);
                     s'.allocations == s.allocations + [al] && Backed(s'.books, al))
  {
    hide Sound, SameAccount, SameEntry, CreditFor, Post, EnsureBoth, Extends;
    NoBooksChange(s.books);
    if Posts(s, f, gross, quantity) {
      var unit, credited := s.fundraisers[f].unit, CreditFor(s.fundraisers[f].rule, gross, quantity).value;
      var (b, general, scout) := EnsureBoth(s.books, unit, member);
      EnsureBothIsSound(s.books, unit, member);
      CreditPosts(b, unit, general, scout, credited, now);
      ExtendsTransitive(s.books, b, Post(b, unit, "fundraiser_allocation", now, CreditPostings(general, scout, credited)).0);
    }
  }

  lemma RecordIsOk(s: Shop, f: FundraiserId, member: MemberId, gross: Cents, quantity: Option<int>, now: int)
    requires ShopOk(s)
    ensures var s' := RecordAllocation(s, f, member, gross, quantity, now).0; ShopOk(s') && ShopAdvances(s, s')
  {
    hide Sound, Extends, Backed, ItemsOk, RecordAllocation, Posts, Recordable, Sum;
    RecordOutcome(s, f, member, gross, quantity, now);
    var s' := RecordAllocation(s, f, member, gross, quantity, now).0;
    NewBooksAreOk(s, s'.books);
    if |s'.allocations| > |s.allocations| {
      AllocationAdded(s, s');
    }
    MoreAllocationsAreOk(s.(books := s'.books), s');
    forall o | 0 <= o < |s.orders|
      ensures Follows(s.orders[o], s'.orders[o])
    {
    }
  }

  lemma AllocationAdded(s: Shop, s': Shop)
    requires AllocationsOk(s) && Extends(s.books, s'.books)
    requires |s'.allocations| == |s.allocations| + 1 && s'.allocations[..|s.allocations|] == s.allocations
    requires Backed(s'.books, s'.allocations[|s.allocations|]) && s'.allocations[|s.allocations|].tx == |s.books.txs|
    ensures AllocationsOk(s')
  {
    hide Extends;
    AllocationsKept(s, s'.books);
    forall k | 0 <= k < |s.allocations|
      ensures s'.allocations[k] == s.allocations[k] && s.allocations[k].tx < |s.books.txs|
    {
      assert s'.allocations[k] == s'.allocations[..|s.allocations|][k];
      assert Backed(s.books, s.allocations[k]);
    }
  }

  lemma MoreAllocationsAreOk(s: Shop, s': Shop)
    requires OrdersOk(s) && s'.orders == s.orders && s'.books == s.books
    requires |s.allocations| <= |s'.allocations| && s'.allocations[..|s.allocations|] == s.allocations
    ensures OrdersOk(s')
  {
    hide ItemsOk, Sum;
    forall o | 0 <= o < |s'.orders|
      ensures OrderOk(s', s'.orders[o])
    {
      assert OrderOk(s, s.orders[o]);
      var al := s.orders[o].allocation;
      if al.Some? {
        assert s'.allocations[al.value] == s'.allocations[..|s.allocations|][al.value];
      }
    }
  }

  // ----- crediting an order -----

  /** The allocation an order asks for goes through. */
  predicate Creditable(s: Shop, order: Order) {
    Posts(s, order.fundraiser, order.total, Some(Quantity(order))) && Quantity(order) <= MAX_RECORDED_QUANTITY
  }

  /** A ready order is credited, with a fresh allocation for its whole total, exactly when that goes through. */
  lemma CreditOutcome(s: Shop, o: OrderId, now: int)
    requires ShopOk(s) && o < |s.orders|
    ensures var (s', r) := CreditIfReady(s, o, now);
            var order, posts := s.orders[o], Posts(s, s.orders[o].fundraiser, s.orders[o].total, Some(Quantity(s.orders[o])));
            && ShopOk(s') && ShopAdvances(s, s') && s'.fundraisers == s.fundraisers
            && |s'.orders| == |s.orders|
            && (forall p :: 0 <= p < |s.orders| && p != o ==> s'.orders[p] == s.orders[p])
            && s'.orders[o] == (if Ready(order) && Creditable(s, order)
                                then order.(status := Credited, allocation := Some(|s.allocations|)) else order)
            && |s'.books.txs| == |s.books.txs| + (if Ready(order) && posts then 1 else 0)
            && (r.Ok? <==> !Ready(order) || Creditable(s, order))
  {
    hide Sound, Extends, Backed, ItemsOk, RecordAllocation, Posts, Sum, Quantity;
    NoShopChange(s);
    var order := s.orders[o];
    if Ready(order) {
      var q := Some(Quantity(order));
      RecordIsOk(s, order.fundraiser, order.member.value, order.total, q, now);
      RecordOutcome(s, order.fundraiser, order.member.value, order.total, q, now);
      if Creditable(s, order) {
        var s1 := RecordAllocation(s, order.fundraiser, order.member.value, order.total, q, now).0;
        CreditedIsOk(s, s1, o, |s.allocations|);
      }
    }
  }

  lemma NoShopChange(s: Shop)
    ensures ShopAdvances(s, s)
  {
    NoBooksChange(s.books);
  }

  lemma CreditedIsOk(s: Shop, s1: Shop, o: OrderId, k: AllocationId)
    requires ShopOk(s1) && ShopAdvances(s, s1) && s1.orders == s.orders && OrdersOk(s)
    requires o < |s.orders| && Ready(s.orders[o])
    requires k == |s.allocations| && |s1.allocations| == k + 1
    requires s1.allocations[k].gross == s.orders[o].total && s1.allocations[k].fundraiser == s.orders[o].fundraiser
    ensures var s' := s1.(orders := s.orders[o := s.orders[o].(status := Credited, allocation := Some(k))]);
            ShopOk(s') && ShopAdvances(s, s')
  {
    hide Sound, Extends, Backed, ItemsOk, Sum;
    var s' := s1.(orders := s.orders[o := s.orders[o].(status := Credited, allocation := Some(k))]);
    forall p | 0 <= p < |s'.orders|
      ensures OrderOk(s', s'.orders[p])
    {
      assert OrderOk(s1, s1.orders[p]);
    }
    forall p | 0 <= p < |s.orders| && s.orders[p].allocation.Some?
      ensures s.orders[p].allocation.value < k
    {
      assert OrderOk(s, s.orders[p]);
    }
  }

  lemma ShopAdvancesTransitive(s: Shop, s': Shop, s'': Shop)
    requires ShopAdvances(s, s') && ShopAdvances(s', s'')
    ensures ShopAdvances(s, s'')
  {
    hide Extends;
    ExtendsTransitive(s.books, s'.books, s''.books);
    assert s''.allocations[..|s.allocations|] == s''.allocations[..|s'.allocations|][..|s.allocations|];
  }

  /** An order with one field changed ahead of the attempt to credit it. */
  function Touched(s: Shop, o: OrderId, order: Order): Shop
    requires o < |s.orders|
  {
    s.(orders := s.orders[o := order])
  }

  lemma TouchedThenCredited(s: Shop, o: OrderId, order: Order, now: int)
    requires ShopOk(s) && o < |s.orders| && Follows(s.orders[o], order)
    requires order.allocation == s.orders[o].allocation && (order.status == Credited <==> s.orders[o].status == Credited)
    requires s.orders[o].member.Some? ==> order.member.Some?
    ensures var s' := CreditIfReady(Touched(s, o, order), o, now).0; ShopOk(s') && ShopAdvances(s, s')
  {
    hide ShopOk, ShopAdvances, Follows, CreditIfReady;
    NewStatusIsOk(s, o, order);
    CreditOutcome(Touched(s, o, order), o, now);
    ShopAdvancesTransitive(s, Touched(s, o, order), CreditIfReady(Touched(s, o, order), o, now).0);
  }

  lemma MarkPaidIsOk(s: Shop, o: OrderId, now: int)
    requires ShopOk(s)
    ensures var s' := MarkPaid(s, o, now).0; ShopOk(s') && ShopAdvances(s, s')
  {
    hide ShopOk, ShopAdvances;
    NoShopChange(s);
    if o < |s.orders| {
      if s.orders[o].status == AwaitingPayment {
        TouchedThenCredited(s, o, s.orders[o].(status := Paid), now);
      } else {
        CreditOutcome(s, o, now);
      }
    }
  }

  lemma ResolveIsOk(s: Shop, o: OrderId, member: Option<MemberId>, now: int)
    requires ShopOk(s)
    ensures var s' := ResolveScout(s, o, member, now).0; ShopOk(s') && ShopAdvances(s, s')
  {
    hide ShopOk, ShopAdvances;
    NoShopChange(s);
    if o < |s.orders| && member.Some? {
      TouchedThenCredited(s, o, s.orders[o].(member := member), now);
    }
  }

  lemma CancelIsOk(s: Shop, o: OrderId)
    requires ShopOk(s)
    ensures var s' := Cancel(s, o).0; ShopOk(s') && ShopAdvances(s, s')
  {
    hide ShopOk, ShopAdvances;
    NoShopChange(s);
    if o < |s.orders| && s.orders[o].status in {AwaitingPayment, Paid} {
      Unallocated(s, o);
      NewStatusIsOk(s, o, s.orders[o].(status := Canceled));
    }
  }

  lemma Unallocated(s: Shop, o: OrderId)
    requires ShopOk(s) && o < |s.orders| && s.orders[o].status != Credited
    ensures s.orders[o].allocation.None?
  {
    assert OrderOk(s, s.orders[o]);
  }

  lemma CreateIsOk(s: Shop, f: FundraiserId, buyer: string, scout: string, items: seq<Item>, member: Option<MemberId>)
    requires ShopOk(s)
    ensures var s' := CreateOrder(s, f, buyer, scout, items, member).0; ShopOk(s') && ShopAdvances(s, s')
  {
    hide Sound, Extends, Backed, ItemsOk, Sum, LineTotals;
    NoShopChange(s);
    var (s', r) := CreateOrder(s, f, buyer, scout, items, member);
    if r.Ok? {
      TotalIsPositive(items);
      forall o | 0 <= o < |s'.orders|
        ensures OrderOk(s', s'.orders[o])
      {
        if o < |s.orders| {
          assert OrderOk(s, s.orders[o]);
        }
      }
    }
  }

  lemma RulesAreOk(s: Shop, op: ShopOp)
    requires ShopOk(s) && (op.AddFundraiserOp? || op.SetRuleOp?)
    ensures ShopOk(ApplyShop(s, op)) && ShopAdvances(s, ApplyShop(s, op))
  {
    hide Sound, Extends, Backed, ItemsOk, Sum, LineTotals;
    NoShopChange(s);
    var s' := ApplyShop(s, op);
    forall o | 0 <= o < |s'.orders|
      ensures OrderOk(s', s'.orders[o])
    {
      assert OrderOk(s, s.orders[o]);
    }
  }

  lemma LedgerOpIsOk(s: Shop, op: Op)
    requires ShopOk(s)
    ensures var s' := s.(books := Apply(s.books, op)); ShopOk(s') && ShopAdvances(s, s')
  {
    hide AllocationsOk, OrdersOk, Sound, ShopAdvances, Apply, Extends;
    ApplyIsSound(s.books, op);
    NewBooksAreOk(s, Apply(s.books, op));
  }

  lemma ShopApplyIsOk(s: Shop, op: ShopOp)
    requires ShopOk(s)
    ensures ShopOk(ApplyShop(s, op)) && ShopAdvances(s, ApplyShop(s, op))
  {
    hide ShopOk, ShopAdvances, CreditIfReady, RecordAllocation, CreateOrder, AddFundraiser, SetRule, Apply;
    NoShopChange(s);
    match op
    case OnBooks(op) => LedgerOpIsOk(s, op);
    case AddFundraiserOp(u, rule) => RulesAreOk(s, op);
    case SetRuleOp(f, rule) => RulesAreOk(s, op);
    case AllocateOp(f, m, gross, q, now) => RecordIsOk(s, f, m, gross, q, now);
    case CreateOrderOp(f, buyer, scout, items, m) => CreateIsOk(s, f, buyer, scout, items, m);
    case MarkPaidOp(o, now) => MarkPaidIsOk(s, o, now);
    case ResolveOp(o, m, now) => ResolveIsOk(s, o, m, now);
    case CancelOp(o) => CancelIsOk(s, o);
  }

  // ----- whole runs -----

  lemma {:induction false} RunShopIsOk(s: Shop, ops: seq<ShopOp>)
    requires ShopOk(s)
    ensures ShopOk(RunShop(s, ops)) && ShopAdvances(s, RunShop(s, ops))
    decreases |ops|
  {
    hide ShopOk, ShopAdvances, ApplyShop;
    if ops == [] {
      NoShopChange(s);
    } else {
      var front := RunShop(s, ops[..|ops| - 1]);
      RunShopIsOk(s, ops[..|ops| - 1]);
      ShopApplyIsOk(front, ops[|ops| - 1]);
      ShopAdvancesTransitive(s, front, RunShop(s, ops));
    }
  }

  lemma EmptyShopIsOk()
    ensures ShopOk(EMPTY_SHOP)
  {
    hide Sound;
    EveryRunIsSound([]);
    assert Run(EMPTY_BOOKS, []) == EMPTY_BOOKS;
  }

  /** In every reachable state an order has an allocation exactly when it is credited, each its own. */
  lemma EveryShopRunIsOk(ops: seq<ShopOp>)
    ensures ShopOk(RunShop(EMPTY_SHOP, ops))
  {
    hide ShopOk, ShopAdvances, RunShop;
    EmptyShopIsOk();
    RunShopIsOk(EMPTY_SHOP, ops);
  }

  /** A canceled order is never credited, and a credited one keeps its allocation, whatever is tried later. */
  lemma SettledForGood(ops: seq<ShopOp>, o: OrderId, more: seq<ShopOp>)
    requires o < |RunShop(EMPTY_SHOP, ops).orders|
    ensures var order := RunShop(EMPTY_SHOP, ops).orders[o];
            var later := RunShop(RunShop(EMPTY_SHOP, ops), more);
            && o < |later.orders|
            && later.orders[o].items == order.items && later.orders[o].total == order.total
            && (order.status == Canceled ==> later.orders[o].status == Canceled && later.orders[o].allocation.None?)
            && (order.status == Credited ==>
                  && later.orders[o].status == Credited && later.orders[o].allocation == order.allocation
                  && order.allocation.Some?)
  {
    hide RunShop, AllocationsOk, Sound, Extends, ItemsOk, Sum;
    EveryShopRunIsOk(ops);
    var s := RunShop(EMPTY_SHOP, ops);
    RunShopIsOk(s, more);
    assert OrderOk(s, s.orders[o]);
    assert Follows(s.orders[o], RunShop(s, more).orders[o]);
    assert OrderOk(RunShop(s, more), RunShop(s, more).orders[o]);
  }

  /** The operations that credit an order: the second of "paid" and "matched" to come about. */
  predicate CreditedBy(s: Shop, o: OrderId, op: ShopOp)
    requires o < |s.orders|
  {
    var order := s.orders[o];
    match op
    case MarkPaidOp(p, _) =>
      p == o && order.status in {AwaitingPayment, Paid} && order.member.Some? && Creditable(s, order)
    case ResolveOp(p, member, _) =>
      p == o && member.Some? && order.status == Paid && Creditable(s, order)
    case _ => false
  }

  predicate AddressedTo(op: ShopOp, o: OrderId) {
    match op
    case MarkPaidOp(p, _) => p == o
    case ResolveOp(p, _, _) => p == o
    case CancelOp(p) => p == o
    case _ => false
  }

  /** No other operation touches the order. */
  lemma OthersLeaveOrder(s: Shop, o: OrderId, op: ShopOp)
    requires ShopOk(s) && !AddressedTo(op, o)
    ensures var s' := ApplyShop(s, op);
            && (o < |s.orders| ==> o < |s'.orders| && s'.orders[o] == s.orders[o])
            && (|s.orders| <= o < |s'.orders| ==> s'.orders[o].status == AwaitingPayment)
  {
    hide Sound, AllocationsOk, OrdersOk, CreditIfReady, RecordAllocation, Apply, ItemsOk, Sum, ShopAdvances;
    match op
    case AllocateOp(f, m, gross, q, now) => RecordOutcome(s, f, m, gross, q, now);
    case MarkPaidOp(p, now) =>
      if p < |s.orders| {
        CreditStep(s, p, if s.orders[p].status == AwaitingPayment then s.orders[p].(status := Paid) else s.orders[p], now);
      } else {
        UnknownOrderStep(s, p, now);
      }
    case ResolveOp(p, member, now) =>
      if p < |s.orders| && member.Some? {
        CreditStep(s, p, s.orders[p].(member := member), now);
      } else {
        UnknownOrderStep(s, p, now);
      }
    case _ =>
  }

  lemma UnknownOrderStep(s: Shop, p: OrderId, now: int)
    ensures p >= |s.orders| ==> CreditIfReady(s, p, now).0 == s
  {
    hide RecordAllocation;
  }

  /** One order marked or matched, and credited if that makes it ready. */
  lemma CreditStep(s: Shop, o: OrderId, order: Order, now: int)
    requires ShopOk(s) && o < |s.orders| && Follows(s.orders[o], order)
    requires order.allocation == s.orders[o].allocation && (order.status == Credited <==> s.orders[o].status == Credited)
    requires s.orders[o].member.Some? ==> order.member.Some?
    ensures var s' := CreditIfReady(Touched(s, o, order), o, now).0;
            && |s'.orders| == |s.orders|
            && (forall p :: 0 <= p < |s.orders| && p != o ==> s'.orders[p] == s.orders[p])
            && (s'.orders[o].status == Credited <==> order.status == Credited || (Ready(order) && Creditable(s, order)))
            && s'.orders[o] == (if Ready(order) && Creditable(s, order)
                                then order.(status := Credited, allocation := Some(|s.allocations|)) else order)
            && |s'.books.txs| == |s.books.txs| +
                 (if Ready(order) && Posts(s, order.fundraiser, order.total, Some(Quantity(order))) then 1 else 0)
            && ShopOk(s')
    ensures s.orders[o] == order ==> Touched(s, o, order) == s
  {
    hide ShopOk, ShopAdvances, CreditIfReady, Follows, Posts, Quantity;
    NewStatusIsOk(s, o, order);
    CreditOutcome(Touched(s, o, order), o, now);
    if s.orders[o] == order {
      assert s.orders[o := order] == s.orders;
    }
    SameFundraisersPost(s, Touched(s, o, order), order);
  }

  lemma SameFundraisersPost(s: Shop, s': Shop, order: Order)
    requires s'.fundraisers == s.fundraisers
    ensures Creditable(s', order) == Creditable(s, order)
    ensures Posts(s', order.fundraiser, order.total, Some(Quantity(order))) ==
            Posts(s, order.fundraiser, order.total, Some(Quantity(order)))
  {
  }

  /** An order becomes credited exactly by being marked paid or matched when the other has happened already. */
  lemma CreditedExactlyWhenReady(s: Shop, o: OrderId, op: ShopOp)
    requires ShopOk(s) && o < |s.orders| && s.orders[o].status != Credited
    ensures o < |ApplyShop(s, op).orders|
    ensures ApplyShop(s, op).orders[o].status == Credited <==> CreditedBy(s, o, op)
  {
    hide ShopOk, ShopAdvances, CreditIfReady, Creditable, RecordAllocation, ItemsOk, Sum;
    Unallocated(s, o);
    var order := s.orders[o];
    if !AddressedTo(op, o) {
      OthersLeaveOrder(s, o, op);
    } else {
      match op
      case MarkPaidOp(_, now) =>
        var order' := if order.status == AwaitingPayment then order.(status := Paid) else order;
        CreditStep(s, o, order', now);
        SameCreditable(s, order, order');
      case ResolveOp(_, member, now) =>
        if member.Some? {
          CreditStep(s, o, order.(member := member), now);
          SameCreditable(s, order, order.(member := member));
        }
      case CancelOp(_) =>
    }
  }

  /** Where an operation leaves an order that stands at the given status. */
  function StatusAfter(s: Shop, o: OrderId, op: ShopOp): OrderStatus
    requires o < |s.orders|
  {
    var status := s.orders[o].status;
    if CreditedBy(s, o, op) then Credited
    else if op.MarkPaidOp? && op.order == o && status == AwaitingPayment then Paid
    else if op.CancelOp? && op.order == o && (status == AwaitingPayment || status == Paid) then Canceled
    else status
  }

  /** What an operation does to an order: its status, the Scout it is matched to, a fresh allocation, nothing else. */
  lemma OrderAfter(s: Shop, o: OrderId, op: ShopOp)
    requires ShopOk(s) && o < |s.orders|
    ensures var s', order := ApplyShop(s, op), s.orders[o];
            && o < |s'.orders|
            && s'.orders[o].status == StatusAfter(s, o, op)
            && s'.orders[o].member ==
                 (if op.ResolveOp? && op.order == o && op.member.Some? then op.member else order.member)
            && s'.orders[o].allocation == (if CreditedBy(s, o, op) then Some(|s.allocations|) else order.allocation)
            && s'.orders[o].items == order.items && s'.orders[o].total == order.total
            && s'.orders[o].fundraiser == order.fundraiser
    ensures Cancel(s, o).1.Ok? <==> s.orders[o].status != Credited && s.orders[o].status != Canceled
  {
    hide ShopOk, ShopAdvances, CreditIfReady, Creditable, RecordAllocation, ItemsOk, Sum;
    var order := s.orders[o];
    if !AddressedTo(op, o) {
      OthersLeaveOrder(s, o, op);
    } else {
      AllocatedIffCredited(s, o);
      match op
      case MarkPaidOp(_, now) =>
        var order' := if order.status == AwaitingPayment then order.(status := Paid) else order;
        CreditStep(s, o, order', now);
        SameCreditable(s, order, order');
      case ResolveOp(_, member, now) =>
        if member.Some? {
          CreditStep(s, o, order.(member := member), now);
          SameCreditable(s, order, order.(member := member));
        }
      case CancelOp(_) =>
    }
  }

  lemma SameCreditable(s: Shop, order: Order, order': Order)
    requires order'.items == order.items && order'.total == order.total && order'.fundraiser == order.fundraiser
    ensures Creditable(s, order') == Creditable(s, order)
    ensures Posts(s, order'.fundraiser, order'.total, Some(Quantity(order'))) ==
            Posts(s, order.fundraiser, order.total, Some(Quantity(order)))
  {
  }

  // ----- how often an order reaches the ledger -----

  /** How many ledger entries the operations addressed to order o have posted. */
  function OrderPostings(ops: seq<ShopOp>, o: OrderId): int {
    if ops == [] then 0
    else
      var front := ops[..|ops| - 1];
      var s := RunShop(EMPTY_SHOP, front);
      OrderPostings(front, o)
      + if AddressedTo(ops[|ops| - 1], o) then |ApplyShop(s, ops[|ops| - 1]).books.txs| - |s.books.txs| else 0
  }

  /** One operation addressed to a recordable order posts once if it credits the order, and otherwise not at all. */
  lemma AddressedPosts(s: Shop, o: OrderId, op: ShopOp)
    requires ShopOk(s) && o < |s.orders| && AddressedTo(op, o) && Quantity(s.orders[o]) <= MAX_RECORDED_QUANTITY
    ensures o < |ApplyShop(s, op).orders|
    ensures |ApplyShop(s, op).books.txs| - |s.books.txs| ==
            if s.orders[o].status != Credited && ApplyShop(s, op).orders[o].status == Credited then 1 else 0
  {
    hide ShopOk, ShopAdvances, CreditIfReady, Posts, RecordAllocation, ItemsOk, Quantity;
    var order := s.orders[o];
    AllocatedIffCredited(s, o);
    match op
    case MarkPaidOp(_, now) =>
      var order' := if order.status == AwaitingPayment then order.(status := Paid) else order;
      CreditStep(s, o, order', now);
      SameCreditable(s, order, order');
      SameQuantity(order, order');
    case ResolveOp(_, member, now) =>
      if member.Some? {
        CreditStep(s, o, order.(member := member), now);
        SameCreditable(s, order, order.(member := member));
        SameQuantity(order, order.(member := member));
      }
    case CancelOp(_) =>
  }

  lemma AllocatedIffCredited(s: Shop, o: OrderId)
    requires ShopOk(s) && o < |s.orders|
    ensures s.orders[o].allocation.Some? <==> s.orders[o].status == Credited
  {
    assert OrderOk(s, s.orders[o]);
  }

  lemma SameQuantity(order: Order, order': Order)
    requires order'.items == order.items
    ensures Quantity(order') == Quantity(order)
  {
  }

  predicate IsCredited(s: Shop, o: OrderId) {
    o < |s.orders| && s.orders[o].status == Credited
  }

  lemma UnknownOrderPostsNothing(s: Shop, o: OrderId, op: ShopOp)
    requires o >= |s.orders| && AddressedTo(op, o)
    ensures ApplyShop(s, op) == s
  {
  }

  /**
   On every run an order whose quantity can be recorded posts exactly one ledger entry if it is credited and none
   otherwise, in whatever order and however often it is marked paid, matched or canceled.
   */
  lemma {:induction false} PostsOncePerCredit(ops: seq<ShopOp>, o: OrderId)
    requires var s := RunShop(EMPTY_SHOP, ops);
             o < |s.orders| ==> Quantity(s.orders[o]) <= MAX_RECORDED_QUANTITY
    ensures OrderPostings(ops, o) == if IsCredited(RunShop(EMPTY_SHOP, ops), o) then 1 else 0
    decreases |ops|
  {
    hide ShopOk, ShopAdvances, ApplyShop, Quantity;
    if ops != [] {
      var front, op := ops[..|ops| - 1], ops[|ops| - 1];
      var s := RunShop(EMPTY_SHOP, front);
      EveryShopRunIsOk(front);
      OrderStays(s, o, op);
      PostsOncePerCredit(front, o);
      if !AddressedTo(op, o) {
        OthersLeaveOrder(s, o, op);
      } else if o < |s.orders| {
        AddressedPosts(s, o, op);
      } else {
        UnknownOrderPostsNothing(s, o, op);
      }
    }
  }

  lemma OrderStays(s: Shop, o: OrderId, op: ShopOp)
    requires ShopOk(s)
    ensures o < |s.orders| ==>
              var s' := ApplyShop(s, op);
              && o < |s'.orders| && Quantity(s'.orders[o]) == Quantity(s.orders[o])
              && (s.orders[o].status == Credited ==> s'.orders[o].status == Credited)
  {
    hide ShopOk, ApplyShop, Quantity;
    ShopApplyIsOk(s, op);
    if o < |s.orders| {
      assert Follows(s.orders[o], ApplyShop(s, op).orders[o]);
      SameQuantity(s.orders[o], ApplyShop(s, op).orders[o]);
    }
  }

  // ----- the one order size that is not recorded -----

  /** Ten thousand lines of ten thousand one-cent items: 100,000,000 items, one more than can be recorded. */
  function FullOrder(): seq<Item> {
    seq(10_000, _ => Item("item", 1, 10_000))
  }

  lemma {:induction false} ConstantSum(xs: seq<int>, x: int)
    requires forall i :: 0 <= i < |xs| ==> xs[i] == x
    ensures Sum(xs) == |xs| * x
  {
    if xs != [] {
      ConstantSum(xs[..|xs| - 1], x);
    }
  }

  lemma FullOrderIsAccepted()
    ensures ItemsOk(FullOrder()) && Sum(Quantities(FullOrder())) == 100_000_000
  {
    hide Sum;
    ConstantSum(LineTotals(FullOrder()), 10_000);
    ConstantSum(Quantities(FullOrder()), 10_000);
  }

  /** Accepted orders hold at most that many items, so no other size is affected. */
  lemma {:induction false} QuantityAtMostTotal(items: seq<Item>)
    requires forall k :: 0 <= k < |items| ==> ItemOk(items[k])
    ensures Sum(Quantities(items)) <= Sum(LineTotals(items))
  {
    hide Sum;
    forall k | 0 <= k < |items|
      ensures Quantities(items)[k] <= LineTotals(items)[k]
    {
      LineBounds(items[k]);
    }
    SumAtMost(Quantities(items), LineTotals(items));
  }

  /** Marking such an order paid posts the credit but cannot record it, and leaves the order ready to be credited again. */
  lemma UnrecordableIsPostedAgain(s: Shop, o: OrderId, now: int)
    requires ShopOk(s) && o < |s.orders| && Ready(s.orders[o]) && Quantity(s.orders[o]) > MAX_RECORDED_QUANTITY
    requires Posts(s, s.orders[o].fundraiser, s.orders[o].total, Some(Quantity(s.orders[o])))
    ensures var (s', r) := MarkPaid(s, o, now);
            && r.Err? && |s'.books.txs| == |s.books.txs| + 1
            && s'.orders == s.orders && s'.fundraisers == s.fundraisers && ShopOk(s')
  {
    hide ShopOk, ShopAdvances, CreditIfReady, Posts, Quantity;
    CreditOutcome(s, o, now);
    assert MarkPaid(s, o, now).0.orders == s.orders;
  }

  const FULL_ORDER_RUN: seq<ShopOp> := [
    AddFundraiserOp(0, Percentage(1000)), CreateOrderOp(0, "buyer", "scout", FullOrder(), Some(7)),
    MarkPaidOp(0, 0), MarkPaidOp(0, 0)]

  /** The two shops before the order is first marked paid. */
  function FullOrderShop(paid: bool): Shop {
    EMPTY_SHOP.(
      fundraisers := [Fundraiser(0, Percentage(1000))],
      orders := [Order(0, FullOrder(), Some(7), 100_000_000, if paid then Paid else AwaitingPayment, None)])
  }

  lemma FullOrderTotal()
    ensures Sum(LineTotals(FullOrder())) == 100_000_000
  {
    hide Sum;
    ConstantSum(LineTotals(FullOrder()), 10_000);
  }

  lemma RunShopSnoc(s: Shop, ops: seq<ShopOp>, op: ShopOp)
    ensures RunShop(s, ops + [op]) == ApplyShop(RunShop(s, ops), op)
  {
    hide ApplyShop;
    assert (ops + [op])[..|ops|] == ops;
  }

  lemma OrderPostingsSnoc(ops: seq<ShopOp>, op: ShopOp, o: OrderId)
    ensures var s := RunShop(EMPTY_SHOP, ops);
            OrderPostings(ops + [op], o) ==
            OrderPostings(ops, o) + if AddressedTo(op, o) then |ApplyShop(s, op).books.txs| - |s.books.txs| else 0
  {
    hide ApplyShop;
    assert (ops + [op])[..|ops|] == ops;
  }

  lemma FullOrderPlaced()
    ensures RunShop(EMPTY_SHOP, FULL_ORDER_RUN[..2]) == FullOrderShop(false)
    ensures OrderPostings(FULL_ORDER_RUN[..2], 0) == 0
  {
    hide Sum, LineTotals, ItemsOk, FullOrder;
    var ops := FULL_ORDER_RUN;
    assert ops[..2] == ([] + [ops[0]]) + [ops[1]];
    RunShopSnoc(EMPTY_SHOP, [], ops[0]);
    RunShopSnoc(EMPTY_SHOP, [] + [ops[0]], ops[1]);
    OrderPostingsSnoc([], ops[0], 0);
    OrderPostingsSnoc([] + [ops[0]], ops[1], 0);
    FullOrderIsAccepted();
    FullOrderTotal();
    assert TrimSpace("buyer") == "buyer" && TrimSpace("scout") == "scout" by {
      TrimSpaceOfTight("buyer");
      TrimSpaceOfTight("scout");
    }
  }

  lemma FullOrderPosts()
    ensures Ready(FullOrderShop(true).orders[0]) && Quantity(FullOrderShop(true).orders[0]) == 100_000_000
    ensures Posts(FullOrderShop(true), 0, 100_000_000, Some(100_000_000))
  {
    hide Sum, FullOrder;
    FullOrderIsAccepted();
  }

  /** So an order of exactly that size is credited as often as it is marked paid: here, twice. */
  lemma FullOrderIsCreditedTwice()
    ensures OrderPostings(FULL_ORDER_RUN, 0) == 2
    ensures !IsCredited(RunShop(EMPTY_SHOP, FULL_ORDER_RUN), 0)
  {
    hide ShopOk, ShopAdvances, CreditIfReady, RecordAllocation, Posts, Quantity, FullOrder, RunShop, OrderPostings;
    var ops, unpaid, paid := FULL_ORDER_RUN, FullOrderShop(false), FullOrderShop(true);
    FullOrderPlaced();
    FullOrderPosts();
    EveryShopRunIsOk(ops[..2]);
    MarkPaidIsOk(unpaid, 0, 0);
    NewStatusIsOk(unpaid, 0, paid.orders[0]);
    assert unpaid.orders[0 := paid.orders[0]] == paid.orders;
    UnrecordableIsPostedAgain(paid, 0, 0);
    var once := MarkPaid(unpaid, 0, 0).0;
    SameFundraisersPost(paid, once, paid.orders[0]);
    UnrecordableIsPostedAgain(once, 0, 0);
    assert ops == (ops[..2] + [ops[2]]) + [ops[3]];
    RunShopSnoc(EMPTY_SHOP, ops[..2], ops[2]);
    RunShopSnoc(EMPTY_SHOP, ops[..2] + [ops[2]], ops[3]);
    OrderPostingsSnoc(ops[..2], ops[2], 0);
    OrderPostingsSnoc(ops[..2] + [ops[2]], ops[3], 0);
  }

  /** Scouts are never credited more than the orders they were credited for brought in. */
  function CreditLines(s: Shop): (xs: seq<int>)
    ensures |xs| == |s.orders|
  {
    seq(|s.orders|, o requires 0 <= o < |s.orders| =>
      match s.orders[o].allocation
      case Some(k) => if k < |s.allocations| then s.allocations[k].credited as int else 0
      case None => 0)
  }

  function CreditedTotals(s: Shop): (xs: seq<int>)
    ensures |xs| == |s.orders|
  {
    seq(|s.orders|, o requires 0 <= o < |s.orders| => if s.orders[o].status == Credited then s.orders[o].total as int else 0)
  }

  lemma CreditsWithinTotals(ops: seq<ShopOp>)
    ensures var s := RunShop(EMPTY_SHOP, ops); Sum(CreditLines(s)) <= Sum(CreditedTotals(s))
  {
    hide RunShop, Sum, Sound, ItemsOk;
    EveryShopRunIsOk(ops);
    var s := RunShop(EMPTY_SHOP, ops);
    forall o | 0 <= o < |s.orders|
      ensures CreditLines(s)[o] <= CreditedTotals(s)[o]
    {
      assert OrderOk(s, s.orders[o]);
      if s.orders[o].allocation.Some? {
        assert Backed(s.books, s.allocations[s.orders[o].allocation.value]);
      }
    }
    SumAtMost(CreditLines(s), CreditedTotals(s));
  }
}
