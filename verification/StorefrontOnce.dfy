/**
 Exactly which orders are credited once: those whose number of items can be recorded. The one accepted size that
 cannot, 100,000,000 items, can be made to post without ever being credited, unless it is canceled first.
 */
module StorefrontOnce {
  import opened Prelude
  import opened Text
  import opened Ledger
  import opened LedgerInvariants
  import opened Storefront
  import opened StorefrontTheorems

  /** As many ledger entries as credits: one for a credited order, none for any other. */
  predicate PostsOnce(ops: seq<ShopOp>, o: OrderId) {
    OrderPostings(ops, o) == if IsCredited(RunShop(EMPTY_SHOP, ops), o) then 1 else 0
  }

  /** And so it remains, whatever is done next. */
  ghost predicate AlwaysPostsOnce(ops: seq<ShopOp>, o: OrderId) {
    forall more :: PostsOnce(ops + more, o)
  }

  lemma {:induction false} RunShopConcat(s: Shop, ops: seq<ShopOp>, more: seq<ShopOp>)
    ensures RunShop(s, ops + more) == RunShop(RunShop(s, ops), more)
    decreases |more|
  {
    hide ApplyShop;
    if more == [] {
      assert ops + more == ops;
    } else {
      var front, last := more[..|more| - 1], more[|more| - 1];
      assert ops + more == (ops + front) + [last] && more == front + [last];
      RunShopConcat(s, ops, front);
      RunShopSnoc(s, ops + front, last);
      RunShopSnoc(RunShop(s, ops), front, last);
    }
  }

  /** What later operations leave of an order. */
  lemma OrderLater(ops: seq<ShopOp>, o: OrderId, more: seq<ShopOp>)
    requires o < |RunShop(EMPTY_SHOP, ops).orders|
    ensures var order, later := RunShop(EMPTY_SHOP, ops).orders[o], RunShop(EMPTY_SHOP, ops + more);
            && o < |later.orders| && Quantity(later.orders[o]) == Quantity(order)
            && (order.status == Canceled ==> later.orders[o].status == Canceled)
  {
    hide RunShop, Quantity;
    RunShopConcat(EMPTY_SHOP, ops, more);
    SettledForGood(ops, o, more);
    SameQuantity(RunShop(EMPTY_SHOP, ops).orders[o], RunShop(EMPTY_SHOP, ops + more).orders[o]);
  }

  // ----- the one size that cannot be recorded -----

  /** An accepted order that cannot be recorded holds one item more than can be. */
  lemma OnlyFullIsUnrecordable(s: Shop, o: OrderId)
    requires ShopOk(s) && o < |s.orders| && Quantity(s.orders[o]) > MAX_RECORDED_QUANTITY
    ensures Quantity(s.orders[o]) == s.orders[o].total == MAX_RECORDED_QUANTITY + 1
  {
    hide Sum, Sound, AllocationsOk;
    assert OrderOk(s, s.orders[o]);
    QuantityAtMostTotal(s.orders[o].items);
  }

  lemma {:induction false} UnrecordableNeverCredited(ops: seq<ShopOp>, o: OrderId)
    requires var s := RunShop(EMPTY_SHOP, ops); o < |s.orders| ==> Quantity(s.orders[o]) > MAX_RECORDED_QUANTITY
    ensures !IsCredited(RunShop(EMPTY_SHOP, ops), o)
    decreases |ops|
  {
    hide ShopOk, ApplyShop, Quantity, Posts;
    if ops != [] {
      var front, op := ops[..|ops| - 1], ops[|ops| - 1];
      var s := RunShop(EMPTY_SHOP, front);
      EveryShopRunIsOk(front);
      OrderStays(s, o, op);
      UnrecordableNeverCredited(front, o);
      if o < |s.orders| {
        CreditedExactlyWhenReady(s, o, op);
      } else if AddressedTo(op, o) {
        UnknownOrderPostsNothing(s, o, op);
      } else {
        OthersLeaveOrder(s, o, op);
      }
    }
  }

  // ----- canceled orders -----

  lemma CanceledPostsNothing(s: Shop, o: OrderId, op: ShopOp)
    requires ShopOk(s) && o < |s.orders| && s.orders[o].status == Canceled && AddressedTo(op, o)
    ensures |ApplyShop(s, op).books.txs| == |s.books.txs|
  {
    hide ShopOk, ShopAdvances, CreditIfReady, Posts, Quantity;
    AllocatedIffCredited(s, o);
    match op
    case MarkPaidOp(_, now) => CreditStep(s, o, s.orders[o], now);
    case ResolveOp(_, member, now) =>
      if member.Some? {
        CreditStep(s, o, s.orders[o].(member := member), now);
      }
    case CancelOp(_) =>
  }

  lemma {:induction false} CanceledStaysUnposted(ops: seq<ShopOp>, o: OrderId, more: seq<ShopOp>)
    requires var s := RunShop(EMPTY_SHOP, ops); o < |s.orders| && s.orders[o].status == Canceled
    ensures OrderPostings(ops + more, o) == OrderPostings(ops, o)
    decreases |more|
  {
    hide ApplyShop, RunShop, ShopOk, OrderPostings;
    if more == [] {
      assert ops + more == ops;
    } else {
      var front, op := more[..|more| - 1], more[|more| - 1];
      assert ops + more == (ops + front) + [op];
      CanceledStaysUnposted(ops, o, front);
      OrderLater(ops, o, front);
      OrderPostingsSnoc(ops + front, op, o);
      EveryShopRunIsOk(ops + front);
      if AddressedTo(op, o) {
        CanceledPostsNothing(RunShop(EMPTY_SHOP, ops + front), o, op);
      }
    }
  }

  // ----- any other order of that size posts without being credited -----

  ghost predicate FundraisersKnown(s: Shop) {
    forall o :: 0 <= o < |s.orders| ==> s.orders[o].fundraiser < |s.fundraisers|
  }

  lemma KnownKept(s: Shop, op: ShopOp)
    requires FundraisersKnown(s)
    ensures FundraisersKnown(ApplyShop(s, op))
  {
    hide Post, EnsureBoth, CreditFor, ItemsOk, Sum, Apply, TrimSpace, Quantity;
  }

  lemma {:induction false} EveryFundraiserIsKnown(ops: seq<ShopOp>)
    ensures FundraisersKnown(RunShop(EMPTY_SHOP, ops))
    decreases |ops|
  {
    hide ApplyShop;
    if ops != [] {
      EveryFundraiserIsKnown(ops[..|ops| - 1]);
      KnownKept(RunShop(EMPTY_SHOP, ops[..|ops| - 1]), ops[|ops| - 1]);
    }
  }

  lemma {:induction false} PostingsOnlyGrow(ops: seq<ShopOp>, o: OrderId)
    ensures OrderPostings(ops, o) >= 0
    ensures forall op :: OrderPostings(ops + [op], o) >= OrderPostings(ops, o)
    decreases |ops|
  {
    hide ApplyShop, ShopOk, RunShop, OrderPostings;
    EveryShopRunIsOk(ops);
    forall op
      ensures OrderPostings(ops + [op], o) >= OrderPostings(ops, o)
    {
      OrderPostingsSnoc(ops, op, o);
      ShopApplyIsOk(RunShop(EMPTY_SHOP, ops), op);
    }
    if ops == [] {
      assert OrderPostings([], o) == 0 by { NoPostings(o); }
    } else {
      assert ops[..|ops| - 1] + [ops[|ops| - 1]] == ops;
      PostingsOnlyGrow(ops[..|ops| - 1], o);
    }
  }

  lemma NoPostings(o: OrderId)
    ensures OrderPostings([], o) == 0
  {
  }

  const TENTH: Rule := Percentage(1000)

  /** What it takes: a rule that yields a credit, a Scout, and the payment. */
  function Paying(f: FundraiserId, o: OrderId): seq<ShopOp> {
    [SetRuleOp(f, TENTH), ResolveOp(o, Some(0), 0), MarkPaidOp(o, 0)]
  }

  /** An order of that size once its fundraiser credits a tenth, and once it is matched: neither credits it. */
  lemma RuledAndMatched(s: Shop, o: OrderId)
    requires ShopOk(s) && o < |s.orders| && s.orders[o].fundraiser < |s.fundraisers|
    requires s.orders[o].status in {AwaitingPayment, Paid} && Quantity(s.orders[o]) == MAX_RECORDED_QUANTITY + 1
    requires s.orders[o].total == MAX_RECORDED_QUANTITY + 1
    ensures var s' := ApplyShop(ApplyShop(s, SetRuleOp(s.orders[o].fundraiser, TENTH)), ResolveOp(o, Some(0), 0));
            && ShopOk(s') && o < |s'.orders| && s'.orders[o] == s.orders[o].(member := Some(0))
            && Posts(s', s'.orders[o].fundraiser, s'.orders[o].total, Some(Quantity(s'.orders[o])))
  {
    hide ShopOk, ShopAdvances, CreditIfReady, Quantity;
    var s1 := ApplyShop(s, SetRuleOp(s.orders[o].fundraiser, TENTH));
    ShopApplyIsOk(s, SetRuleOp(s.orders[o].fundraiser, TENTH));
    var order := s.orders[o].(member := Some(0));
    SameQuantity(s.orders[o], order);
    AllocatedIffCredited(s, o);
    NewStatusIsOk(s1, o, order);
    CreditOutcome(Touched(s1, o, order), o, 0);
  }

  /** Paying for it then posts an entry. */
  lemma PaidPosts(s: Shop, o: OrderId)
    requires ShopOk(s) && o < |s.orders| && s.orders[o].status in {AwaitingPayment, Paid} && s.orders[o].member.Some?
    requires Posts(s, s.orders[o].fundraiser, s.orders[o].total, Some(Quantity(s.orders[o])))
    ensures |ApplyShop(s, MarkPaidOp(o, 0)).books.txs| == |s.books.txs| + 1
  {
    hide ShopOk, ShopAdvances, CreditIfReady, Posts, Quantity;
    AllocatedIffCredited(s, o);
    var order := s.orders[o].(status := Paid);
    SameQuantity(s.orders[o], order);
    CreditStep(s, o, order, 0);
  }

  lemma UnrecordableCanPost(ops: seq<ShopOp>, o: OrderId)
    requires var s := RunShop(EMPTY_SHOP, ops);
             o < |s.orders| && Quantity(s.orders[o]) > MAX_RECORDED_QUANTITY && s.orders[o].status != Canceled
    ensures !AlwaysPostsOnce(ops, o)
  {
    hide ShopOk, ApplyShop, Quantity, RunShop, OrderPostings, Posts;
    var s := RunShop(EMPTY_SHOP, ops);
    EveryShopRunIsOk(ops);
    EveryFundraiserIsKnown(ops);
    OnlyFullIsUnrecordable(s, o);
    UnrecordableNeverCredited(ops, o);
    var more := Paying(s.orders[o].fundraiser, o);
    var ops1 := ops + [more[0]];
    var ops2 := ops1 + [more[1]];
    assert ops + more == ops2 + [more[2]];
    RunShopSnoc(EMPTY_SHOP, ops, more[0]);
    RunShopSnoc(EMPTY_SHOP, ops1, more[1]);
    RuledAndMatched(s, o);
    PaidPosts(RunShop(EMPTY_SHOP, ops2), o);
    OrderPostingsSnoc(ops2, more[2], o);
    PostingsOnlyGrow(ops2, o);
    assert OrderPostings(ops + more, o) >= 1;
    OrderLater(ops, o, more);
    UnrecordableNeverCredited(ops + more, o);
    assert !PostsOnce(ops + more, o);
  }

  // ----- the exact condition -----

  /**
   At any point of any run, an order posts once per credit from then on if and only if its quantity can be recorded,
   or it was canceled before anything was posted for it. The only accepted quantity that cannot is 100,000,000.
   */
  lemma CreditedOnceIff(ops: seq<ShopOp>, o: OrderId)
    requires o < |RunShop(EMPTY_SHOP, ops).orders|
    ensures var order := RunShop(EMPTY_SHOP, ops).orders[o];
            && (AlwaysPostsOnce(ops, o) <==>
                  Quantity(order) <= MAX_RECORDED_QUANTITY || (order.status == Canceled && OrderPostings(ops, o) == 0))
            && (Quantity(order) > MAX_RECORDED_QUANTITY ==> Quantity(order) == 100_000_000)
  {
    hide ShopOk, Quantity, RunShop, OrderPostings;
    var s := RunShop(EMPTY_SHOP, ops);
    var order := s.orders[o];
    EveryShopRunIsOk(ops);
    if Quantity(order) <= MAX_RECORDED_QUANTITY {
      forall more
        ensures PostsOnce(ops + more, o)
      {
        OrderLater(ops, o, more);
        PostsOncePerCredit(ops + more, o);
      }
    } else {
      OnlyFullIsUnrecordable(s, o);
      if order.status != Canceled {
        UnrecordableCanPost(ops, o);
      } else if OrderPostings(ops, o) == 0 {
        forall more
          ensures PostsOnce(ops + more, o)
        {
          OrderLater(ops, o, more);
          CanceledStaysUnposted(ops, o, more);
        }
      } else {
        assert ops + [] == ops;
        assert !PostsOnce(ops + [], o);
      }
    }
  }
}
