/** The storefront's operations as they run, over the same database as the ledger. */
module StorefrontStore {
  import opened Prelude
  import opened Text
  import opened Ledger
  import opened LedgerStore
  import opened Storefront
  import opened Reports

  class Desk {
    const ledger: Store
    var fundraisers: seq<Fundraiser>
    var orders: seq<Order>
    var allocations: seq<Allocation>

    constructor ()
      ensures fresh(ledger) && State() == EMPTY_SHOP
    {
      ledger := new Store();
      fundraisers, orders, allocations := [], [], [];
    }

    function State(): Shop
      reads this, ledger
    {
      Shop(ledger.State(), fundraisers, orders, allocations)
    }

    /** Records an order once every line has been checked and totaled. */
    method CreateFundraiserOrder(f: FundraiserId, buyer: string, scout: string, items: seq<Item>, member: Option<MemberId>)
      returns (r: Result<OrderId, ShopError>)
      modifies this`orders
      ensures (State(), r) == CreateOrder(old(State()), f, buyer, scout, items, member)
    {
      hide TrimSpace, Sum, LineTotals;
      if TrimSpace(buyer) == "" || TrimSpace(scout) == "" {
        return Err(NoName);
      }
      var total := OrderTotal(items);
      if total.None? {
        return Err(ItemsRefused);
      }
      if f >= |fundraisers| {
        return Err(UnknownFundraiser);
      }
      r := Ok(|orders|);
      orders := orders + [Order(f, items, member, total.value, AwaitingPayment, None)];
    }

    /** Posts a Scout's share of the proceeds and records it; the ledger entry stands even if the record is refused. */
    method RecordFundraiserAllocation(f: FundraiserId, member: MemberId, gross: Cents, quantity: Option<int>, now: int)
      returns (r: Result<AllocationId, ShopError>)
      modifies this`allocations, ledger
      ensures (State(), r) == RecordAllocation(old(State()), f, member, gross, quantity, now)
    {
      hide RoundHalfAway, Ledger.EnsureAccount, Ledger.Post;
      if gross <= 0 {
        return Err(GrossNotPositive);
      }
      if f >= |fundraisers| {
        return Err(UnknownFundraiser);
      }
      var credited := 0;
      match fundraisers[f].rule {
        case Percentage(bp) =>
          credited := RoundHalfAway(gross * bp, 10_000);
        case FixedPerItem(cents) =>
          if quantity.None? || quantity.value <= 0 {
            return Err(BadQuantity);
          }
          credited := quantity.value * cents;
      }
      if credited <= 0 {
        return Err(CreditNotPositive);
      }
      if credited > gross {
        return Err(CreditExceedsGross);
      }
      var general := ledger.EnsureAccount(fundraisers[f].unit, UnitGeneral);
      var scout := ledger.EnsureAccount(fundraisers[f].unit, ScoutIndividual(member));
      var posted := ledger.PostTransaction(fundraisers[f].unit, "fundraiser_allocation", now,
                                           [Posting(general, -credited), Posting(scout, credited)]);
      if posted.Err? {
        return Err(NotPosted(posted.error));
      }
      if quantity.Some? && quantity.value > MAX_RECORDED_QUANTITY {
        return Err(NotRecorded);
      }
      r := Ok(|allocations|);
      allocations := allocations + [Allocation(f, member, gross, quantity, credited, posted.value)];
    }

    /** Credits an order once it is both paid and matched to a Scout; a no-op until then and ever after. */
    method CreditOrderIfReady(o: OrderId, now: int) returns (r: Result<(), ShopError>)
      modifies this, ledger
      ensures (State(), r) == CreditIfReady(old(State()), o, now)
    {
      hide RecordAllocation, Sum, Quantities;
      if o >= |orders| {
        return Err(UnknownOrder);
      }
      var order := orders[o];
      if order.status != Paid || order.member.None? || order.allocation.Some? {
        return Ok(());
      }
      var qty := CountItems(order.items);
      var recorded := RecordFundraiserAllocation(order.fundraiser, order.member.value, order.total, Some(qty), now);
      if recorded.Err? {
        return Err(recorded.error);
      }
      AllocationsOnly(old(State()), order.fundraiser, order.member.value, order.total, Some(qty), now);
      orders := orders[o := order.(status := Credited, allocation := Some(recorded.value))];
      return Ok(());
    }

    method MarkFundraiserOrderPaid(o: OrderId, now: int) returns (r: Result<(), ShopError>)
      modifies this, ledger
      ensures (State(), r) == MarkPaid(old(State()), o, now)
    {
      hide CreditIfReady;
      if o < |orders| && orders[o].status == AwaitingPayment {
        orders := orders[o := orders[o].(status := Paid)];
      }
      r := CreditOrderIfReady(o, now);
    }

    method ResolveFundraiserOrderScout(o: OrderId, member: Option<MemberId>, now: int) returns (r: Result<(), ShopError>)
      modifies this, ledger
      ensures (State(), r) == ResolveScout(old(State()), o, member, now)
    {
      hide CreditIfReady;
      if member.None? {
        return Err(NoScout);
      }
      if o < |orders| {
        orders := orders[o := orders[o].(member := member)];
      }
      r := CreditOrderIfReady(o, now);
    }

    method CancelFundraiserOrder(o: OrderId) returns (r: Result<(), ShopError>)
      modifies this`orders
      ensures (State(), r) == Cancel(old(State()), o)
    {
      if o < |orders| && orders[o].status in {AwaitingPayment, Paid} {
        orders := orders[o := orders[o].(status := Canceled)];
        return Ok(());
      }
      return Err(AlreadySettled);
    }
  }

  /** The number of items on an order. */
  method CountItems(items: seq<Item>) returns (qty: int)
    ensures qty == Sum(Quantities(items))
  {
    hide Sum;
    qty := 0;
    assert Sum(Quantities(items[..0])) == 0 by { SumZero(Quantities(items[..0])); }
    for i := 0 to |items|
      invariant qty == Sum(Quantities(items[..i]))
    {
      QuantitiesStep(items, i);
      qty := qty + items[i].quantity;
    }
    assert items[..|items|] == items;
  }

  lemma QuantitiesStep(items: seq<Item>, i: nat)
    requires i < |items|
    ensures Sum(Quantities(items[..i + 1])) == Sum(Quantities(items[..i])) + items[i].quantity
  {
    hide Sum;
    assert Quantities(items[..i + 1]) == Quantities(items[..i]) + [items[i].quantity as int];
    SumSnoc(Quantities(items[..i]), items[i].quantity);
  }

  lemma AllocationsOnly(s: Shop, f: FundraiserId, member: MemberId, gross: Cents, quantity: Option<int>, now: int)
    ensures var s' := RecordAllocation(s, f, member, gross, quantity, now).0;
            s'.orders == s.orders && s'.fundraisers == s.fundraisers
  {
    hide CreditFor, EnsureBoth, Post;
  }
}
