/**
 The fundraiser storefront: orders that are paid, matched to a Scout and then credited once, each credit moving
 a share of the order from the unit's general fund to that Scout's account.
 */
module Storefront {
  import opened Prelude
  import opened Text
  import opened Ledger
  import opened LedgerInvariants

  const MAX_ORDER_ITEM_QUANTITY: int := 10_000
  const MAX_ORDER_TOTAL_CENTS: int := 100_000_000

  /** The largest whole number of items the allocations table can record. */
  const MAX_RECORDED_QUANTITY: int := 99_999_999

  type FundraiserId = nat
  type OrderId = nat
  type AllocationId = nat

  /** A share of the proceeds, in hundredths of a percent, or a fixed amount for each item. */
  datatype Rule = Percentage(basisPoints: int) | FixedPerItem(cents: Cents)

  datatype Fundraiser = Fundraiser(unit: UnitId, rule: Rule)

  datatype Item = Item(name: string, unitPrice: Cents, quantity: Int64)

  datatype OrderStatus = AwaitingPayment | Paid | Credited | Canceled

  datatype Order = Order(
    fundraiser: FundraiserId, items: seq<Item>, member: Option<MemberId>, total: Cents,
    status: OrderStatus, allocation: Option<AllocationId>)

  datatype Allocation = Allocation(
    fundraiser: FundraiserId, member: MemberId, gross: Cents, quantity: Option<int>, credited: Cents, tx: TxId)

  datatype Shop = Shop(
    books: Books, fundraisers: seq<Fundraiser>, orders: seq<Order>, allocations: seq<Allocation>)

  const EMPTY_SHOP: Shop := Shop(EMPTY_BOOKS, [], [], [])

  datatype ShopError =
    | NoName | ItemsRefused | GrossNotPositive | UnknownFundraiser | BadQuantity | CreditNotPositive | CreditExceedsGross
    | NotPosted(error: Error) | NotRecorded | UnknownOrder | NoScout | AlreadySettled

  // ----- orders -----

  function LineTotals(items: seq<Item>): (xs: seq<int>)
    ensures |xs| == |items|
  {
    seq(|items|, i requires 0 <= i < |items| => items[i].unitPrice * items[i].quantity)
  }

  function Quantities(items: seq<Item>): (xs: seq<int>)
    ensures |xs| == |items|
  {
    seq(|items|, i requires 0 <= i < |items| => items[i].quantity as int)
  }

  predicate ItemOk(item: Item) {
    0 < item.unitPrice <= MAX_ORDER_TOTAL_CENTS && 0 < item.quantity <= MAX_ORDER_ITEM_QUANTITY
  }

  /** The items of an order that is accepted, and nothing else. */
  predicate ItemsOk(items: seq<Item>) {
    && items != []
    && (forall i :: 0 <= i < |items| ==> ItemOk(items[i]))
    && Sum(LineTotals(items)) <= MAX_ORDER_TOTAL_CENTS
  }

  lemma LineTotalsPrefix(items: seq<Item>, i: nat)
    requires i < |items|
    ensures Sum(LineTotals(items[..i + 1])) == Sum(LineTotals(items[..i])) + items[i].unitPrice * items[i].quantity
  {
    hide Sum;
    assert LineTotals(items[..i + 1]) == LineTotals(items[..i]) + [items[i].unitPrice * items[i].quantity];
    SumSnoc(LineTotals(items[..i]), items[i].unitPrice * items[i].quantity);
  }

  /** Positive lines: the total so far never exceeds the whole. */
  lemma {:induction false} PrefixTotal(items: seq<Item>, i: nat)
    requires i <= |items| && forall k :: 0 <= k < |items| ==> ItemOk(items[k])
    ensures Sum(LineTotals(items[..i])) <= Sum(LineTotals(items))
    decreases |items| - i
  {
    hide Sum, LineTotals;
    if i == |items| {
      assert items[..i] == items;
    } else {
      PrefixTotal(items, i + 1);
      LineTotalsPrefix(items, i);
      LineBounds(items[i]);
    }
  }

  lemma LineBounds(item: Item)
    requires ItemOk(item)
    ensures 0 < item.unitPrice * item.quantity <= MAX_ORDER_TOTAL_CENTS * MAX_ORDER_ITEM_QUANTITY
    ensures item.quantity <= item.unitPrice * item.quantity
  {
    MulMonotone(1, item.unitPrice, item.quantity);
    MulMonotone(item.unitPrice, MAX_ORDER_TOTAL_CENTS, item.quantity);
  }

  lemma {:induction false} MulMonotone(a: int, b: int, q: int)
    requires a <= b && q >= 0
    ensures a * q <= b * q
    decreases b - a
  {
    if a < b {
      MulMonotone(a, b - 1, q);
      assert b * q == (b - 1) * q + q;
    }
  }

  /** The limit on prices shuts nothing out: an order is good by its quantities and its total, a million dollars at most. */
  lemma GoodByQuantityAndTotal(items: seq<Item>)
    ensures ItemsOk(items) <==>
            && items != [] && Sum(LineTotals(items)) <= 100_000_000
            && forall i :: 0 <= i < |items| ==> items[i].unitPrice > 0 && 1 <= items[i].quantity <= 10_000
  {
    hide Sum, LineTotals;
    if Sum(LineTotals(items)) <= 100_000_000
       && forall i :: 0 <= i < |items| ==> items[i].unitPrice > 0 && 1 <= items[i].quantity <= 10_000 {
      forall i | 0 <= i < |items|
        ensures items[i].unitPrice <= 100_000_000
      {
        LineWithinTotal(items, i);
      }
    }
  }

  lemma LineWithinTotal(items: seq<Item>, k: nat)
    requires k < |items| && forall i :: 0 <= i < |items| ==> items[i].unitPrice > 0 && items[i].quantity >= 1
    ensures items[k].unitPrice <= Sum(LineTotals(items))
  {
    hide Sum;
    var xs := LineTotals(items);
    forall i | 0 <= i < |items|
      ensures items[i].unitPrice <= xs[i]
    {
      MulMonotone(1, items[i].quantity, items[i].unitPrice);
    }
    SumUpdate(xs, k, 0);
    SumNotNegative(xs[k := 0]);
  }

  /** The order's total, added up in 64 bits with every line checked first: it is the exact total, or none. */
  method OrderTotal(items: seq<Item>) returns (r: Option<Cents>)
    ensures r.Some? <==> ItemsOk(items)
    ensures r.Some? ==> r.value == Sum(LineTotals(items)) && r.value > 0
  {
    hide Sum, LineTotals, Wrap64;
    if |items| == 0 {
      return None;
    }
    var total: Cents := 0;
    NoLines();
    for i := 0 to |items|
      invariant forall k :: 0 <= k < i ==> ItemOk(items[k])
      invariant total == Sum(LineTotals(items[..i]))
      invariant 0 <= total <= MAX_ORDER_TOTAL_CENTS
      invariant i > 0 ==> total > 0
    {
      if items[i].unitPrice <= 0 || items[i].unitPrice > MAX_ORDER_TOTAL_CENTS {
        return None;
      }
      if items[i].quantity <= 0 || items[i].quantity > MAX_ORDER_ITEM_QUANTITY {
        return None;
      }
      LineTotalsPrefix(items, i);
      LineBounds(items[i]);
      total := Wrap64(total + Wrap64(items[i].unitPrice * items[i].quantity));
      if total > MAX_ORDER_TOTAL_CENTS {
        TotalOnlyGrows(items, i + 1);
        return None;
      }
    }
    assert items[..|items|] == items;
    return if total <= 0 then None else Some(total);
  }

  lemma NoLines()
    ensures Sum(LineTotals([])) == 0
  {
  }

  lemma TotalOnlyGrows(items: seq<Item>, i: nat)
    requires i <= |items| && Sum(LineTotals(items[..i])) > MAX_ORDER_TOTAL_CENTS
    ensures !ItemsOk(items)
  {
    hide Sum, LineTotals, ItemOk;
    if forall k :: 0 <= k < |items| ==> ItemOk(items[k]) {
      PrefixTotal(items, i);
    }
  }

  // ----- credits -----

  /** n / d rounded to the nearest integer, halves away from zero. */
  function RoundHalfAway(n: int, d: int): int
    requires d > 0
  {
    if n >= 0 then (2 * n + d) / (2 * d) else -((2 * -n + d) / (2 * d))
  }

  lemma RoundsToNearest(n: int, d: int)
    requires d > 0
    ensures var r := RoundHalfAway(n, d);
            -d <= 2 * (n - r * d) <= d && (2 * (n - r * d) == d ==> n < 0) && (2 * (n - r * d) == -d ==> n >= 0)
  {
    var m := if n >= 0 then n else -n;
    var q := (2 * m + d) / (2 * d);
    assert 2 * m + d == (2 * d) * q + (2 * m + d) % (2 * d);
    assert (2 * d) * q == 2 * (q * d);
    assert RoundHalfAway(n, d) * d == if n >= 0 then q * d else -(q * d);
  }

  /** What a fundraiser's rule credits for a gross amount. */
  function Share(rule: Rule, gross: int, quantity: Option<int>): Result<int, ShopError> {
    match rule
    case Percentage(bp) => Ok(RoundHalfAway(gross * bp, 10_000))
    case FixedPerItem(cents) =>
      if quantity.None? || quantity.value <= 0 then Err(BadQuantity) else Ok(quantity.value * cents)
  }

  function CreditFor(rule: Rule, gross: Cents, quantity: Option<int>): (r: Result<Cents, ShopError>)
    ensures r.Ok? ==> 0 < r.value <= gross
  {
    match Share(rule, gross, quantity)
    case Err(e) => Err(e)
    case Ok(credited) =>
      if credited <= 0 then Err(CreditNotPositive)
      else if credited > gross then Err(CreditExceedsGross)
      else Ok(credited)
  }

  type ShopOutcome<T> = (Shop, Result<T, ShopError>)

  /** The unit's general fund and the Scout's account, both opened on first use. */
  function EnsureBoth(b: Books, unit: UnitId, member: MemberId): (Books, AccountId, AccountId) {
    var (b1, general) := EnsureAccount(b, unit, UnitGeneral);
    var (b2, scout) := EnsureAccount(b1, unit, ScoutIndividual(member));
    (b2, general, scout)
  }

  function CreditPostings(general: AccountId, scout: AccountId, credited: Cents): seq<Posting>
    requires credited > 0
  {
    [Posting(general, -credited), Posting(scout, credited)]
  }

  /** Posts a Scout's share and then records the allocation; the posting stands even if the record is refused. */
  function RecordAllocation(s: Shop, f: FundraiserId, member: MemberId, gross: Cents, quantity: Option<int>, now: int)
    : ShopOutcome<AllocationId>
  {
    if gross <= 0 then (s, Err(GrossNotPositive))
    else if f >= |s.fundraisers| then (s, Err(UnknownFundraiser))
    else
      match CreditFor(s.fundraisers[f].rule, gross, quantity)
      case Err(e) => (s, Err(e))
      case Ok(credited) =>
        var unit := s.fundraisers[f].unit;
        var (b, general, scout) := EnsureBoth(s.books, unit, member);
        match Post(b, unit, "fundraiser_allocation", now, CreditPostings(general, scout, credited))
        case (b', Err(e)) => (s.(books := b'), Err(NotPosted(e)))
        case (b', Ok(t)) =>
          if quantity.Some? && quantity.value > MAX_RECORDED_QUANTITY then (s.(books := b'), Err(NotRecorded))
          else
            (s.(books := b', allocations := s.allocations + [Allocation(f, member, gross, quantity, credited, t)]),
             Ok(|s.allocations|))
  }

  predicate Ready(order: Order) {
    order.status == Paid && order.member.Some? && order.allocation.None?
  }

  function Quantity(order: Order): int {
    Sum(Quantities(order.items))
  }

  /** Credits an order once it is both paid and matched; otherwise leaves it alone. */
  function CreditIfReady(s: Shop, o: OrderId, now: int): ShopOutcome<()> {
    if o >= |s.orders| then (s, Err(UnknownOrder))
    else if !Ready(s.orders[o]) then (s, Ok(()))
    else
      var order := s.orders[o];
      match RecordAllocation(s, order.fundraiser, order.member.value, order.total, Some(Quantity(order)), now)
      case (s', Err(e)) => (s', Err(e))
      case (s', Ok(k)) =>
        (s'.(orders := s.orders[o := order.(status := Credited, allocation := Some(k))]), Ok(()))
  }

  function MarkPaid(s: Shop, o: OrderId, now: int): ShopOutcome<()> {
    if o < |s.orders| && s.orders[o].status == AwaitingPayment
    then CreditIfReady(s.(orders := s.orders[o := s.orders[o].(status := Paid)]), o, now)
    else CreditIfReady(s, o, now)
  }

  function ResolveScout(s: Shop, o: OrderId, member: Option<MemberId>, now: int): ShopOutcome<()> {
    if member.None? then (s, Err(NoScout))
    else if o < |s.orders| then CreditIfReady(s.(orders := s.orders[o := s.orders[o].(member := member)]), o, now)
    else CreditIfReady(s, o, now)
  }

  function Cancel(s: Shop, o: OrderId): ShopOutcome<()> {
    if o < |s.orders| && s.orders[o].status in {AwaitingPayment, Paid}
    then (s.(orders := s.orders[o := s.orders[o].(status := Canceled)]), Ok(()))
    else (s, Err(AlreadySettled))
  }

  function CreateOrder(s: Shop, f: FundraiserId, buyer: string, scout: string, items: seq<Item>, member: Option<MemberId>)
    : ShopOutcome<OrderId>
  {
    if TrimSpace(buyer) == "" || TrimSpace(scout) == "" then (s, Err(NoName))
    else if !ItemsOk(items) then (s, Err(ItemsRefused))
    else if f >= |s.fundraisers| then (s, Err(UnknownFundraiser))
    else
      TotalIsPositive(items);
      var order := Order(f, items, member, Sum(LineTotals(items)), AwaitingPayment, None);
      (s.(orders := s.orders + [order]), Ok(|s.orders|))
  }

  lemma TotalIsPositive(items: seq<Item>)
    requires ItemsOk(items)
    ensures 0 < Sum(LineTotals(items)) <= MAX_ORDER_TOTAL_CENTS
  {
    hide Sum, LineTotals;
    NoLines();
    PrefixTotal(items, 1);
    LineTotalsPrefix(items, 0);
    LineBounds(items[0]);
    assert items[..0] == [];
  }

  function AddFundraiser(s: Shop, unit: UnitId, rule: Rule): Shop {
    s.(fundraisers := s.fundraisers + [Fundraiser(unit, rule)])
  }

  function SetRule(s: Shop, f: FundraiserId, rule: Rule): Shop {
    if f < |s.fundraisers| then s.(fundraisers := s.fundraisers[f := s.fundraisers[f].(rule := rule)]) else s
  }

  datatype ShopOp =
    | OnBooks(op: Op)
    | AddFundraiserOp(unit: UnitId, rule: Rule)
    | SetRuleOp(f: FundraiserId, rule: Rule)
    | AllocateOp(f: FundraiserId, scout: MemberId, gross: Cents, quantity: Option<int>, now: int)
    | CreateOrderOp(f: FundraiserId, buyer: string, scoutName: string, items: seq<Item>, member: Option<MemberId>)
    | MarkPaidOp(order: OrderId, now: int)
    | ResolveOp(order: OrderId, member: Option<MemberId>, now: int)
    | CancelOp(order: OrderId)

  function ApplyShop(s: Shop, op: ShopOp): Shop {
    match op
    case OnBooks(op) => s.(books := Apply(s.books, op))
    case AddFundraiserOp(u, rule) => AddFundraiser(s, u, rule)
    case SetRuleOp(f, rule) => SetRule(s, f, rule)
    case AllocateOp(f, m, gross, q, now) => RecordAllocation(s, f, m, gross, q, now).0
    case CreateOrderOp(f, buyer, scout, items, m) => CreateOrder(s, f, buyer, scout, items, m).0
    case MarkPaidOp(o, now) => MarkPaid(s, o, now).0
    case ResolveOp(o, m, now) => ResolveScout(s, o, m, now).0
    case CancelOp(o) => Cancel(s, o).0
  }

  function RunShop(s: Shop, ops: seq<ShopOp>): Shop {
    if ops == [] then s else ApplyShop(RunShop(s, ops[..|ops| - 1]), ops[|ops| - 1])
  }

  // ----- what a credit is -----

  lemma HalfUp(n: int, d: int)
    requires n >= 0 && d > 0
    ensures var r := RoundHalfAway(n, d);
            && (r >= 1 <==> 2 * n >= d)
            && forall g: nat :: r <= g <==> 2 * n < d * (2 * g + 1)
  {
    var r := RoundHalfAway(n, d);
    RoundsToNearest(n, d);
    assert 2 * n - 2 * (r * d) < d && 2 * n - 2 * (r * d) >= -d;
    if r >= 1 {
      MulMonotone(1, r, d);
    } else {
      MulMonotone(r, 0, d);
    }
    forall g: nat
      ensures r <= g <==> 2 * n < d * (2 * g + 1)
    {
      assert d * (2 * g + 1) == 2 * (g * d) + d;
      if r <= g {
        MulMonotone(r, g, d);
      } else {
        MulMonotone(g + 1, r, d);
        assert (g + 1) * d == g * d + d;
      }
    }
  }

  lemma NegativeShare(basisPoints: int, gross: int)
    requires basisPoints < 0 < gross
    ensures gross * basisPoints < 0 && RoundHalfAway(gross * basisPoints, 10_000) <= 0
  {
    MulMonotone(1, gross, -basisPoints);
    assert gross * -basisPoints == -(gross * basisPoints);
  }

  /**
   A percentage of a gross amount, in hundredths of a percent, is credited to the nearest cent, half a cent upwards; it is
   refused when that is no cent at all or more than the gross.
   */
  lemma PercentageCredit(basisPoints: int, gross: Cents, quantity: Option<int>)
    requires gross > 0
    ensures var r := CreditFor(Percentage(basisPoints), gross, quantity);
            && (r.Ok? ==> -10_000 <= 2 * (gross * basisPoints - r.value * 10_000) < 10_000)
            && (r.Ok? <==> 10_000 <= 2 * (gross * basisPoints) < 10_000 * (2 * gross + 1))
  {
    hide RoundHalfAway;
    RoundsToNearest(gross * basisPoints, 10_000);
    if basisPoints >= 0 {
      assert gross * basisPoints >= 0 by { MulMonotone(0, gross, basisPoints); }
      HalfUp(gross * basisPoints, 10_000);
    } else {
      NegativeShare(basisPoints, gross);
    }
  }

  /** A fixed amount is credited for each item, if there are any and it is not more than the gross. */
  lemma FixedCredit(cents: Cents, gross: Cents, quantity: Option<int>)
    ensures var r := CreditFor(FixedPerItem(cents), gross, quantity);
            && (r.Ok? <==> quantity.Some? && quantity.value > 0 && 0 < quantity.value * cents <= gross)
            && (r.Ok? ==> r.value == quantity.value * cents)
  {
  }

  /** A new order is as it was asked for, at its exact total, and waits for payment. */
  lemma OrderedAsAsked(s: Shop, f: FundraiserId, buyer: string, scout: string, items: seq<Item>, member: Option<MemberId>)
    ensures var (s', r) := CreateOrder(s, f, buyer, scout, items, member);
            && (r.Ok? <==> TrimSpace(buyer) != "" && TrimSpace(scout) != "" && ItemsOk(items) && f < |s.fundraisers|)
            && (r.Err? ==> s' == s)
            && (r.Ok? ==>
                  && s'.books == s.books && s'.fundraisers == s.fundraisers && s'.allocations == s.allocations
                  && |s'.orders| == |s.orders| + 1 && s'.orders[..|s.orders|] == s.orders && r.value == |s.orders|
                  && s'.orders[r.value].fundraiser == f && s'.orders[r.value].items == items
                  && s'.orders[r.value].member == member && s'.orders[r.value].total == Sum(LineTotals(items))
                  && s'.orders[r.value].status == AwaitingPayment && s'.orders[r.value].allocation.None?)
  {
    hide Sum, TrimSpace;
  }
}
