/**
 * The admin handlers of src/controllers/adminController.js: the dashboard
 * statistics folds, the ban toggle and the user update. The status update
 * of the admin routes lives with the other order handlers.
 */
module Admin {
  import opened Wrappers
  import opened Seqs
  import opened Users
  import opened Orders
  import opened Stores

  // ---------------------------------------------------------------------
  // Date range
  // ---------------------------------------------------------------------

  /** The instants the presets are computed from; date arithmetic is not modelled. */
  datatype Calendar = Calendar(now: int, weekAgo: int, monthStart: int, yearStart: int)

  datatype RangeError = CustomRangeIncomplete

  /**
   * The `range` switch of `getStats` (adminController.js:8-40): week, month,
   * year and custom, any other value (or none) meaning month. A custom range
   * needs both ends (400 otherwise); every preset ends now.
   */
  function StatsRange(range: string, start: Option<int>, end: Option<int>, cal: Calendar): (r: Result<(int, int), RangeError>)
    ensures r.Err? <==> range == "custom" && (start.None? || end.None?)
    ensures range == "custom" && r.Ok? ==> r.value == (start.value, end.value)
    ensures range != "custom" ==> r.Ok? && r.value.1 == cal.now
    ensures range != "custom" && range != "week" && range != "year" ==> r.value.0 == cal.monthStart
  {
    if range == "week" then Ok((cal.weekAgo, cal.now))
    else if range == "year" then Ok((cal.yearStart, cal.now))
    else if range == "custom" then
      if start.None? || end.None? then Err(CustomRangeIncomplete) else Ok((start.value, end.value))
    else Ok((cal.monthStart, cal.now))
  }

  /** `Order.find({ createdAt: { $gte: lo, $lte: hi } })`, in store order. */
  function InRange(os: seq<Order>, lo: int, hi: int): (r: seq<Order>)
    ensures |r| <= |os|
    ensures forall o :: o in r <==> o in os && lo <= o.createdAt <= hi
    ensures forall o :: multiset(r)[o] == (if lo <= o.createdAt <= hi then multiset(os)[o] else 0)
  {
    if |os| == 0 then []
    else
      assert os == [os[0]] + os[1..];
      if lo <= os[0].createdAt <= hi then [os[0]] + InRange(os[1..], lo, hi)
      else InRange(os[1..], lo, hi)
  }

  // ---------------------------------------------------------------------
  // Revenue and status breakdown
  // ---------------------------------------------------------------------

  predicate TotalsNonNegative(os: seq<Order>) {
    forall j :: 0 <= j < |os| ==> os[j].totalAmount >= 0
  }

  /** `orders.reduce((sum, o) => sum + o.totalAmount, 0)`. */
  function Revenue(os: seq<Order>): int {
    if |os| == 0 then 0 else os[0].totalAmount + Revenue(os[1..])
  }

  /** Revenue adds up over a split of the orders. */
  lemma {:induction false} RevenueConcat(a: seq<Order>, b: seq<Order>)
    ensures Revenue(a + b) == Revenue(a) + Revenue(b)
  {
    if |a| == 0 {
      assert a + b == b;
    } else {
      assert (a + b)[1..] == a[1..] + b;
      RevenueConcat(a[1..], b);
    }
  }

  /** Revenue of a range with no negative totals is at least each order's total. */
  lemma {:induction false} RevenueCoversEachOrder(os: seq<Order>, i: nat)
    requires i < |os|
    requires TotalsNonNegative(os)
    ensures Revenue(os) >= os[i].totalAmount
  {
    if i > 0 {
      RevenueCoversEachOrder(os[1..], i - 1);
    } else {
      RevenueNonNegative(os[1..]);
    }
  }

  lemma {:induction false} RevenueNonNegative(os: seq<Order>)
    requires TotalsNonNegative(os)
    ensures Revenue(os) >= 0
  {
    if |os| > 0 {
      RevenueNonNegative(os[1..]);
    }
  }

  /** How many orders are in status `s`: the independent reference for the breakdown. */
  function CountStatus(os: seq<Order>, s: string): nat {
    if |os| == 0 then 0 else (if os[0].currentStatus == s then 1 else 0) + CountStatus(os[1..], s)
  }

  datatype StatusBreakdown = StatusBreakdown(pending: nat, confirmed: nat, shipping: nat, delivered: nat, cancelled: nat)
  {
    function Sum(): nat { pending + confirmed + shipping + delivered + cancelled }
  }

  /** One order counted into the breakdown; a status outside the five adds nothing to the five counters. */
  function CountInto(b: StatusBreakdown, s: string): (r: StatusBreakdown)
    ensures r.Sum() == b.Sum() + (if s in ValidStatuses then 1 else 0)
    ensures r.pending == b.pending + (if s == "pending" then 1 else 0)
    ensures r.confirmed == b.confirmed + (if s == "confirmed" then 1 else 0)
    ensures r.shipping == b.shipping + (if s == "shipping" then 1 else 0)
    ensures r.delivered == b.delivered + (if s == "delivered" then 1 else 0)
    ensures r.cancelled == b.cancelled + (if s == "cancelled" then 1 else 0)
  {
    if s == "pending" then b.(pending := b.pending + 1)
    else if s == "confirmed" then b.(confirmed := b.confirmed + 1)
    else if s == "shipping" then b.(shipping := b.shipping + 1)
    else if s == "delivered" then b.(delivered := b.delivered + 1)
    else if s == "cancelled" then b.(cancelled := b.cancelled + 1)
    else b
  }

  /** The status loop (adminController.js:77-87), counters starting at zero; the counts do not depend on the visiting order. */
  function Breakdown(os: seq<Order>): (b: StatusBreakdown)
    ensures b.Sum() <= |os|
    ensures StatusesKnown(os) ==> b.Sum() == |os|
    decreases |os|
  {
    if |os| == 0 then StatusBreakdown(0, 0, 0, 0, 0)
    else CountInto(Breakdown(os[1..]), os[0].currentStatus)
  }

  /** The counter `Breakdown` keeps for status `s`. */
  function Counter(b: StatusBreakdown, s: string): nat {
    if s == "pending" then b.pending
    else if s == "confirmed" then b.confirmed
    else if s == "shipping" then b.shipping
    else if s == "delivered" then b.delivered
    else if s == "cancelled" then b.cancelled
    else 0
  }

  /** Each of the five counters is the number of orders in its status. */
  lemma {:induction false} BreakdownCounts(os: seq<Order>, s: string)
    requires s in ValidStatuses
    ensures Counter(Breakdown(os), s) == CountStatus(os, s)
  {
    if |os| > 0 {
      var rest, t := Breakdown(os[1..]), os[0].currentStatus;
      var step := if t == s then 1 else 0;
      calc {
        Counter(Breakdown(os), s);
        Counter(CountInto(rest, t), s);
        { CounterStep(rest, t, s); }
        Counter(rest, s) + step;
        { BreakdownCounts(os[1..], s); }
        CountStatus(os[1..], s) + step;
        CountStatus(os, s);
      }
    }
  }

  /** Counting one order moves only the counter of its own status. */
  lemma CounterStep(b: StatusBreakdown, t: string, s: string)
    requires s in ValidStatuses
    ensures Counter(CountInto(b, t), s) == Counter(b, s) + (if t == s then 1 else 0)
  {
    if s == "pending" {
    } else if s == "confirmed" {
    } else if s == "shipping" {
    } else if s == "delivered" {
    } else {
    }
  }

  // ---------------------------------------------------------------------
  // Best sellers
  // ---------------------------------------------------------------------

  /** One entry of `productSales`: quantity and revenue summed per product. */
  datatype Sale = Sale(productId: nat, productName: string, quantity: int, revenue: int)

  /** Every line of every order, order by order. */
  function AllLines(os: seq<Order>): seq<OrderLine> {
    if |os| == 0 then [] else os[0].items + AllLines(os[1..])
  }

  /** The quantity of product `pid` over the lines: the reference the tally is checked against. */
  function QtyFor(lines: seq<OrderLine>, pid: nat): int {
    if |lines| == 0 then 0 else (if lines[0].product == pid then lines[0].quantity else 0) + QtyFor(lines[1..], pid)
  }

  /** The revenue (line subtotals) of product `pid` over the lines. */
  function RevenueFor(lines: seq<OrderLine>, pid: nat): int {
    if |lines| == 0 then 0 else (if lines[0].product == pid then lines[0].subtotal else 0) + RevenueFor(lines[1..], pid)
  }

  predicate Mentions(lines: seq<OrderLine>, pid: nat) {
    exists i :: 0 <= i < |lines| && lines[i].product == pid
  }

  function FindSale(ss: seq<Sale>, pid: nat): (r: nat)
    ensures r <= |ss|
    ensures r < |ss| ==> ss[r].productId == pid
    ensures forall j :: 0 <= j < r ==> ss[j].productId != pid
  {
    if |ss| == 0 then 0
    else if ss[0].productId == pid then 0
    else 1 + FindSale(ss[1..], pid)
  }

  predicate SaleIdsUnique(ss: seq<Sale>) {
    forall i, j :: 0 <= i < j < |ss| ==> ss[i].productId != ss[j].productId
  }

  /** The tallied quantity of `pid` (0 when it has no entry). */
  function SaleQty(ss: seq<Sale>, pid: nat): int {
    var i := FindSale(ss, pid);
    if i < |ss| then ss[i].quantity else 0
  }

  function SaleRevenue(ss: seq<Sale>, pid: nat): int {
    var i := FindSale(ss, pid);
    if i < |ss| then ss[i].revenue else 0
  }

  /** One line folded into `productSales`: its product's entry grows, or a new entry is appended. */
  function AddSale(ss: seq<Sale>, l: OrderLine): (r: seq<Sale>)
    ensures |ss| <= |r| <= |ss| + 1
    ensures forall i :: 0 <= i < |ss| ==> r[i].productId == ss[i].productId
    ensures |r| == |ss| + 1 <==> FindSale(ss, l.product) == |ss|
    ensures |r| == |ss| + 1 ==> r[|ss|] == Sale(l.product, l.productName, l.quantity, l.subtotal)
  {
    var i := FindSale(ss, l.product);
    if i < |ss| then ss[i := ss[i].(quantity := ss[i].quantity + l.quantity, revenue := ss[i].revenue + l.subtotal)]
    else ss + [Sale(l.product, l.productName, l.quantity, l.subtotal)]
  }

  lemma AddSaleSpec(ss: seq<Sale>, l: OrderLine, pid: nat)
    requires SaleIdsUnique(ss)
    ensures var r := AddSale(ss, l);
      && SaleIdsUnique(r)
      && SaleQty(r, pid) == SaleQty(ss, pid) + (if l.product == pid then l.quantity else 0)
      && SaleRevenue(r, pid) == SaleRevenue(ss, pid) + (if l.product == pid then l.subtotal else 0)
      && (FindSale(r, pid) < |r| <==> FindSale(ss, pid) < |ss| || l.product == pid)
  {
    var r := AddSale(ss, l);
    var i := FindSale(ss, l.product);
    if i < |ss| {
      assert FindSale(r, pid) == FindSale(ss, pid);
    } else {
      assert FindSale(r, pid) == (if FindSale(ss, pid) < |ss| then FindSale(ss, pid) else if l.product == pid then |ss| else |r|);
    }
  }

  /** The whole `forEach` over the lines. */
  function Tally(ss: seq<Sale>, lines: seq<OrderLine>): seq<Sale>
    decreases |lines|
  {
    if |lines| == 0 then ss else Tally(AddSale(ss, lines[0]), lines[1..])
  }

  /**
   * The tally keeps one entry per product, has an entry exactly for the
   * products the lines mention, and each entry holds its product's total
   * quantity and revenue.
   */
  lemma {:induction false} TallySpec(ss: seq<Sale>, lines: seq<OrderLine>, pid: nat)
    requires SaleIdsUnique(ss)
    ensures var r := Tally(ss, lines);
      && SaleIdsUnique(r)
      && SaleQty(r, pid) == SaleQty(ss, pid) + QtyFor(lines, pid)
      && SaleRevenue(r, pid) == SaleRevenue(ss, pid) + RevenueFor(lines, pid)
      && (FindSale(r, pid) < |r| <==> FindSale(ss, pid) < |ss| || Mentions(lines, pid))
    decreases |lines|
  {
    if |lines| > 0 {
      AddSaleSpec(ss, lines[0], pid);
      TallySpec(AddSale(ss, lines[0]), lines[1..], pid);
      MentionsCons(lines, pid);
    }
  }

  /** A product is mentioned by the lines when the first line names it or the rest mention it. */
  lemma MentionsCons(lines: seq<OrderLine>, pid: nat)
    requires |lines| > 0
    ensures Mentions(lines, pid) <==> lines[0].product == pid || Mentions(lines[1..], pid)
  {
    if Mentions(lines[1..], pid) {
      var i :| 0 <= i < |lines[1..]| && lines[1..][i].product == pid;
      assert lines[i + 1].product == pid;
    }
    if Mentions(lines, pid) && lines[0].product != pid {
      var i :| 0 <= i < |lines| && lines[i].product == pid;
      assert lines[1..][i - 1].product == pid;
    }
  }

  predicate SortedDesc(ss: seq<Sale>) {
    forall i, j :: 0 <= i < j < |ss| ==> ss[i].quantity >= ss[j].quantity
  }

  /** Insert after every entry with at least the same quantity (so equal quantities keep their order). */
  function InsertByQty(x: Sale, ss: seq<Sale>): (r: seq<Sale>)
    ensures multiset(r) == multiset(ss) + multiset{x}
    ensures |r| == |ss| + 1
    ensures r[0] == x || (|ss| > 0 && r[0] == ss[0])
  {
    if |ss| == 0 then [x]
    else if ss[0].quantity >= x.quantity then
      assert ss == [ss[0]] + ss[1..];
      [ss[0]] + InsertByQty(x, ss[1..])
    else
      [x] + ss
  }

  /** Inserting into a list sorted highest first keeps it sorted. */
  lemma {:induction false} InsertKeepsSorted(x: Sale, ss: seq<Sale>)
    requires SortedDesc(ss)
    ensures SortedDesc(InsertByQty(x, ss))
  {
    if |ss| > 0 && ss[0].quantity >= x.quantity {
      var rest := InsertByQty(x, ss[1..]);
      InsertKeepsSorted(x, ss[1..]);
      assert rest[0].quantity <= ss[0].quantity;
      var r := [ss[0]] + rest;
      forall i, j | 0 <= i < j < |r| ensures r[i].quantity >= r[j].quantity {
        if i == 0 && j > 1 {
          assert rest[0].quantity >= rest[j - 1].quantity;
        }
      }
    }
  }

  /** `sort((a, b) => b.quantity - a.quantity)`: a stable sort by quantity, highest first. */
  function SortByQty(ss: seq<Sale>): (r: seq<Sale>)
    ensures multiset(r) == multiset(ss)
    ensures |r| == |ss|
    ensures SortedDesc(r)
  {
    if |ss| == 0 then []
    else
      assert ss == ss[..|ss| - 1] + [ss[|ss| - 1]];
      var sortedInit := SortByQty(ss[..|ss| - 1]);
      InsertKeepsSorted(ss[|ss| - 1], sortedInit);
      InsertByQty(ss[|ss| - 1], sortedInit)
  }

  const TopSellers: nat := 10

  /** `bestSellers` (adminController.js:54-74): tally, sort, keep the first ten. */
  function BestSellers(os: seq<Order>): (r: seq<Sale>)
    ensures |r| <= TopSellers
    ensures SortedDesc(r)
  {
    Take(SortByQty(Tally([], AllLines(os))), TopSellers)
  }

  /**
   * The best sellers are the real top ten: each entry carries its product's
   * total quantity and revenue over the orders, and a product that is sold
   * but missing from the list sold no more than any listed product, with the
   * list full.
   */
  lemma BestSellersAreTop(os: seq<Order>)
    ensures var r := BestSellers(os);
      var lines := AllLines(os);
      && SaleIdsUnique(r)
      && (forall i :: 0 <= i < |r| ==>
            Mentions(lines, r[i].productId)
            && r[i].quantity == QtyFor(lines, r[i].productId)
            && r[i].revenue == RevenueFor(lines, r[i].productId))
      && (forall pid :: Mentions(lines, pid) && (forall i :: 0 <= i < |r| ==> r[i].productId != pid) ==>
            |r| == TopSellers && forall i :: 0 <= i < |r| ==> r[i].quantity >= QtyFor(lines, pid))
  {
    var agg := Tally([], AllLines(os));
    TallyEntries(AllLines(os));
    PermutationKeepsIdsUnique(agg, SortByQty(agg));
    BestSellerTotals(os);
    forall pid | Mentions(AllLines(os), pid) && (forall i :: 0 <= i < |BestSellers(os)| ==> BestSellers(os)[i].productId != pid)
      ensures |BestSellers(os)| == TopSellers
      ensures forall i :: 0 <= i < |BestSellers(os)| ==> BestSellers(os)[i].quantity >= QtyFor(AllLines(os), pid)
    {
      UnlistedSoldNoMore(os, pid);
    }
  }

  /** Each listed entry is a sold product with its total quantity and revenue. */
  lemma BestSellerTotals(os: seq<Order>)
    ensures var r := BestSellers(os);
      var lines := AllLines(os);
      forall i :: 0 <= i < |r| ==>
        Mentions(lines, r[i].productId)
        && r[i].quantity == QtyFor(lines, r[i].productId)
        && r[i].revenue == RevenueFor(lines, r[i].productId)
  {
    var lines := AllLines(os);
    var agg := Tally([], lines);
    var sorted := SortByQty(agg);
    var r := BestSellers(os);
    TallyEntries(lines);
    forall i | 0 <= i < |r|
      ensures Mentions(lines, r[i].productId)
      ensures r[i].quantity == QtyFor(lines, r[i].productId) && r[i].revenue == RevenueFor(lines, r[i].productId)
    {
      InMultisetIsEntry(sorted[i], agg);
    }
  }

  /** A sold product left off the list sold no more than any listed one, and the list is full. */
  lemma UnlistedSoldNoMore(os: seq<Order>, pid: nat)
    requires Mentions(AllLines(os), pid)
    requires forall i :: 0 <= i < |BestSellers(os)| ==> BestSellers(os)[i].productId != pid
    ensures |BestSellers(os)| == TopSellers
    ensures forall i :: 0 <= i < |BestSellers(os)| ==> BestSellers(os)[i].quantity >= QtyFor(AllLines(os), pid)
  {
    var lines := AllLines(os);
    var agg := Tally([], lines);
    var sorted := SortByQty(agg);
    var x := TallyEntryOf(lines, pid);
    InMultisetIsEntry(x, sorted);
    var j :| 0 <= j < |sorted| && sorted[j] == x;
    assert BestSellers(os) == Take(sorted, TopSellers);
    LeftOffTheTop(sorted, TopSellers, j);
  }

  /** The tally entry of a product the lines mention, holding its total quantity. */
  lemma TallyEntryOf(lines: seq<OrderLine>, pid: nat) returns (x: Sale)
    requires Mentions(lines, pid)
    ensures x in multiset(Tally([], lines)) && x.productId == pid && x.quantity == QtyFor(lines, pid)
  {
    var agg := Tally([], lines);
    TallyEntries(lines);
    TallySpec([], lines, pid);
    x := agg[FindSale(agg, pid)];
  }

  /**
   * An entry of a list sorted highest first that is not among its first `n`
   * leaves those `n` full, each holding at least its quantity.
   */
  lemma LeftOffTheTop(sorted: seq<Sale>, n: nat, j: nat)
    requires SortedDesc(sorted) && j < |sorted|
    requires forall i :: 0 <= i < |Take(sorted, n)| ==> Take(sorted, n)[i].productId != sorted[j].productId
    ensures |Take(sorted, n)| == n
    ensures forall i :: 0 <= i < n ==> Take(sorted, n)[i].quantity >= sorted[j].quantity
  {
    var r := Take(sorted, n);
    var x := sorted[j];
    assert j >= |r| || x in r;
  }

  /** An element of a list's multiset is one of its entries. */
  lemma InMultisetIsEntry(x: Sale, ss: seq<Sale>)
    requires x in multiset(ss)
    ensures exists k :: 0 <= k < |ss| && ss[k] == x
  {
  }

  /** In a list whose product ids are unique, no entry occurs twice. */
  lemma {:induction false} UniqueOccursOnce(a: seq<Sale>, x: Sale)
    requires SaleIdsUnique(a)
    ensures multiset(a)[x] <= 1
  {
    if |a| > 0 {
      assert a == [a[0]] + a[1..];
      UniqueOccursOnce(a[1..], x);
      if a[0] == x {
        assert x !in a[1..];
      }
    }
  }

  /** An entry held at two positions occurs at least twice. */
  lemma TwiceAtTwoPositions(b: seq<Sale>, i: nat, j: nat)
    requires i < j < |b| && b[i] == b[j]
    ensures multiset(b)[b[i]] >= 2
  {
    assert b == b[..j] + b[j..];
    assert b[..j][i] == b[i];
    assert b[j..][0] == b[i];
  }

  /** Reordering a list keeps its product ids unique. */
  lemma PermutationKeepsIdsUnique(a: seq<Sale>, b: seq<Sale>)
    requires multiset(a) == multiset(b) && SaleIdsUnique(a)
    ensures SaleIdsUnique(b)
  {
    forall i, j | 0 <= i < j < |b|
      ensures b[i].productId != b[j].productId
    {
      if b[i] == b[j] {
        TwiceAtTwoPositions(b, i, j);
        UniqueOccursOnce(a, b[i]);
      } else {
        assert b[i] in multiset(a) && b[j] in multiset(a);
        InMultisetIsEntry(b[i], a);
        InMultisetIsEntry(b[j], a);
        var k1 :| 0 <= k1 < |a| && a[k1] == b[i];
        var k2 :| 0 <= k2 < |a| && a[k2] == b[j];
        assert k1 != k2;
      }
    }
  }

  /** Every tally entry is its product's entry and holds the product's totals. */
  lemma TallyEntries(lines: seq<OrderLine>)
    ensures var agg := Tally([], lines);
      && SaleIdsUnique(agg)
      && forall k :: 0 <= k < |agg| ==>
           Mentions(lines, agg[k].productId)
           && agg[k].quantity == QtyFor(lines, agg[k].productId)
           && agg[k].revenue == RevenueFor(lines, agg[k].productId)
  {
    var agg := Tally([], lines);
    TallySpec([], lines, 0);
    forall k | 0 <= k < |agg|
      ensures Mentions(lines, agg[k].productId)
      ensures agg[k].quantity == QtyFor(lines, agg[k].productId)
      ensures agg[k].revenue == RevenueFor(lines, agg[k].productId)
    {
      TallySpec([], lines, agg[k].productId);
      assert FindSale(agg, agg[k].productId) == k;
    }
  }

  // ---------------------------------------------------------------------
  // The dashboard
  // ---------------------------------------------------------------------

  /** `User.countDocuments({ role: 'customer', createdAt in [lo, hi] })`. */
  function NewCustomers(us: seq<User>, lo: int, hi: int): (n: nat)
    ensures n <= |us|
  {
    if |us| == 0 then 0
    else (if us[0].role == Customer && lo <= us[0].createdAt <= hi then 1 else 0) + NewCustomers(us[1..], lo, hi)
  }

  /** `User.countDocuments({ role: 'customer' })`. */
  function Customers(us: seq<User>): (n: nat)
    ensures n <= |us|
  {
    if |us| == 0 then 0 else (if us[0].role == Customer then 1 else 0) + Customers(us[1..])
  }

  /** New customers in a range are among all customers. */
  lemma {:induction false} NewCustomersAtMostCustomers(us: seq<User>, lo: int, hi: int)
    ensures NewCustomers(us, lo, hi) <= Customers(us)
  {
    if |us| > 0 {
      NewCustomersAtMostCustomers(us[1..], lo, hi);
    }
  }

  datatype Stats = Stats(
    totalOrders: nat,
    totalRevenue: int,
    totalUsers: nat,
    newUsers: nat,
    statusBreakdown: StatusBreakdown,
    bestSellers: seq<Sale>,
    dateRange: (int, int))

  /**
   * `getStats` (adminController.js:6-118) without the profit estimate and the
   * recent-orders list: the figures are folds over the orders created in
   * the selected range.
   */
  function GetStats(st: Store, range: string, start: Option<int>, end: Option<int>, cal: Calendar): (r: Result<Stats, RangeError>)
    ensures r.Err? <==> range == "custom" && (start.None? || end.None?)
    ensures r.Ok? ==> var os := InRange(st.orders, r.value.dateRange.0, r.value.dateRange.1);
      && StatsRange(range, start, end, cal) == Ok(r.value.dateRange)
      && r.value.totalOrders == |os|
      && r.value.totalRevenue == Revenue(os)
      && r.value.statusBreakdown == Breakdown(os)
      && r.value.bestSellers == BestSellers(os)
      && r.value.totalUsers == Customers(st.users)
      && r.value.newUsers == NewCustomers(st.users, r.value.dateRange.0, r.value.dateRange.1)
      && r.value.newUsers <= r.value.totalUsers <= |st.users|
  {
    match StatsRange(range, start, end, cal)
    case Err(e) => Err(e)
    case Ok(dates) =>
      var (lo, hi) := dates;
      var os := InRange(st.orders, lo, hi);
      NewCustomersAtMostCustomers(st.users, lo, hi);
      Ok(Stats(|os|, Revenue(os), Customers(st.users), NewCustomers(st.users, lo, hi), Breakdown(os), BestSellers(os), dates))
  }

  /**
   * The folds agree with each other: when every order has one of the five
   * statuses the breakdown adds up to the order count, each counter is the
   * number of orders in its status, and with no negative totals the revenue
   * covers every single order.
   */
  lemma FoldsConsistent(os: seq<Order>)
    ensures StatusesKnown(os) ==> Breakdown(os).Sum() == |os|
    ensures forall v :: v in ValidStatuses ==> Counter(Breakdown(os), v) == CountStatus(os, v)
    ensures TotalsNonNegative(os) ==>
      forall i :: 0 <= i < |os| ==> os[i].totalAmount <= Revenue(os)
  {
    forall v | v in ValidStatuses ensures Counter(Breakdown(os), v) == CountStatus(os, v) {
      BreakdownCounts(os, v);
    }
    if TotalsNonNegative(os) {
      forall i | 0 <= i < |os| ensures os[i].totalAmount <= Revenue(os) {
        RevenueCoversEachOrder(os, i);
      }
    }
  }

  // ---------------------------------------------------------------------
  // Users
  // ---------------------------------------------------------------------

  datatype AdminError = UserNotFound | CannotBanAdmin | EmailInUse
  {
    function Status(): int {
      if this == UserNotFound then 404 else 400
    }
  }

  /**
   * `toggleUserBan` as written (adminController.js:269-294): `isBanned` is
   * not a path of the User schema, so the assignment lives only on the
   * in-memory document. `!undefined` is `true`: the reply always says
   * banned, and nothing is stored.
   */
  function ToggleUserBanAsWritten(st: Store, id: nat): (out: (Result<bool, AdminError>, Store))
    ensures out.1 == st
    ensures out.0.Ok? ==> out.0.value
    ensures out.0.Err? <==> FindUser(st.users, id) == |st.users| || st.users[FindUser(st.users, id)].role == Admin
  {
    var i := FindUser(st.users, id);
    if i == |st.users| then (Err(UserNotFound), st)
    else if st.users[i].role == Admin then (Err(CannotBanAdmin), st)
    else (Ok(true), st)
  }

  /** As written, unbanning is impossible: a second toggle still reports a ban, and the stored user never changes. */
  lemma BanToggleNeverUnbans(st: Store, id: nat)
    requires FindUser(st.users, id) < |st.users| && st.users[FindUser(st.users, id)].role == Customer
    ensures var first := ToggleUserBanAsWritten(st, id);
      var second := ToggleUserBanAsWritten(first.1, id);
      first.0 == Ok(true) && second.0 == Ok(true) && second.1 == st
  {
  }

  /** The toggle the handler evidently means: admins refused, anyone else's stored flag flipped and reported. */
  function ToggleUserBan(st: Store, id: nat): (out: (Result<bool, AdminError>, Store))
    ensures out.0.Err? ==> out.1 == st
    ensures out.0.Err? <==> FindUser(st.users, id) == |st.users| || st.users[FindUser(st.users, id)].role == Admin
    ensures out.0.Ok? ==> var i := FindUser(st.users, id);
      && out.0.value == !st.users[i].isBanned
      && out.1 == st.(users := st.users[i := st.users[i].(isBanned := out.0.value)])
  {
    var i := FindUser(st.users, id);
    if i == |st.users| then (Err(UserNotFound), st)
    else if st.users[i].role == Admin then (Err(CannotBanAdmin), st)
    else
      var flag := !st.users[i].isBanned;
      (Ok(flag), st.(users := st.users[i := st.users[i].(isBanned := flag)]))
  }

  /** With the corrected toggle, toggling twice restores the store. */
  lemma ToggleUserBanTwice(st: Store, id: nat)
    requires ToggleUserBan(st, id).0.Ok?
    ensures ToggleUserBan(ToggleUserBan(st, id).1, id).1 == st
  {
    var i := FindUser(st.users, id);
    var st1 := ToggleUserBan(st, id).1;
    assert FindUser(st1.users, id) == i by {
      assert forall j :: 0 <= j < |st.users| ==> st1.users[j].id == st.users[j].id;
    }
    assert st1.users[i := st1.users[i].(isBanned := !st1.users[i].isBanned)] == st.users;
  }

  /** No two users share an email: what the unique index maintains. */
  predicate EmailsUnique(us: seq<User>) {
    forall i, j :: 0 <= i < j < |us| ==> us[i].email != us[j].email
  }

  /**
   * `updateUser` (adminController.js:304-339). A non-empty email different
   * from the user's own is refused when another user has it; then a
   * non-empty name or email and any supplied point balance are written.
   * `phone` is not a path of the User schema and is not stored.
   */
  function UpdateUser(st: Store, id: nat, fullName: string, email: string, loyaltyPoints: Option<int>): (out: (Result<User, AdminError>, Store))
    ensures out.0.Err? ==> out.1 == st
    ensures out.0 == Err(UserNotFound) <==> FindUser(st.users, id) == |st.users|
    ensures FindUser(st.users, id) < |st.users| ==> var u := st.users[FindUser(st.users, id)];
      (out.0 == Err(EmailInUse) <==> email != "" && email != u.email && FindUserByEmail(st.users, email) < |st.users|)
    ensures out.0.Ok? ==> var i := FindUser(st.users, id);
      var u := st.users[i];
      && out.1 == st.(users := st.users[i := out.0.value])
      && out.0.value.fullName == (if fullName != "" then fullName else u.fullName)
      && out.0.value.email == (if email != "" then email else u.email)
      && out.0.value.loyaltyPoints == (if loyaltyPoints.Some? then loyaltyPoints.value else u.loyaltyPoints)
      && out.0.value.(fullName := u.fullName, email := u.email, loyaltyPoints := u.loyaltyPoints) == u
  {
    var i := FindUser(st.users, id);
    if i == |st.users| then (Err(UserNotFound), st)
    else
      var u := st.users[i];
      if email != "" && email != u.email && FindUserByEmail(st.users, email) < |st.users| then (Err(EmailInUse), st)
      else
        var u' := u.(fullName := if fullName != "" then fullName else u.fullName,
                     email := if email != "" then email else u.email,
                     loyaltyPoints := if loyaltyPoints.Some? then loyaltyPoints.value else u.loyaltyPoints);
        (Ok(u'), st.(users := st.users[i := u']))
  }

  /** An update that succeeds keeps every user's email distinct. */
  lemma UpdateUserKeepsEmailsUnique(st: Store, id: nat, fullName: string, email: string, loyaltyPoints: Option<int>)
    requires EmailsUnique(st.users)
    ensures EmailsUnique(UpdateUser(st, id, fullName, email, loyaltyPoints).1.users)
  {
    var out := UpdateUser(st, id, fullName, email, loyaltyPoints);
    if out.0.Ok? {
      var i := FindUser(st.users, id);
      var us := out.1.users;
      assert us == st.users[i := out.0.value];
      if email != "" && email != st.users[i].email {
        forall j | 0 <= j < |st.users| ensures st.users[j].email != email {
          assert FindUserByEmail(st.users, email) == |st.users|;
        }
      }
      forall a, b | 0 <= a < b < |us| ensures us[a].email != us[b].email {
        if a != i && b != i {
          assert us[a] == st.users[a] && us[b] == st.users[b];
        }
      }
    }
  }
}
