/** Marketplace orders and what each seller sees of them. */
module Sales {
  import opened Records
  import opened Money
  import opened Seqs

  type ProductId = nat

  datatype Product = Product(seller: Option<UserId>, vendor: Option<string>)

  datatype Item = Item(product: Option<ProductId>, quantity: int, price: real)

  datatype Order = Order(buyer: UserId, total: real, items: seq<Item>)

  datatype SellerView = SellerView(id: UserId, display: string)

  function Amount(i: Item): real {
    i.price * i.quantity as real
  }

  /** A price column holds two decimals; the database rounds half away from zero. */
  function Stored(price: real): real {
    if price >= 0.0 then (price * 100.0 + 0.5).Floor as real / 100.0
    else -((0.5 - price * 100.0).Floor as real / 100.0)
  }

  function SumOf(items: seq<Item>): (r: real)
    ensures items == [] ==> r == 0.0
  {
    Sum(Map(Amount, items))
  }

  function OrderOf(buyer: UserId, items: seq<Item>): Order {
    Order(buyer, Round2(SumOf(items)), Map((i: Item) => i.(price := Stored(i.price)), items))
  }

  class Shop {
    var products: map<ProductId, Product>
    var orders: seq<Order>

    /** The total is of the prices as sent; the item rows are added one by one. The sum of no items
        is not a decimal, so an empty order fails before anything is stored. */
    method CreateOrder(buyer: UserId, items: seq<Item>) returns (order: Option<Order>)
      modifies `orders
      ensures order == if items == [] then None else Some(OrderOf(buyer, items))
      ensures orders == if items == [] then old(orders) else old(orders) + [OrderOf(buyer, items)]
    {
      if items == [] {
        return None;
      }
      var total := SumOf(items);
      var rows := [];
      for k := 0 to |items|
        invariant rows == OrderOf(buyer, items).items[..k]
      {
        rows := rows + [items[k].(price := Stored(items[k].price))];
      }
      assert rows == OrderOf(buyer, items).items;
      var stored := Order(buyer, Round2(total), rows);
      orders := orders + [stored];
      return Some(stored);
    }

    /** One page of orders, as seen by a seller. */
    method ListMySales(s: SellerView, page: seq<Order>) returns (shown: seq<Order>)
      ensures shown == MySales(products, s, page)
    {
      var ownedIds := set p | p in products && Sells(s, products[p]);
      shown := [];
      for k := 0 to |page|
        invariant shown == MySales(products, s, page[..k])
      {
        assert page[..k + 1][..k] == page[..k];
        var isMine := (i: Item) => i.product.Some? && i.product.value in ownedIds;
        FilterSame(isMine, OwnedBy(products, s), page[k].items);
        var mine := Filter(isMine, page[k].items);
        if mine == [] {
          continue;
        }
        shown := shown + [Order(page[k].buyer, Round2(SumOf(mine)), mine)];
      }
      assert page[..|page|] == page;
    }
  }

  // ---- A seller's sales ----------------------------------------------------------------------

  /** By seller id, or for products without one by the vendor name. */
  predicate Sells(s: SellerView, p: Product) {
    p.seller == Some(s.id) || (p.seller.None? && p.vendor == Some(s.display))
  }

  predicate Owns(products: map<ProductId, Product>, s: SellerView, i: Item) {
    i.product.Some? && i.product.value in products && Sells(s, products[i.product.value])
  }

  function OwnedBy(products: map<ProductId, Product>, s: SellerView): Item -> bool {
    (i: Item) => Owns(products, s, i)
  }

  /** The orders of the page with an item of the seller, each cut down to the seller's items. */
  function MySales(products: map<ProductId, Product>, s: SellerView, orders: seq<Order>): seq<Order> {
    if orders == [] then []
    else
      var rest, o := MySales(products, s, orders[..|orders| - 1]), orders[|orders| - 1];
      var mine := Filter(OwnedBy(products, s), o.items);
      if mine == [] then rest else rest + [Order(o.buyer, Round2(SumOf(mine)), mine)]
  }

  /** What a seller is shown of an order: its lines of products that are the seller's by id, or, where
      the product has no seller, by the vendor's name; in their order, and their sum as total. */
  lemma SaleByColumns(products: map<ProductId, Product>, s: SellerView, o: Order)
    ensures var mine := Filter((i: Item) =>
              exists id :: i.product == Some(id) && id in products
                && (products[id].seller == Some(s.id)
                    || (products[id].seller == None && products[id].vendor == Some(s.display))), o.items);
            MySales(products, s, [o]) == if mine == [] then [] else [Order(o.buyer, Round2(SumOf(mine)), mine)]
  {
    var byColumns := (i: Item) =>
      exists id :: i.product == Some(id) && id in products
        && (products[id].seller == Some(s.id)
            || (products[id].seller == None && products[id].vendor == Some(s.display)));
    FilterSame(OwnedBy(products, s), byColumns, o.items);
    assert [o][..0] == [];
    assert MySales(products, s, [o][..0]) == [];
  }

  /** An order keeps product and quantity of each line; its prices are rounded to the paisa, half a
      paisa away from zero. */
  lemma OrderByColumns(buyer: UserId, items: seq<Item>, k: nat)
    requires k < |items|
    ensures var o := OrderOf(buyer, items);
            && |o.items| == |items| && o.buyer == buyer
            && o.items[k].product == items[k].product && o.items[k].quantity == items[k].quantity
            && WholePaise(o.items[k].price)
            && (items[k].price >= 0.0 ==> -0.005 < o.items[k].price - items[k].price <= 0.005)
            && (items[k].price < 0.0 ==> -0.005 <= o.items[k].price - items[k].price < 0.005)
  {
    StoredIsWhole(items[k].price);
  }

  function TotalOf(orders: seq<Order>): real {
    if orders == [] then 0.0 else TotalOf(orders[..|orders| - 1]) + orders[|orders| - 1].total
  }

  function SumSaleTotals(products: map<ProductId, Product>, s: SellerView, orders: seq<Order>): real {
    if orders == [] then 0.0
    else SumSaleTotals(products, s, orders[..|orders| - 1]) + SaleTotal(products, s, orders[|orders| - 1])
  }

  /** A page shows an order's sale where it would on its own, and exactly the orders with an item of
      the seller. */
  lemma {:induction false} PageIsPerOrder(products: map<ProductId, Product>, s: SellerView, page: seq<Order>)
    ensures TotalOf(MySales(products, s, page)) == SumSaleTotals(products, s, page)
    ensures |MySales(products, s, page)| == |Filter(o => HasItemOf(products, s, o), page)|
  {
    if page != [] {
      var init, o := page[..|page| - 1], page[|page| - 1];
      PageIsPerOrder(products, s, init);
      SaleOfOne(products, s, o);
      var rest, mine := MySales(products, s, init), Filter(OwnedBy(products, s), o.items);
      var sale := Order(o.buyer, Round2(SumOf(mine)), mine);
      assert (rest + [sale])[..|rest|] == rest;
    }
  }

  predicate HasItemOf(products: map<ProductId, Product>, s: SellerView, o: Order) {
    exists k :: 0 <= k < |o.items| && Owns(products, s, o.items[k])
  }

  lemma SaleOfOne(products: map<ProductId, Product>, s: SellerView, o: Order)
    ensures var mine := Filter(OwnedBy(products, s), o.items);
            && SaleTotal(products, s, o) == (if mine == [] then 0.0 else Round2(SumOf(mine)))
            && (mine != [] <==> HasItemOf(products, s, o))
  {
    var mine := Filter(OwnedBy(products, s), o.items);
    assert [o][..0] == [];
    assert MySales(products, s, [o][..0]) == [];
    if mine != [] {
      assert mine[0] in mine;
      var k :| 0 <= k < |o.items| && o.items[k] == mine[0];
      assert Owns(products, s, o.items[k]);
    }
    if k :| 0 <= k < |o.items| && Owns(products, s, o.items[k]) {
      assert o.items[k] in mine;
    }
  }

  /** What the seller is shown as the total of one order; nothing when the order is not shown. */
  function SaleTotal(products: map<ProductId, Product>, s: SellerView, o: Order): real {
    var shown := MySales(products, s, [o]);
    if shown == [] then 0.0 else shown[0].total
  }

  function SumSales(products: map<ProductId, Product>, sellers: seq<SellerView>, o: Order): real {
    if sellers == [] then 0.0
    else SumSales(products, sellers[..|sellers| - 1], o) + SaleTotal(products, sellers[|sellers| - 1], o)
  }

  /** How many of the sellers own the item. */
  function Owners(products: map<ProductId, Product>, sellers: seq<SellerView>, i: Item): nat {
    if sellers == [] then 0
    else Owners(products, sellers[..|sellers| - 1], i) + if Owns(products, sellers[|sellers| - 1], i) then 1 else 0
  }

  function Unowned(products: map<ProductId, Product>, sellers: seq<SellerView>, o: Order): real {
    SumOf(Filter(NotOwned(products, sellers), o.items))
  }

  predicate AllWholePaise(items: seq<Item>) {
    forall k :: 0 <= k < |items| ==> WholePaise(items[k].price)
  }

  // ---- Sums ----------------------------------------------------------------------------------

  lemma SumOfSnoc(items: seq<Item>, i: Item)
    ensures SumOf(items + [i]) == SumOf(items) + Amount(i)
  {
    assert Map(Amount, items + [i]) == Map(Amount, items) + [Amount(i)];
    assert (Map(Amount, items) + [Amount(i)])[..|items|] == Map(Amount, items);
  }

  lemma WholeAmount(i: Item)
    requires WholePaise(i.price)
    ensures WholePaise(Amount(i))
  {
    WholePaiseTimes(i.price, i.quantity, Amount(i));
  }

  lemma {:induction false} SumWhole(items: seq<Item>)
    requires AllWholePaise(items)
    ensures WholePaise(SumOf(items)) && Round2(SumOf(items)) == SumOf(items)
  {
    if items == [] {
      assert SumOf(items) == 0.0;
      assert WholePaise(0.0);
    } else {
      var init, last := items[..|items| - 1], items[|items| - 1];
      SumWhole(init);
      assert items == init + [last];
      SumOfSnoc(init, last);
      WholeAmount(last);
      WholePaiseAdd(SumOf(init), Amount(last));
      assert SumOf(items) == SumOf(init) + Amount(last);
    }
    WholePaiseFixed(SumOf(items));
  }

  /** Whole paise are stored as they are. */
  lemma StoredWhole(price: real)
    requires WholePaise(price)
    ensures Stored(price) == price
  {
    var n := (price * 100.0).Floor;
    assert price * 100.0 == n as real;
    if price >= 0.0 {
      assert (n as real + 0.5).Floor == n;
    } else {
      assert (0.5 - n as real).Floor == -n;
    }
  }

  /** So the order row and its items agree. */
  lemma OrderTotal(buyer: UserId, items: seq<Item>)
    requires AllWholePaise(items)
    ensures OrderOf(buyer, items) == Order(buyer, SumOf(items), items)
  {
    SumWhole(items);
    forall k | 0 <= k < |items|
      ensures Stored(items[k].price) == items[k].price
    {
      StoredWhole(items[k].price);
    }
    assert Map((i: Item) => i.(price := Stored(i.price)), items) == items;
  }

  lemma SaleIsOwnItems(products: map<ProductId, Product>, s: SellerView, o: Order)
    requires AllWholePaise(o.items)
    ensures SaleTotal(products, s, o) == SumOf(Filter(OwnedBy(products, s), o.items))
  {
    var mine := Filter(OwnedBy(products, s), o.items);
    assert MySales(products, s, [o]) == if mine == [] then [] else [Order(o.buyer, Round2(SumOf(mine)), mine)] by {
      assert [o][..0] == [];
      assert MySales(products, s, [o][..0]) == [];
    }
    forall k | 0 <= k < |mine|
      ensures WholePaise(mine[k].price)
    {
      assert mine[k] in mine;
    }
    SumWhole(mine);
  }

  // ---- Conservation --------------------------------------------------------------------------

  /** k times a. */
  function Times(k: nat, a: real): real {
    if k == 0 then 0.0 else Times(k - 1, a) + a
  }

  /** What the sellers are shown, item by item. */
  function Shown(products: map<ProductId, Product>, sellers: seq<SellerView>, items: seq<Item>): real {
    if items == [] then 0.0
    else
      var last := items[|items| - 1];
      Shown(products, sellers, items[..|items| - 1]) + Times(Owners(products, sellers, last), Amount(last))
  }

  /** Every item as often as it is shown to somebody, at least once. */
  function Weighted(products: map<ProductId, Product>, sellers: seq<SellerView>, items: seq<Item>): real {
    if items == [] then 0.0
    else
      var last := items[|items| - 1];
      var k := Owners(products, sellers, last);
      Weighted(products, sellers, items[..|items| - 1]) + Times(if k == 0 then 1 else k, Amount(last))
  }

  lemma OwnersSnoc(products: map<ProductId, Product>, sellers: seq<SellerView>, s: SellerView, i: Item)
    ensures Times(Owners(products, sellers + [s], i), Amount(i))
            == Times(Owners(products, sellers, i), Amount(i)) + if Owns(products, s, i) then Amount(i) else 0.0
  {
  }

  lemma SumOfFilterSnoc(keep: Item -> bool, items: seq<Item>)
    requires items != []
    ensures var init, last := items[..|items| - 1], items[|items| - 1];
            SumOf(Filter(keep, items)) == SumOf(Filter(keep, init)) + if keep(last) then Amount(last) else 0.0
  {
    var init, last := items[..|items| - 1], items[|items| - 1];
    SumOfSnoc(Filter(keep, init), last);
  }

  lemma {:induction false} OneMoreSeller(
      products: map<ProductId, Product>, sellers: seq<SellerView>, s: SellerView, items: seq<Item>)
    ensures Shown(products, sellers + [s], items)
            == Shown(products, sellers, items) + SumOf(Filter(OwnedBy(products, s), items))
  {
    if items != [] {
      var init, last := items[..|items| - 1], items[|items| - 1];
      OneMoreSeller(products, sellers, s, init);
      SumOfFilterSnoc(OwnedBy(products, s), items);
      OwnersSnoc(products, sellers, s, last);
    }
  }

  lemma {:induction false} SalesAreShown(products: map<ProductId, Product>, sellers: seq<SellerView>, o: Order)
    requires AllWholePaise(o.items)
    ensures SumSales(products, sellers, o) == Shown(products, sellers, o.items)
  {
    if sellers == [] {
      NothingShown(products, o.items);
    } else {
      var init, s := sellers[..|sellers| - 1], sellers[|sellers| - 1];
      SalesAreShown(products, init, o);
      SaleIsOwnItems(products, s, o);
      OneMoreSeller(products, init, s, o.items);
      assert sellers == init + [s];
    }
  }

  lemma {:induction false} NothingShown(products: map<ProductId, Product>, items: seq<Item>)
    ensures Shown(products, [], items) == 0.0
  {
    if items != [] {
      NothingShown(products, items[..|items| - 1]);
    }
  }

  function NotOwned(products: map<ProductId, Product>, sellers: seq<SellerView>): Item -> bool {
    (i: Item) => Owners(products, sellers, i) == 0
  }

  lemma {:induction false} ShownAndUnowned(products: map<ProductId, Product>, sellers: seq<SellerView>, items: seq<Item>)
    ensures Shown(products, sellers, items) + SumOf(Filter(NotOwned(products, sellers), items))
            == Weighted(products, sellers, items)
  {
    if items != [] {
      ShownAndUnowned(products, sellers, items[..|items| - 1]);
      SumOfFilterSnoc(NotOwned(products, sellers), items);
      assert Times(1, Amount(items[|items| - 1])) == Amount(items[|items| - 1]);
    }
  }

  predicate NonNegative(items: seq<Item>) {
    forall k :: 0 <= k < |items| ==> Amount(items[k]) >= 0.0
  }

  predicate OwnedAtMostOnce(products: map<ProductId, Product>, sellers: seq<SellerView>, items: seq<Item>) {
    forall k :: 0 <= k < |items| ==> Owners(products, sellers, items[k]) <= 1
  }

  /** No item that costs anything is owned twice. */
  predicate PricedOnce(products: map<ProductId, Product>, sellers: seq<SellerView>, items: seq<Item>) {
    forall k :: 0 <= k < |items| && Amount(items[k]) > 0.0 ==> Owners(products, sellers, items[k]) <= 1
  }

  /** The weighted sum is the plain one when nothing is shown twice. */
  lemma {:induction false} WeightedWhenOnce(products: map<ProductId, Product>, sellers: seq<SellerView>, items: seq<Item>)
    requires OwnedAtMostOnce(products, sellers, items)
    ensures Weighted(products, sellers, items) == SumOf(items)
  {
    if items != [] {
      var init, last := items[..|items| - 1], items[|items| - 1];
      WeightedWhenOnce(products, sellers, init);
      SumOfSnoc(init, last);
      assert items == init + [last];
      assert Owners(products, sellers, last) <= 1;
      assert Times(1, Amount(last)) == Amount(last);
    }
  }

  /** With no negative amount it is never less, and more exactly when something of value is. */
  lemma {:induction false} WeightedIff(products: map<ProductId, Product>, sellers: seq<SellerView>, items: seq<Item>)
    requires NonNegative(items)
    ensures Weighted(products, sellers, items) >= SumOf(items)
    ensures Weighted(products, sellers, items) == SumOf(items) <==> PricedOnce(products, sellers, items)
  {
    if items != [] {
      var init, last := items[..|items| - 1], items[|items| - 1];
      WeightedIff(products, sellers, init);
      SumOfSnoc(init, last);
      assert items == init + [last];
      var k := Owners(products, sellers, last);
      TimesGrows(if k == 0 then 1 else k, Amount(last));
    }
  }

  lemma {:induction false} TimesGrows(k: nat, a: real)
    requires k >= 1 && a >= 0.0
    ensures Times(k, a) >= a && (Times(k, a) == a <==> k == 1 || a == 0.0)
  {
    if k >= 2 {
      TimesGrows(k - 1, a);
    }
  }

  lemma StoredIsWhole(price: real)
    ensures WholePaise(Stored(price))
  {
    var n := if price >= 0.0 then (price * 100.0 + 0.5).Floor else -(0.5 - price * 100.0).Floor;
    assert Stored(price) * 100.0 == n as real;
    assert Whole(n as real);
  }

  /** Whatever the prices sent, all sellers are shown together the stored items, each as often as it is
      owned: exactly the stored items when none is owned twice. */
  lemma SalesAreStored(products: map<ProductId, Product>, sellers: seq<SellerView>, buyer: UserId, items: seq<Item>)
    ensures var o := OrderOf(buyer, items);
            var shown := SumSales(products, sellers, o) + Unowned(products, sellers, o);
            && AllWholePaise(o.items)
            && shown == Weighted(products, sellers, o.items)
            && (OwnedAtMostOnce(products, sellers, o.items) ==> shown == SumOf(o.items))
  {
    var o := OrderOf(buyer, items);
    forall k | 0 <= k < |o.items|
      ensures WholePaise(o.items[k].price)
    {
      StoredIsWhole(items[k].price);
    }
    SalesAreShown(products, sellers, o);
    ShownAndUnowned(products, sellers, o.items);
    if OwnedAtMostOnce(products, sellers, o.items) {
      WeightedWhenOnce(products, sellers, o.items);
    }
  }

  /** For an order in whole paise, what all sellers are shown plus the unowned items is the order's
      total when no item is owned twice; with no negative amount, exactly when none that costs
      anything is. */
  lemma SalesConserve(
      products: map<ProductId, Product>, sellers: seq<SellerView>, buyer: UserId, items: seq<Item>)
    requires AllWholePaise(items)
    ensures var o := OrderOf(buyer, items);
            var shown := SumSales(products, sellers, o) + Unowned(products, sellers, o);
            && (OwnedAtMostOnce(products, sellers, items) ==> shown == o.total)
            && (NonNegative(items) ==> (shown == o.total <==> PricedOnce(products, sellers, items)))
  {
    OrderTotal(buyer, items);
    SalesAreStored(products, sellers, buyer, items);
    if NonNegative(items) {
      WeightedIff(products, sellers, items);
    }
  }

  predicate DistinctIds(sellers: seq<SellerView>) {
    forall a, b :: 0 <= a < b < |sellers| ==> sellers[a].id != sellers[b].id
  }

  /** An item whose product names its seller appears in exactly one seller's sales. */
  lemma {:induction false} NamedSellerOwnsAlone(
      products: map<ProductId, Product>, sellers: seq<SellerView>, i: Item, u: UserId)
    requires DistinctIds(sellers)
    requires i.product.Some? && i.product.value in products && products[i.product.value].seller == Some(u)
    ensures Owners(products, sellers, i) == if exists a :: 0 <= a < |sellers| && sellers[a].id == u then 1 else 0
  {
    if sellers != [] {
      var init, s := sellers[..|sellers| - 1], sellers[|sellers| - 1];
      NamedSellerOwnsAlone(products, init, i, u);
      if a :| 0 <= a < |sellers| && sellers[a].id == u {
        assert a < |init| ==> init[a].id == u;
        assert s.id == u ==> forall b :: 0 <= b < |init| ==> init[b].id != u;
      }
      if a :| 0 <= a < |init| && init[a].id == u {
        assert sellers[a].id == u;
      }
    }
  }

  /** Owners counts the sellers who own the item. */
  lemma {:induction false} OwnersCount(products: map<ProductId, Product>, sellers: seq<SellerView>, i: Item)
    ensures Owners(products, sellers, i) == 0 <==> forall a :: 0 <= a < |sellers| ==> !Owns(products, sellers[a], i)
    ensures Owners(products, sellers, i) <= 1
            <==> forall a, b :: 0 <= a < b < |sellers| ==> !Owns(products, sellers[a], i) || !Owns(products, sellers[b], i)
  {
    if sellers != [] {
      var init := sellers[..|sellers| - 1];
      OwnersCount(products, init, i);
      assert forall a :: 0 <= a < |init| ==> init[a] == sellers[a];
    }
  }

  /** The item's product, if it has no seller id, is of a vendor whose name at most one of the
      sellers goes by. */
  predicate NoNamesakes(products: map<ProductId, Product>, sellers: seq<SellerView>, i: Item) {
    i.product.Some? && i.product.value in products && products[i.product.value].seller.None? ==>
      forall a, b :: 0 <= a < b < |sellers| ==>
        products[i.product.value].vendor != Some(sellers[a].display)
        || products[i.product.value].vendor != Some(sellers[b].display)
  }

  /** An item is shown to at most one seller if and only if its product names a seller id or at most
      one seller goes by its vendor's name. */
  lemma OwnedOnceIff(products: map<ProductId, Product>, sellers: seq<SellerView>, i: Item)
    requires DistinctIds(sellers)
    ensures Owners(products, sellers, i) <= 1 <==> NoNamesakes(products, sellers, i)
  {
    OwnersCount(products, sellers, i);
  }

  /** So an order's books balance exactly when no item of it that costs anything is of a vendor with
      a namesake. */
  lemma SalesConserveIff(
      products: map<ProductId, Product>, sellers: seq<SellerView>, buyer: UserId, items: seq<Item>)
    requires AllWholePaise(items) && NonNegative(items) && DistinctIds(sellers)
    ensures var o := OrderOf(buyer, items);
            SumSales(products, sellers, o) + Unowned(products, sellers, o) == o.total
            <==> forall k :: 0 <= k < |items| && Amount(items[k]) > 0.0 ==> NoNamesakes(products, sellers, items[k])
  {
    SalesConserve(products, sellers, buyer, items);
    forall k | 0 <= k < |items|
      ensures Owners(products, sellers, items[k]) <= 1 <==> NoNamesakes(products, sellers, items[k])
    {
      OwnedOnceIff(products, sellers, items[k]);
    }
  }

  /** A product without a seller id is shown to every seller who goes by its vendor's name. */
  lemma NamesakesBothShown(products: map<ProductId, Product>, i: Item, a: SellerView, b: SellerView)
    requires i.product.Some? && i.product.value in products
    requires products[i.product.value] == Product(None, Some(a.display)) && a.display == b.display
    ensures Owners(products, [a, b], i) == 2
  {
    assert [a, b][..1] == [a] && [a][..0] == [];
    assert Owners(products, [a], i) == 1;
  }

  // ---- Beyond whole paise --------------------------------------------------------------------

  predicate Near(x: real, y: real, gap: real) {
    -gap <= x - y <= gap
  }

  function Count(i: Item): nat {
    if i.quantity >= 0 then i.quantity else -i.quantity
  }

  function Pieces(items: seq<Item>): nat {
    if items == [] then 0 else Pieces(items[..|items| - 1]) + Count(items[|items| - 1])
  }

  /** Half a paisa, n times. */
  function HalfPaise(n: nat): real {
    n as real * 0.005
  }

  lemma StoredNear(price: real)
    ensures Near(Stored(price), price, HalfPaise(1))
  {
  }

  lemma OneMoreTime(x: real, n: nat)
    ensures x * (n + 1) as real == x * n as real + x
  {
  }

  lemma {:induction false} TimesNear(x: real, y: real, n: nat)
    requires Near(x, y, HalfPaise(1))
    ensures Near(x * n as real, y * n as real, HalfPaise(n))
  {
    if n > 0 {
      TimesNear(x, y, n - 1);
      OneMoreTime(x, n - 1);
      OneMoreTime(y, n - 1);
    }
  }

  lemma NegatedTimes(x: real, q: int)
    ensures -x * (-q) as real == x * q as real
  {
    var r := q as real;
    calc {
      -x * (-q) as real;
      { assert (-q) as real == -r; }
      -x * -r;
      x * r;
    }
  }

  lemma QuantityNear(x: real, y: real, q: int)
    requires Near(x, y, HalfPaise(1))
    ensures Near(x * q as real, y * q as real, HalfPaise(if q >= 0 then q else -q))
  {
    if q >= 0 {
      TimesNear(x, y, q);
    } else {
      TimesNear(-x, -y, -q);
      NegatedTimes(x, q);
      NegatedTimes(y, q);
    }
  }

  lemma AmountNear(i: Item, price: real)
    requires Near(price, i.price, HalfPaise(1))
    ensures Near(Amount(i.(price := price)), Amount(i), HalfPaise(Count(i)))
  {
    QuantityNear(price, i.price, i.quantity);
  }

  lemma {:induction false} LinesNear(buyer: UserId, items: seq<Item>)
    ensures Near(SumOf(OrderOf(buyer, items).items), SumOf(items), HalfPaise(Pieces(items)))
  {
    if items != [] {
      var init, last := items[..|items| - 1], items[|items| - 1];
      LinesNear(buyer, init);
      StoredNear(last.price);
      AmountNear(last, Stored(last.price));
      assert items == init + [last];
      assert OrderOf(buyer, items).items == OrderOf(buyer, init).items + [last.(price := Stored(last.price))];
      SumOfSnoc(init, last);
      SumOfSnoc(OrderOf(buyer, init).items, last.(price := Stored(last.price)));
    }
  }

  /** Whatever the prices, the order's total is within half a paisa of its stored items, and half a
      paisa more for each piece. */
  lemma OrderTotalNear(buyer: UserId, items: seq<Item>)
    ensures var o := OrderOf(buyer, items);
            Near(o.total, SumOf(o.items), HalfPaise(Pieces(items) + 1))
  {
    LinesNear(buyer, items);
  }

  /** And so are the books of an order without namesakes. */
  lemma SalesConserveNear(
      products: map<ProductId, Product>, sellers: seq<SellerView>, buyer: UserId, items: seq<Item>)
    requires OwnedAtMostOnce(products, sellers, OrderOf(buyer, items).items)
    ensures var o := OrderOf(buyer, items);
            Near(SumSales(products, sellers, o) + Unowned(products, sellers, o), o.total,
                 HalfPaise(Pieces(items) + 1))
  {
    OrderTotalNear(buyer, items);
    SalesAreStored(products, sellers, buyer, items);
  }

  /** They balance exactly when the sum of the prices as sent rounds to the sum as stored. */
  lemma SalesConserveFineIff(
      products: map<ProductId, Product>, sellers: seq<SellerView>, buyer: UserId, items: seq<Item>)
    requires OwnedAtMostOnce(products, sellers, OrderOf(buyer, items).items)
    ensures var o := OrderOf(buyer, items);
            SumSales(products, sellers, o) + Unowned(products, sellers, o) == o.total
            <==> RoundsTo(SumOf(items), SumOf(o.items))
  {
    SalesAreStored(products, sellers, buyer, items);
    SumWhole(OrderOf(buyer, items).items);
    RoundsToIff(SumOf(items), SumOf(OrderOf(buyer, items).items));
  }

  /** So far the books can part: half a paisa a hundred times is half a rupee in the total and a whole
      one in the sale. */
  lemma HalfPaisaParts()
    ensures OrderOf(3, [HALF_PAISA]).total == 0.5
    ensures SaleTotal(map[1 := Product(Some(7), None)], SellerView(7, "x"), OrderOf(3, [HALF_PAISA])) == 1.0
  {
    var products := map[1 := Product(Some(7), None)];
    HalfPaisaOrder();
    FilterAll(OwnedBy(products, SellerView(7, "x")), [ONE_PAISA]);
    SumOfOne(ONE_PAISA);
    assert WholePaise(0.01) by { assert Whole(1.0); }
    SaleIsOwnItems(products, SellerView(7, "x"), OrderOf(3, [HALF_PAISA]));
  }

  const HALF_PAISA := Item(Some(1), 100, 0.005)
  const ONE_PAISA := Item(Some(1), 100, 0.01)

  lemma HalfPaisaOrder()
    ensures OrderOf(3, [HALF_PAISA]) == Order(3, 0.5, [ONE_PAISA])
  {
    SumOfOne(HALF_PAISA);
    assert WholePaise(0.5) by { assert Whole(50.0); }
    WholePaiseFixed(0.5);
    assert Stored(0.005) == 0.01;
    assert OrderOf(3, [HALF_PAISA]).items == [ONE_PAISA];
  }

  lemma SumOfOne(i: Item)
    ensures SumOf([i]) == Amount(i)
  {
    SumOfSnoc([], i);
    assert [] + [i] == [i];
  }
}
