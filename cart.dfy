/** The shopping cart of `CartContext.jsx`. Each operation is the function
    the source hands to `setCart`: it maps the previous list of lines to the
    next one. The lemmas state what each does to a cart whose ids are unique
    and whose quantities are all at least 1, and that every operation keeps
    it so. */
module Cart {
  import opened Seqs

  /** A catalogue product as the menu hands it to `addToCart`. */
  datatype Product = Product(id: string, name: string, price: int, image: string)

  /** A cart line: the product's fields spread, plus a quantity. */
  datatype Line = Line(id: string, name: string, price: int, image: string, quantity: int)

  /** The invariant the operations maintain: no id twice, no quantity below 1. */
  predicate Valid(cart: seq<Line>) {
    (forall i, j :: 0 <= i < j < |cart| ==> cart[i].id != cart[j].id)
    && (forall i :: 0 <= i < |cart| ==> cart[i].quantity >= 1)
  }

  /** `cart.find(item => item.id === id)` found something. */
  predicate HasId(cart: seq<Line>, id: string) {
    exists i :: 0 <= i < |cart| && cart[i].id == id
  }

  function Bump(l: Line, delta: int): Line {
    l.(quantity := l.quantity + delta)
  }

  /** `cart.map(item => item.id === id ? { ...item, quantity: item.quantity + delta } : item)` */
  function Adjust(cart: seq<Line>, id: string, delta: int): (r: seq<Line>)
    ensures |r| == |cart|
  {
    seq(|cart|, i requires 0 <= i < |cart| => if cart[i].id == id then Bump(cart[i], delta) else cart[i])
  }

  /** `addToCart` */
  function AddToCart(cart: seq<Line>, p: Product): seq<Line> {
    if HasId(cart, p.id) then Adjust(cart, p.id, 1)
    else cart + [Line(p.id, p.name, p.price, p.image, 1)]
  }

  /** `increaseQuantity` */
  function IncreaseQuantity(cart: seq<Line>, id: string): seq<Line> {
    Adjust(cart, id, 1)
  }

  /** `decreaseQuantity`: decrement, then drop every line whose quantity is
      no longer positive. */
  function DecreaseQuantity(cart: seq<Line>, id: string): seq<Line> {
    Filter(Adjust(cart, id, -1), (l: Line) => l.quantity > 0)
  }

  /** `removeFromCart` */
  function RemoveFromCart(cart: seq<Line>, id: string): seq<Line> {
    Filter(cart, (l: Line) => l.id != id)
  }

  /** `clearCart` */
  function ClearCart(): seq<Line> {
    []
  }

  /** `cart.reduce((sum, item) => sum + item.price * item.quantity, 0)` */
  function Total(cart: seq<Line>): int {
    if cart == [] then 0
    else Total(cart[..|cart| - 1]) + Amount(cart[|cart| - 1])
  }

  /** `item.price * item.quantity` */
  function Amount(l: Line): int {
    l.price * l.quantity
  }

  /** One more (or one fewer) unit adds (or takes off) one price. */
  lemma AmountBump(l: Line, delta: int)
    ensures Amount(Bump(l, delta)) == Amount(l) + delta * l.price
  {
  }

  /** `cart.reduce((sum, item) => sum + item.quantity, 0)`, the badge count
      of `HomePage.jsx`. */
  function TotalItems(cart: seq<Line>): int {
    if cart == [] then 0 else TotalItems(cart[..|cart| - 1]) + cart[|cart| - 1].quantity
  }

  // ---------------------------------------------------------------------
  // Sums

  /** The total of two carts laid end to end is the sum of their totals. */
  lemma {:induction false} TotalConcat(a: seq<Line>, b: seq<Line>)
    ensures Total(a + b) == Total(a) + Total(b)
    decreases |b|
  {
    if b == [] {
      assert a + b == a;
    } else {
      var ab := a + b;
      assert ab[..|ab| - 1] == a + b[..|b| - 1];
      TotalConcat(a, b[..|b| - 1]);
    }
  }

  /** Replacing one line changes the total by the difference of the two
      lines' amounts. */
  lemma TotalUpdate(cart: seq<Line>, k: nat, x: Line)
    requires k < |cart|
    ensures Total(cart[k := x]) == Total(cart) - Amount(cart[k]) + Amount(x)
  {
    var before, after := cart[..k], cart[k + 1..];
    assert cart == (before + [cart[k]]) + after;
    assert cart[k := x] == (before + [x]) + after;
    TotalConcat(before + [cart[k]], after);
    TotalConcat(before, [cart[k]]);
    TotalConcat(before + [x], after);
    TotalConcat(before, [x]);
    TotalSingle(cart[k]);
    TotalSingle(x);
  }

  /** Removing the line at `k` takes its amount off the total. */
  lemma TotalRemove(cart: seq<Line>, k: nat)
    requires k < |cart|
    ensures Total(cart[..k] + cart[k + 1..]) == Total(cart) - Amount(cart[k])
  {
    var before, after := cart[..k], cart[k + 1..];
    assert cart == (before + [cart[k]]) + after;
    TotalConcat(before + [cart[k]], after);
    TotalConcat(before, [cart[k]]);
    TotalConcat(before, after);
    TotalSingle(cart[k]);
    assert Total(before + [cart[k]]) == Total(before) + Amount(cart[k]);
  }

  lemma TotalSingle(x: Line)
    ensures Total([x]) == Amount(x)
  {
    assert [x][..0] == [];
  }

  /** In a valid cart there are at least as many items as lines. */
  lemma {:induction false} TotalItemsAtLeastLines(cart: seq<Line>)
    requires Valid(cart)
    ensures TotalItems(cart) >= |cart|
    decreases |cart|
  {
    if cart != [] {
      var init := cart[..|cart| - 1];
      assert Valid(init);
      TotalItemsAtLeastLines(init);
    }
  }

  // ---------------------------------------------------------------------
  // The operations on a valid cart

  /** In a valid cart, adjusting the line with id `cart[k].id` touches that
      line only. */
  lemma AdjustOne(cart: seq<Line>, k: nat, delta: int)
    requires Valid(cart) && k < |cart|
    ensures Adjust(cart, cart[k].id, delta) == cart[k := Bump(cart[k], delta)]
  {
  }

  /** Adjusting an id that no line has changes nothing. */
  lemma AdjustAbsent(cart: seq<Line>, id: string, delta: int)
    requires !HasId(cart, id)
    ensures Adjust(cart, id, delta) == cart
  {
  }

  /** Adding a product already in the cart raises that line's quantity by
      one, keeping its name and price; the length and every other line stay
      as they were, and the total grows by the line's price. */
  lemma AddExisting(cart: seq<Line>, p: Product, k: nat)
    requires Valid(cart) && k < |cart| && cart[k].id == p.id
    ensures AddToCart(cart, p) == cart[k := Bump(cart[k], 1)]
    ensures Total(AddToCart(cart, p)) == Total(cart) + cart[k].price
  {
    var x := Bump(cart[k], 1);
    assert HasId(cart, p.id);
    assert AddToCart(cart, p) == Adjust(cart, p.id, 1);
    AdjustOne(cart, k, 1);
    assert AddToCart(cart, p) == cart[k := x];
    TotalUpdate(cart, k, x);
    AmountBump(cart[k], 1);
  }

  /** Adding a product with a new id appends one line with quantity 1 at the
      end, and the total grows by the product's price. */
  lemma AddNew(cart: seq<Line>, p: Product)
    requires !HasId(cart, p.id)
    ensures AddToCart(cart, p) == cart + [Line(p.id, p.name, p.price, p.image, 1)]
    ensures Total(AddToCart(cart, p)) == Total(cart) + p.price
  {
    var l := Line(p.id, p.name, p.price, p.image, 1);
    assert (cart + [l])[..|cart|] == cart;
  }

  /** Adding keeps the cart valid. */
  lemma AddValid(cart: seq<Line>, p: Product)
    requires Valid(cart)
    ensures Valid(AddToCart(cart, p))
  {
    if HasId(cart, p.id) {
      var k :| 0 <= k < |cart| && cart[k].id == p.id;
      AddExisting(cart, p, k);
    }
  }

  /** Increasing raises only the line with the id, by one; an unknown id
      leaves the cart as it was. Validity is kept. */
  lemma IncreaseSpec(cart: seq<Line>, id: string)
    requires Valid(cart)
    ensures !HasId(cart, id) ==> IncreaseQuantity(cart, id) == cart
    ensures forall k :: 0 <= k < |cart| && cart[k].id == id ==>
              IncreaseQuantity(cart, id) == cart[k := Bump(cart[k], 1)]
    ensures Valid(IncreaseQuantity(cart, id))
  {
  }

  /** Decreasing in a valid cart lowers the line with the id by one, and
      removes that line (and only that line) when its quantity was 1; an
      unknown id changes nothing. Validity is kept. */
  lemma DecreaseSpec(cart: seq<Line>, id: string, k: nat)
    requires Valid(cart) && k < |cart| && cart[k].id == id
    ensures cart[k].quantity > 1 ==> DecreaseQuantity(cart, id) == cart[k := Bump(cart[k], -1)]
    ensures cart[k].quantity == 1 ==> DecreaseQuantity(cart, id) == cart[..k] + cart[k + 1..]
    ensures Total(DecreaseQuantity(cart, id)) == Total(cart) - cart[k].price
    ensures Valid(DecreaseQuantity(cart, id))
  {
    DecreaseShape(cart, id, k);
    var r := DecreaseQuantity(cart, id);
    var x := Bump(cart[k], -1);
    if cart[k].quantity > 1 {
      assert r == cart[k := x];
      TotalUpdate(cart, k, x);
      AmountBump(cart[k], -1);
      BumpValid(cart, k, -1);
    } else {
      assert r == cart[..k] + cart[k + 1..];
      TotalRemove(cart, k);
      AmountOne(cart[k]);
      CutValid(cart, k);
    }
  }

  lemma AmountOne(l: Line)
    requires l.quantity == 1
    ensures Amount(l) == l.price
  {
  }

  /** What the filter of `decreaseQuantity` leaves of a valid cart. */
  lemma DecreaseShape(cart: seq<Line>, id: string, k: nat)
    requires Valid(cart) && k < |cart| && cart[k].id == id
    ensures cart[k].quantity > 1 ==> DecreaseQuantity(cart, id) == cart[k := Bump(cart[k], -1)]
    ensures cart[k].quantity == 1 ==> DecreaseQuantity(cart, id) == cart[..k] + cart[k + 1..]
  {
    var adjusted := cart[k := Bump(cart[k], -1)];
    AdjustOne(cart, k, -1);
    var positive := (l: Line) => l.quantity > 0;
    assert DecreaseQuantity(cart, id) == Filter(adjusted, positive);
    FilterAllBut(adjusted, k, positive);
    if cart[k].quantity == 1 {
      assert adjusted[..k] == cart[..k] && adjusted[k + 1..] == cart[k + 1..];
    }
  }

  /** Changing one line's quantity, to at least 1, keeps a cart valid. */
  lemma BumpValid(cart: seq<Line>, k: nat, delta: int)
    requires Valid(cart) && k < |cart| && cart[k].quantity + delta >= 1
    ensures Valid(cart[k := Bump(cart[k], delta)])
  {
  }

  /** Cutting one line out of a valid cart leaves it valid. */
  lemma CutValid(cart: seq<Line>, k: nat)
    requires Valid(cart) && k < |cart|
    ensures Valid(cart[..k] + cart[k + 1..])
  {
    var r := cart[..k] + cart[k + 1..];
    forall i, j | 0 <= i < j < |r| ensures r[i].id != r[j].id {
      var i', j' := if i < k then i else i + 1, if j < k then j else j + 1;
      assert r[i] == cart[i'] && r[j] == cart[j'];
    }
  }

  /** Decreasing an id that no line has changes nothing. */
  lemma DecreaseAbsent(cart: seq<Line>, id: string)
    requires Valid(cart) && !HasId(cart, id)
    ensures DecreaseQuantity(cart, id) == cart
  {
    AdjustAbsent(cart, id, -1);
    FilterKeepsAll(cart, (l: Line) => l.quantity > 0);
  }

  /** Removing drops every line with the id, keeps every other line in its
      relative order, and keeps the cart valid. */
  lemma RemoveSpec(cart: seq<Line>, id: string)
    requires Valid(cart)
    ensures !HasId(RemoveFromCart(cart, id), id)
    ensures forall l :: l in cart && l.id != id ==> l in RemoveFromCart(cart, id)
    ensures IsSubsequence(RemoveFromCart(cart, id), cart)
    ensures Valid(RemoveFromCart(cart, id))
  {
    var keep := (l: Line) => l.id != id;
    var r := RemoveFromCart(cart, id);
    FilterIsSubsequence(cart, keep);
    forall l | l in cart && l.id != id ensures l in r {
      FilterMembership(cart, keep, l);
    }
    forall i | 0 <= i < |r| ensures r[i].id != id {
      FilterMembership(cart, keep, r[i]);
    }
    ValidSubsequence(r, cart);
  }

  /** In a valid cart, removing takes the line's amount off the total; an
      unknown id changes nothing. */
  lemma RemoveTotal(cart: seq<Line>, id: string)
    requires Valid(cart)
    ensures !HasId(cart, id) ==> RemoveFromCart(cart, id) == cart
    ensures forall k :: 0 <= k < |cart| && cart[k].id == id ==>
              Total(RemoveFromCart(cart, id)) == Total(cart) - Amount(cart[k])
  {
    if HasId(cart, id) {
      var k :| 0 <= k < |cart| && cart[k].id == id;
      RemoveOne(cart, id, k);
    } else {
      FilterKeepsAll(cart, (l: Line) => l.id != id);
    }
  }

  /** In a valid cart, removing the line at `k` by its id is cutting it out. */
  lemma RemoveOne(cart: seq<Line>, id: string, k: nat)
    requires Valid(cart) && k < |cart| && cart[k].id == id
    ensures RemoveFromCart(cart, id) == cart[..k] + cart[k + 1..]
    ensures Total(RemoveFromCart(cart, id)) == Total(cart) - Amount(cart[k])
  {
    FilterAllBut(cart, k, (l: Line) => l.id != id);
    TotalRemove(cart, k);
  }

  /** An order-preserving subsequence of a valid cart is valid. */
  lemma {:induction false} ValidSubsequence(a: seq<Line>, b: seq<Line>)
    requires Valid(b) && IsSubsequence(a, b)
    ensures Valid(a)
    decreases |b|
  {
    if a != [] {
      assert Valid(b[1..]);
      if a[0] == b[0] {
        ValidSubsequence(a[1..], b[1..]);
        forall j | 0 < j < |a| ensures a[0].id != a[j].id {
          SubsequenceMember(a[1..], b[1..], j - 1);
        }
      } else {
        ValidSubsequence(a, b[1..]);
      }
    }
  }

  /** Each element of a subsequence is an element of the longer sequence. */
  lemma {:induction false} SubsequenceMember<T>(a: seq<T>, b: seq<T>, j: nat)
    requires IsSubsequence(a, b) && j < |a|
    ensures a[j] in b
    decreases |b|
  {
    if a[0] == b[0] {
      if j > 0 { SubsequenceMember(a[1..], b[1..], j - 1); }
    } else {
      SubsequenceMember(a, b[1..], j);
    }
  }

  /** Clearing yields the empty cart, whose total is 0. */
  lemma ClearSpec()
    ensures ClearCart() == [] && Total(ClearCart()) == 0 && Valid(ClearCart())
  {
  }
}
