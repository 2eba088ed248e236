/**
 * The Cart model (src/models/Cart.js) and the line algebra of the cart
 * handlers (src/controllers/cartController.js): lines keyed by
 * (product, variantId), set/remove on update, add-up on merge.
 */
module Carts {
  import opened Wrappers
  import opened Seqs

  datatype LineKey = LineKey(product: nat, variantId: nat)

  datatype CartLine = CartLine(product: nat, variantId: nat, quantity: int, price: int) {
    function Key(): LineKey { LineKey(product, variantId) }
  }

  /** A cart belongs to a user or to a guest session; `totalAmount` is derived from the items. */
  datatype Cart = Cart(id: nat, user: Option<nat>, sessionId: Option<string>, items: seq<CartLine>, totalAmount: int)

  /** The schema's line bound: quantity is at least 1. */
  predicate LineValid(l: CartLine) { l.quantity >= 1 }

  predicate LinesValid(items: seq<CartLine>) {
    forall i :: 0 <= i < |items| ==> LineValid(items[i])
  }

  /** No two lines share a (product, variantId) key. */
  predicate KeysUnique(items: seq<CartLine>) {
    forall i, j :: 0 <= i < j < |items| ==> items[i].Key() != items[j].Key()
  }

  /** `price * quantity` summed over the lines. */
  function Total(items: seq<CartLine>): int {
    if |items| == 0 then 0 else items[0].price * items[0].quantity + Total(items[1..])
  }

  /** Appending a line raises the total by exactly its price times its quantity. */
  lemma {:induction false} TotalAppend(items: seq<CartLine>, l: CartLine)
    ensures Total(items + [l]) == Total(items) + l.price * l.quantity
  {
    if |items| > 0 {
      assert (items + [l])[1..] == items[1..] + [l];
      TotalAppend(items[1..], l);
    }
  }

  /** The total of a concatenation is the sum of the totals. */
  lemma {:induction false} TotalConcat(a: seq<CartLine>, b: seq<CartLine>)
    ensures Total(a + b) == Total(a) + Total(b)
  {
    if |a| > 0 {
      assert (a + b)[1..] == a[1..] + b;
      TotalConcat(a[1..], b);
    } else {
      assert a + b == b;
    }
  }

  /**
   * `calculateTotal()`: stores the sum of price times quantity in
   * `totalAmount` and returns that same value.
   */
  function CalculateTotal(c: Cart): (r: (Cart, int))
    ensures r.0.totalAmount == r.1
    ensures c.items == [] ==> r.1 == 0
    ensures forall l: CartLine :: Total(c.items + [l]) == r.1 + l.price * l.quantity
    ensures r.0.(totalAmount := c.totalAmount) == c
  {
    forall l: CartLine ensures Total(c.items + [l]) == Total(c.items) + l.price * l.quantity {
      TotalAppend(c.items, l);
    }
    var t := Total(c.items);
    (c.(totalAmount := t), t)
  }

  /** Index of the line with key `k` (`items.findIndex`); `|items|` when there is none. */
  function FindLine(items: seq<CartLine>, k: LineKey): (r: nat)
    ensures r <= |items|
    ensures r < |items| ==> items[r].Key() == k
    ensures forall j :: 0 <= j < r ==> items[j].Key() != k
  {
    if |items| == 0 then 0
    else if items[0].Key() == k then 0
    else 1 + FindLine(items[1..], k)
  }

  predicate HasKey(items: seq<CartLine>, k: LineKey) {
    exists i :: 0 <= i < |items| && items[i].Key() == k
  }

  /** The lines carrying key `k`, in order. */
  function LinesWith(items: seq<CartLine>, k: LineKey): seq<CartLine> {
    if |items| == 0 then []
    else (if items[0].Key() == k then [items[0]] else []) + LinesWith(items[1..], k)
  }

  /** The quantity held under key `k`, summed over every line carrying it. */
  function QtyOf(items: seq<CartLine>, k: LineKey): int {
    if |items| == 0 then 0
    else (if items[0].Key() == k then items[0].quantity else 0) + QtyOf(items[1..], k)
  }

  lemma {:induction false} LinesWithConcat(a: seq<CartLine>, b: seq<CartLine>, k: LineKey)
    ensures LinesWith(a + b, k) == LinesWith(a, k) + LinesWith(b, k)
  {
    if |a| > 0 {
      assert (a + b)[1..] == a[1..] + b;
      LinesWithConcat(a[1..], b, k);
    } else {
      assert a + b == b;
    }
  }

  lemma {:induction false} QtyOfConcat(a: seq<CartLine>, b: seq<CartLine>, k: LineKey)
    ensures QtyOf(a + b, k) == QtyOf(a, k) + QtyOf(b, k)
  {
    if |a| > 0 {
      assert (a + b)[1..] == a[1..] + b;
      QtyOfConcat(a[1..], b, k);
    } else {
      assert a + b == b;
    }
  }

  lemma {:induction false} LinesWithAbsent(items: seq<CartLine>, k: LineKey)
    requires forall i :: 0 <= i < |items| ==> items[i].Key() != k
    ensures LinesWith(items, k) == []
    ensures QtyOf(items, k) == 0
  {
    if |items| > 0 {
      LinesWithAbsent(items[1..], k);
    }
  }

  lemma {:induction false} LinesWithPresent(items: seq<CartLine>, k: LineKey)
    requires HasKey(items, k)
    ensures LinesWith(items, k) != []
  {
    var i :| 0 <= i < |items| && items[i].Key() == k;
    if i > 0 {
      assert items[1..][i - 1] == items[i];
      LinesWithPresent(items[1..], k);
    }
  }

  lemma HasKeyCons(items: seq<CartLine>, k: LineKey)
    requires |items| > 0
    ensures HasKey(items, k) <==> items[0].Key() == k || HasKey(items[1..], k)
  {
    if HasKey(items, k) && items[0].Key() != k {
      var j :| 0 <= j < |items| && items[j].Key() == k;
      assert items[1..][j - 1] == items[j];
    }
    if HasKey(items[1..], k) {
      var j :| 0 <= j < |items[1..]| && items[1..][j].Key() == k;
      assert items[j + 1].Key() == k;
    }
  }

  /** Splits `items` around index `i`, the shape every edit at one index has. */
  lemma SplitAt(items: seq<CartLine>, i: nat)
    requires i < |items|
    ensures items == items[..i] + [items[i]] + items[i + 1..]
  {
  }

  /** Replacing line `i` by `x` changes only what is filed under the keys of the two. */
  lemma {:induction false} ReplaceEffect(items: seq<CartLine>, i: nat, x: CartLine, k: LineKey)
    requires i < |items|
    ensures LinesWith(items[i := x], k) ==
      LinesWith(items[..i], k) + LinesWith([x], k) + LinesWith(items[i + 1..], k)
    ensures LinesWith(items, k) ==
      LinesWith(items[..i], k) + LinesWith([items[i]], k) + LinesWith(items[i + 1..], k)
    ensures QtyOf(items[i := x], k) == QtyOf(items, k) - QtyOf([items[i]], k) + QtyOf([x], k)
  {
    SplitAt(items, i);
    assert items[i := x] == items[..i] + [x] + items[i + 1..];
    LinesWithConcat(items[..i] + [x], items[i + 1..], k);
    LinesWithConcat(items[..i], [x], k);
    LinesWithConcat(items[..i] + [items[i]], items[i + 1..], k);
    LinesWithConcat(items[..i], [items[i]], k);
    QtyOfConcat(items[..i] + [x], items[i + 1..], k);
    QtyOfConcat(items[..i], [x], k);
    QtyOfConcat(items[..i] + [items[i]], items[i + 1..], k);
    QtyOfConcat(items[..i], [items[i]], k);
  }

  /** Removing line `i` drops it from the lines filed under its key and nothing else. */
  lemma {:induction false} RemoveEffect(items: seq<CartLine>, i: nat, k: LineKey)
    requires i < |items|
    ensures LinesWith(RemoveAt(items, i), k) == LinesWith(items[..i], k) + LinesWith(items[i + 1..], k)
    ensures LinesWith(items, k) ==
      LinesWith(items[..i], k) + LinesWith([items[i]], k) + LinesWith(items[i + 1..], k)
  {
    SplitAt(items, i);
    LinesWithConcat(items[..i], items[i + 1..], k);
    LinesWithConcat(items[..i] + [items[i]], items[i + 1..], k);
    LinesWithConcat(items[..i], [items[i]], k);
  }

  /** The outcome of setting one line: the new items, or a schema failure on save. */
  datatype SetOutcome = Saved(items: seq<CartLine>) | QuantityBelowOne

  /**
   * The line edit of `updateCart` (cartController.js:87-109): an existing key
   * is removed at quantity 0 and otherwise gets the new quantity (replaced,
   * not added) and the current price; a new key is appended only for a
   * positive quantity. A negative quantity written onto an existing line
   * fails the `min: 1` bound when the cart is saved.
   */
  function SetLine(items: seq<CartLine>, k: LineKey, quantity: int, price: int): (r: SetOutcome)
    ensures r.QuantityBelowOne? <==> HasKey(items, k) && quantity < 0
  {
    var i := FindLine(items, k);
    if i < |items| then
      if quantity == 0 then Saved(RemoveAt(items, i))
      else if quantity < 0 then QuantityBelowOne
      else Saved(items[i := items[i].(quantity := quantity, price := price)])
    else if quantity > 0 then Saved(items + [CartLine(k.product, k.variantId, quantity, price)])
    else Saved(items)
  }

  /**
   * What `updateCart` promises about the lines: under the edited key there is
   * exactly one line with the requested quantity and current price when the
   * quantity is positive and none otherwise; every other key keeps its lines;
   * keys stay unique.
   */
  lemma SetLineSpec(items: seq<CartLine>, k: LineKey, quantity: int, price: int)
    requires KeysUnique(items)
    requires SetLine(items, k, quantity, price).Saved?
    ensures var r := SetLine(items, k, quantity, price).items;
      && KeysUnique(r)
      && LinesWith(r, k) == (if quantity > 0 then [CartLine(k.product, k.variantId, quantity, price)] else [])
      && (forall k' :: k' != k ==> LinesWith(r, k') == LinesWith(items, k'))
  {
    var i := FindLine(items, k);
    var r := SetLine(items, k, quantity, price).items;
    if i < |items| {
      forall j | 0 <= j < |items| && j != i ensures items[j].Key() != k {
      }
      LinesWithAbsent(items[..i], k);
      LinesWithAbsent(items[i + 1..], k);
      if quantity == 0 {
        forall k' ensures LinesWith(r, k') == LinesWith(items, k') || k' == k {
          RemoveEffect(items, i, k');
        }
        RemoveEffect(items, i, k);
      } else {
        var x := items[i].(quantity := quantity, price := price);
        forall k' ensures LinesWith(r, k') == LinesWith(items, k') || k' == k {
          ReplaceEffect(items, i, x, k');
        }
        ReplaceEffect(items, i, x, k);
        assert forall j :: 0 <= j < |r| ==> r[j].Key() == items[j].Key();
      }
    } else if quantity > 0 {
      AppendNewLine(items, CartLine(k.product, k.variantId, quantity, price));
    } else {
      LinesWithAbsent(items, k);
    }
  }

  /** Appending a line with a fresh key gives that key exactly this line and leaves the others alone. */
  lemma AppendNewLine(items: seq<CartLine>, x: CartLine)
    requires !HasKey(items, x.Key())
    ensures LinesWith(items + [x], x.Key()) == [x]
    ensures forall k' :: k' != x.Key() ==> LinesWith(items + [x], k') == LinesWith(items, k')
  {
    forall k' ensures LinesWith(items + [x], k') == LinesWith(items, k') + LinesWith([x], k') {
      LinesWithConcat(items, [x], k');
    }
    forall k' | k' != x.Key() ensures LinesWith([x], k') == [] {
      assert [x][1..] == [];
    }
    assert LinesWith([x], x.Key()) == [x] + LinesWith([x][1..], x.Key());
    assert [x][1..] == [];
    LinesWithAbsent(items, x.Key());
  }

  /**
   * One guest line merged into the user's lines (cartController.js:190-200):
   * a shared key adds the guest quantity to the existing line (keeping its
   * price); a new key appends the guest line.
   */
  function AddLine(items: seq<CartLine>, g: CartLine): (r: seq<CartLine>)
    ensures |items| <= |r| <= |items| + 1
    ensures forall i :: 0 <= i < |items| ==> r[i].Key() == items[i].Key() && r[i].price == items[i].price
    ensures |r| == |items| + 1 <==> !HasKey(items, g.Key())
    ensures |r| == |items| + 1 ==> r[|items|] == g
  {
    var i := FindLine(items, g.Key());
    if i < |items| then items[i := items[i].(quantity := items[i].quantity + g.quantity)]
    else items + [g]
  }

  lemma AddLineQty(items: seq<CartLine>, g: CartLine, k: LineKey)
    ensures QtyOf(AddLine(items, g), k) == QtyOf(items, k) + (if g.Key() == k then g.quantity else 0)
  {
    var i := FindLine(items, g.Key());
    if i < |items| {
      ReplaceEffect(items, i, items[i].(quantity := items[i].quantity + g.quantity), k);
    } else {
      QtyOfConcat(items, [g], k);
    }
  }

  /** The whole merge loop: every guest line folded in, in order. */
  function MergeLines(items: seq<CartLine>, guest: seq<CartLine>): seq<CartLine>
    decreases |guest|
  {
    if |guest| == 0 then items else MergeLines(AddLine(items, guest[0]), guest[1..])
  }

  /**
   * What merging promises: the user's lines stay in place with their prices,
   * keys stay unique, a key is present iff it was in either cart, and every
   * key's quantity is the user's plus the guest's.
   */
  lemma {:induction false} MergeLinesSpec(items: seq<CartLine>, guest: seq<CartLine>)
    requires KeysUnique(items)
    ensures var r := MergeLines(items, guest);
      && |r| >= |items|
      && (forall i :: 0 <= i < |items| ==> r[i].Key() == items[i].Key() && r[i].price == items[i].price)
      && KeysUnique(r)
      && (forall k :: HasKey(r, k) <==> HasKey(items, k) || HasKey(guest, k))
      && (forall k :: QtyOf(r, k) == QtyOf(items, k) + QtyOf(guest, k))
    decreases |guest|
  {
    if |guest| > 0 {
      var g := guest[0];
      var next := AddLine(items, g);
      forall i, j | 0 <= i < j < |next| ensures next[i].Key() != next[j].Key() {
        if j == |items| {
          assert !HasKey(items, g.Key());
        }
      }
      MergeLinesSpec(next, guest[1..]);
      var r := MergeLines(next, guest[1..]);
      forall k ensures HasKey(r, k) <==> HasKey(items, k) || HasKey(guest, k) {
        HasKeyCons(guest, k);
        if g.Key() == k && !HasKey(items, k) {
          assert next[|items|] == g;
        }
        if HasKey(next, k) && !HasKey(items, k) {
          var j :| 0 <= j < |next| && next[j].Key() == k;
          assert j == |items|;
          assert guest[0].Key() == k;
        }
      }
      forall k ensures QtyOf(r, k) == QtyOf(items, k) + QtyOf(guest, k) {
        AddLineQty(items, g, k);
      }
    }
  }

  /** A guest line's quantity is at least 1, so merging never lowers a user quantity. */
  lemma MergeKeepsLinesValid(items: seq<CartLine>, guest: seq<CartLine>)
    requires LinesValid(items) && LinesValid(guest)
    ensures LinesValid(MergeLines(items, guest))
    decreases |guest|
  {
    if |guest| > 0 {
      var next := AddLine(items, guest[0]);
      assert LinesValid(next);
      MergeKeepsLinesValid(next, guest[1..]);
    }
  }

  /** Index of the cart owned by user `uid` (`Cart.findOne({ user })`); `|cs|` when there is none. */
  function FindCartOfUser(cs: seq<Cart>, uid: nat): (r: nat)
    ensures r <= |cs|
    ensures r < |cs| ==> cs[r].user == Some(uid)
    ensures forall j :: 0 <= j < r ==> cs[j].user != Some(uid)
  {
    if |cs| == 0 then 0
    else if cs[0].user == Some(uid) then 0
    else 1 + FindCartOfUser(cs[1..], uid)
  }

  /** Index of the cart of guest session `sid` (`Cart.findOne({ sessionId })`); `|cs|` when there is none. */
  function FindCartOfSession(cs: seq<Cart>, sid: string): (r: nat)
    ensures r <= |cs|
    ensures r < |cs| ==> cs[r].sessionId == Some(sid)
    ensures forall j :: 0 <= j < r ==> cs[j].sessionId != Some(sid)
  {
    if |cs| == 0 then 0
    else if cs[0].sessionId == Some(sid) then 0
    else 1 + FindCartOfSession(cs[1..], sid)
  }
}
