/** The cart state machine: line items keyed by product id plus a running
    total that every action adjusts incrementally instead of recomputing.
    Prices and quantities are integers so that the total is exact. */
module CartReducer {
  import opened Common

  datatype CartItem = CartItem(id: string, name: string, price: int, quantity: int, image: Option<string>)

  datatype CartState = CartState(items: seq<CartItem>, total: int)

  datatype Action =
    | AddItem(payload: CartItem)
    | RemoveItem(id: string)
    | UpdateQuantity(id: string, quantity: int)
    | ClearCart
    | Hydrate(snapshot: CartState)

  const EmptyCart := CartState([], 0)

  // ---------------------------------------------------------------------
  // The invariant the running total is meant to keep
  // ---------------------------------------------------------------------

  function LineAmount(item: CartItem): int {
    item.price * item.quantity
  }

  /** What moving a line to quantity q adds to the total: price × (q − quantity). */
  function AmountChange(item: CartItem, q: int): int {
    item.price * (q - item.quantity)
  }

  /** Σ price × quantity over the line items. */
  function Sum(items: seq<CartItem>): int {
    if items == [] then 0 else LineAmount(items[0]) + Sum(items[1..])
  }

  /** Σ quantity: the number shown on the header's cart badge. */
  function ItemCount(items: seq<CartItem>): (r: int)
    ensures (forall i :: 0 <= i < |items| ==> items[i].quantity >= 0) ==> r >= 0
    ensures (forall i :: 0 <= i < |items| ==> items[i].quantity >= 1) ==> r >= |items|
  {
    if items == [] then 0 else items[0].quantity + ItemCount(items[1..])
  }

  predicate UniqueIds(items: seq<CartItem>) {
    forall i, j :: 0 <= i < j < |items| ==> items[i].id != items[j].id
  }

  predicate Consistent(s: CartState) {
    UniqueIds(s.items) && s.total == Sum(s.items)
  }

  lemma {:induction false} SumAppend(a: seq<CartItem>, b: seq<CartItem>)
    ensures Sum(a + b) == Sum(a) + Sum(b)
    decreases |a|
  {
    if a == [] {
      assert a + b == b;
    } else {
      assert (a + b)[1..] == a[1..] + b;
      SumAppend(a[1..], b);
    }
  }

  lemma SumAround(items: seq<CartItem>, k: nat)
    requires k < |items|
    ensures Sum(items) == Sum(items[..k]) + LineAmount(items[k]) + Sum(items[k + 1..])
  {
    assert items == items[..k] + ([items[k]] + items[k + 1..]);
    SumAppend(items[..k], [items[k]] + items[k + 1..]);
    assert ([items[k]] + items[k + 1..])[1..] == items[k + 1..];
  }

  /** Replacing one line changes the sum by exactly that line's difference. */
  lemma SumReplace(items: seq<CartItem>, k: nat, x: CartItem)
    requires k < |items|
    ensures Sum(items[k := x]) == Sum(items) - LineAmount(items[k]) + LineAmount(x)
  {
    var u := items[k := x];
    SumAround(items, k);
    SumAround(u, k);
    assert u[..k] == items[..k] && u[k + 1..] == items[k + 1..];
  }

  lemma SumRemove(items: seq<CartItem>, k: nat)
    requires k < |items|
    ensures Sum(items[..k] + items[k + 1..]) == Sum(items) - LineAmount(items[k])
  {
    SumAround(items, k);
    SumAppend(items[..k], items[k + 1..]);
  }

  // ---------------------------------------------------------------------
  // The array operations the reducer is built from
  // ---------------------------------------------------------------------

  /** `items.find(item => item.id === id)`, as the index of the first match. */
  function Find(items: seq<CartItem>, id: string): (r: Option<nat>)
    ensures r.Some? ==> r.value < |items| && items[r.value].id == id
    ensures r.Some? ==> forall j :: 0 <= j < r.value ==> items[j].id != id
    ensures r.None? <==> forall j :: 0 <= j < |items| ==> items[j].id != id
  {
    if items == [] then None
    else if items[0].id == id then Some(0)
    else match Find(items[1..], id)
      case None => None
      case Some(k) => Some(k + 1)
  }

  /** The `map` of ADD_ITEM: every line with this id gets one more unit. */
  function IncrementWhere(items: seq<CartItem>, id: string): (r: seq<CartItem>)
    ensures |r| == |items|
    ensures forall i :: 0 <= i < |r| ==>
      r[i] == if items[i].id == id then items[i].(quantity := items[i].quantity + 1) else items[i]
  {
    if items == [] then []
    else
      [if items[0].id == id then items[0].(quantity := items[0].quantity + 1) else items[0]]
      + IncrementWhere(items[1..], id)
  }

  /** The `map` of UPDATE_QUANTITY: every line with this id gets quantity q. */
  function SetQuantityWhere(items: seq<CartItem>, id: string, q: int): (r: seq<CartItem>)
    ensures |r| == |items|
    ensures forall i :: 0 <= i < |r| ==>
      r[i] == if items[i].id == id then items[i].(quantity := q) else items[i]
  {
    if items == [] then []
    else
      [if items[0].id == id then items[0].(quantity := q) else items[0]]
      + SetQuantityWhere(items[1..], id, q)
  }

  /** The `filter` of REMOVE_ITEM: keeps the lines with another id, in order. */
  function RemoveWhere(items: seq<CartItem>, id: string): (r: seq<CartItem>)
    ensures |r| <= |items|
    ensures forall i :: 0 <= i < |r| ==> r[i].id != id
    ensures forall x :: x in r <==> x in items && x.id != id
    ensures IsSubsequence(r, items)
  {
    if items == [] then []
    else
      var rest := RemoveWhere(items[1..], id);
      assert forall x :: x in items <==> x == items[0] || x in items[1..];
      if items[0].id == id then
        assert rest != [] ==> rest[0] != items[0];
        rest
      else
        assert ([items[0]] + rest)[1..] == rest;
        [items[0]] + rest
  }

  lemma {:induction false} RemoveWhereAppend(a: seq<CartItem>, b: seq<CartItem>, id: string)
    ensures RemoveWhere(a + b, id) == RemoveWhere(a, id) + RemoveWhere(b, id)
    decreases |a|
  {
    if a == [] {
      assert a + b == b;
    } else {
      assert (a + b)[1..] == a[1..] + b;
      RemoveWhereAppend(a[1..], b, id);
    }
  }

  lemma {:induction false} RemoveWhereAbsent(items: seq<CartItem>, id: string)
    requires forall j :: 0 <= j < |items| ==> items[j].id != id
    ensures RemoveWhere(items, id) == items
    decreases |items|
  {
    if items != [] {
      RemoveWhereAbsent(items[1..], id);
    }
  }

  /** With unique ids, the filter drops exactly the k-th line. */
  lemma RemoveWhereAt(items: seq<CartItem>, id: string, k: nat)
    requires UniqueIds(items) && k < |items| && items[k].id == id
    ensures RemoveWhere(items, id) == items[..k] + items[k + 1..]
  {
    var before, after := items[..k], items[k + 1..];
    assert items == before + ([items[k]] + after);
    assert forall j :: 0 <= j < |before| ==> before[j].id != id by {
      forall j | 0 <= j < |before| ensures before[j].id != id {
        assert before[j] == items[j];
      }
    }
    assert forall j :: 0 <= j < |after| ==> after[j].id != id by {
      forall j | 0 <= j < |after| ensures after[j].id != id {
        assert after[j] == items[k + 1 + j];
      }
    }
    RemoveWhereAppend(before, [items[k]] + after, id);
    RemoveWhereAppend([items[k]], after, id);
    RemoveWhereAbsent(before, id);
    RemoveWhereAbsent(after, id);
    assert RemoveWhere([items[k]], id) == [];
  }

  /** With unique ids, the line holding an id is the one find returns. */
  lemma FindUnique(items: seq<CartItem>, id: string, k: nat)
    requires UniqueIds(items) && k < |items| && items[k].id == id
    ensures Find(items, id) == Some(k)
  {
    assert forall j :: 0 <= j < |items| && j != k ==> items[j].id != id;
  }

  // ---------------------------------------------------------------------
  // The reducer
  // ---------------------------------------------------------------------

  /** The corrected reducer: ADD_ITEM on a present id charges the price of the
      line it increments. ReduceAsWritten below is the one the source has, and
      the one the provider runs. */
  function Reduce(s: CartState, a: Action): CartState {
    match a
    case AddItem(p) =>
      (match Find(s.items, p.id)
       case Some(k) => CartState(IncrementWhere(s.items, p.id), s.total + s.items[k].price)
       case None => CartState(s.items + [p.(quantity := 1)], s.total + p.price))
    case RemoveItem(id) =>
      (match Find(s.items, id)
       case None => s
       case Some(k) => CartState(RemoveWhere(s.items, id), s.total - LineAmount(s.items[k])))
    case UpdateQuantity(id, q) =>
      (match Find(s.items, id)
       case None => s
       case Some(k) =>
         CartState(SetQuantityWhere(s.items, id, q), s.total + AmountChange(s.items[k], q)))
    case ClearCart => EmptyCart
    case Hydrate(snapshot) => snapshot
  }

  /** The reducer as the source writes it: ADD_ITEM on a present id adds the
      payload's price, while the line it increments keeps its own price. */
  function ReduceAsWritten(s: CartState, a: Action): (r: CartState)
    ensures a.AddItem? ==> r.total == s.total + a.payload.price
    ensures (a.RemoveItem? || a.UpdateQuantity?) && Find(s.items, a.id).None? ==> r == s
    ensures a.ClearCart? ==> r == EmptyCart
  {
    if a.AddItem? && Find(s.items, a.payload.id).Some? then
      CartState(IncrementWhere(s.items, a.payload.id), s.total + a.payload.price)
    else
      Reduce(s, a)
  }

  /** The wrapper that intercepts HYDRATE before the reducer proper. */
  function ReduceWithHydrate(s: CartState, a: Action): (r: CartState)
    ensures a.Hydrate? ==> r == a.snapshot
    ensures r == ReduceAsWritten(s, a)
  {
    if a.Hydrate? then a.snapshot else ReduceAsWritten(s, a)
  }

  // ---------------------------------------------------------------------
  // What each action does
  // ---------------------------------------------------------------------

  /** ADD_ITEM for a present id bumps that one line by one unit and leaves
      every other line as it was. */
  lemma AddPresent(s: CartState, p: CartItem, k: nat)
    requires UniqueIds(s.items) && Find(s.items, p.id) == Some(k)
    ensures var bumped := s.items[k := s.items[k].(quantity := s.items[k].quantity + 1)];
      && ReduceAsWritten(s, AddItem(p)) == CartState(bumped, s.total + p.price)
      && Reduce(s, AddItem(p)) == CartState(bumped, s.total + s.items[k].price)
  {
    var bumped := s.items[k := s.items[k].(quantity := s.items[k].quantity + 1)];
    var r := IncrementWhere(s.items, p.id);
    assert forall i :: 0 <= i < |r| ==> r[i] == bumped[i];
    assert r == bumped;
  }

  /** ADD_ITEM for a new id appends one line with quantity 1, whatever the
      payload's quantity, and adds the payload's price. */
  lemma AddNew(s: CartState, p: CartItem)
    requires Find(s.items, p.id).None?
    ensures var r := ReduceAsWritten(s, AddItem(p));
      && r == Reduce(s, AddItem(p))
      && |r.items| == |s.items| + 1 && r.items[..|s.items|] == s.items
      && r.items[|s.items|] == p.(quantity := 1)
      && r.total == s.total + p.price
  {
    var r := Reduce(s, AddItem(p));
    assert r.items[..|s.items|] == s.items;
  }

  /** REMOVE_ITEM for an absent id returns the state unchanged. */
  lemma RemoveAbsent(s: CartState, id: string)
    requires forall j :: 0 <= j < |s.items| ==> s.items[j].id != id
    ensures ReduceAsWritten(s, RemoveItem(id)) == s
  {
  }

  /** REMOVE_ITEM for a present id drops that line, keeps the others in their
      order and takes its amount off the total. */
  lemma RemovePresent(s: CartState, id: string, k: nat)
    requires UniqueIds(s.items) && k < |s.items| && s.items[k].id == id
    ensures ReduceAsWritten(s, RemoveItem(id))
         == CartState(s.items[..k] + s.items[k + 1..], s.total - LineAmount(s.items[k]))
  {
    FindUnique(s.items, id, k);
    RemoveWhereAt(s.items, id, k);
  }

  /** UPDATE_QUANTITY for an absent id is a no-op. */
  lemma UpdateAbsent(s: CartState, id: string, q: int)
    requires forall j :: 0 <= j < |s.items| ==> s.items[j].id != id
    ensures ReduceAsWritten(s, UpdateQuantity(id, q)) == s
  {
  }

  /** With unique ids, the `map` of UPDATE_QUANTITY changes the k-th line only. */
  lemma SetQuantityWhereAt(items: seq<CartItem>, id: string, q: int, k: nat)
    requires UniqueIds(items) && k < |items| && items[k].id == id
    ensures SetQuantityWhere(items, id, q) == items[k := items[k].(quantity := q)]
  {
    var r, u := SetQuantityWhere(items, id, q), items[k := items[k].(quantity := q)];
    assert forall i :: 0 <= i < |r| ==> r[i] == u[i];
  }

  lemma UpdateFound(s: CartState, id: string, q: int, k: nat)
    requires Find(s.items, id) == Some(k)
    ensures ReduceAsWritten(s, UpdateQuantity(id, q))
         == CartState(SetQuantityWhere(s.items, id, q), s.total + AmountChange(s.items[k], q))
  {
  }

  /** UPDATE_QUANTITY for a present id sets that line's quantity, changes no
      other line and moves the total by price × (new − old). */
  lemma UpdatePresent(s: CartState, id: string, q: int, k: nat)
    requires UniqueIds(s.items) && k < |s.items| && s.items[k].id == id
    ensures ReduceAsWritten(s, UpdateQuantity(id, q))
         == CartState(s.items[k := s.items[k].(quantity := q)],
                      s.total + AmountChange(s.items[k], q))
  {
    FindUnique(s.items, id, k);
    SetQuantityWhereAt(s.items, id, q, k);
    UpdateFound(s, id, q, k);
  }

  /** CLEAR_CART empties the cart; HYDRATE replaces the state with its payload. */
  lemma ClearAndHydrate(s: CartState, snapshot: CartState)
    ensures ReduceAsWritten(s, ClearCart) == CartState([], 0)
    ensures ReduceWithHydrate(s, Hydrate(snapshot)) == snapshot
  {
  }

  // ---------------------------------------------------------------------
  // The invariant
  // ---------------------------------------------------------------------

  lemma AppendKeepsUnique(items: seq<CartItem>, x: CartItem)
    requires UniqueIds(items)
    requires forall j :: 0 <= j < |items| ==> items[j].id != x.id
    ensures UniqueIds(items + [x])
  {
  }

  /** Changing a line's quantity changes its amount by price × the change. */
  lemma LineAmountChange(item: CartItem, q: int)
    ensures LineAmount(item.(quantity := q)) == LineAmount(item) + AmountChange(item, q)
  {
    assert item.price * q == item.price * item.quantity + item.price * (q - item.quantity);
  }

  /** Lines that keep their ids keep them unique. */
  lemma SameIdsKeepUnique(a: seq<CartItem>, b: seq<CartItem>)
    requires UniqueIds(a) && |a| == |b|
    requires forall i :: 0 <= i < |a| ==> a[i].id == b[i].id
    ensures UniqueIds(b)
  {
  }

  lemma RemoveAtKeepsUnique(items: seq<CartItem>, k: nat)
    requires UniqueIds(items) && k < |items|
    ensures UniqueIds(items[..k] + items[k + 1..])
  {
    var r := items[..k] + items[k + 1..];
    forall i, j | 0 <= i < j < |r| ensures r[i].id != r[j].id {
      var i', j' := if i < k then i else i + 1, if j < k then j else j + 1;
      assert r[i] == items[i'] && r[j] == items[j'];
    }
  }

  /** Setting line k to quantity q, with the total moved by price × the
      change, keeps a consistent cart consistent. */
  lemma SetLineKeepsConsistency(s: CartState, k: nat, q: int)
    requires Consistent(s) && k < |s.items|
    ensures var x := s.items[k].(quantity := q);
      Consistent(CartState(s.items[k := x], s.total + AmountChange(s.items[k], q)))
  {
    var x := s.items[k].(quantity := q);
    SumReplace(s.items, k, x);
    LineAmountChange(s.items[k], q);
    SameIdsKeepUnique(s.items, s.items[k := x]);
  }

  lemma AddKeepsConsistency(s: CartState, p: CartItem)
    requires Consistent(s)
    ensures Consistent(Reduce(s, AddItem(p)))
  {
    match Find(s.items, p.id) {
      case Some(k) =>
        AddPresent(s, p, k);
        SetLineKeepsConsistency(s, k, s.items[k].quantity + 1);
      case None =>
        AppendKeepsUnique(s.items, p.(quantity := 1));
        SumAppend(s.items, [p.(quantity := 1)]);
    }
  }

  lemma RemoveKeepsConsistency(s: CartState, id: string)
    requires Consistent(s)
    ensures Consistent(Reduce(s, RemoveItem(id)))
  {
    match Find(s.items, id) {
      case None =>
      case Some(k) =>
        RemovePresent(s, id, k);
        SumRemove(s.items, k);
        RemoveAtKeepsUnique(s.items, k);
    }
  }

  lemma UpdateKeepsConsistency(s: CartState, id: string, q: int)
    requires Consistent(s)
    ensures Consistent(Reduce(s, UpdateQuantity(id, q)))
  {
    match Find(s.items, id) {
      case None =>
      case Some(k) =>
        UpdatePresent(s, id, q, k);
        SetLineKeepsConsistency(s, k, q);
    }
  }

  /** From a consistent state, every action other than HYDRATE keeps ids
      unique and the running total equal to Σ price × quantity. */
  lemma ReducePreservesConsistency(s: CartState, a: Action)
    requires Consistent(s) && !a.Hydrate?
    ensures Consistent(Reduce(s, a))
  {
    match a {
      case AddItem(p) => AddKeepsConsistency(s, p);
      case RemoveItem(id) => RemoveKeepsConsistency(s, id);
      case UpdateQuantity(id, q) => UpdateKeepsConsistency(s, id, q);
      case ClearCart =>
    }
  }

  /** HYDRATE yields a consistent cart exactly when the snapshot is one. */
  lemma HydrateConsistentIff(s: CartState, snapshot: CartState)
    ensures Consistent(ReduceWithHydrate(s, Hydrate(snapshot))) <==> Consistent(snapshot)
    ensures Consistent(ReduceAsWritten(s, Hydrate(snapshot))) <==> Consistent(snapshot)
  {
  }

  // ---------------------------------------------------------------------
  // The source's ADD_ITEM against the corrected one
  // ---------------------------------------------------------------------

  /** ADD_ITEM on a present id whose incoming price differs from the line's. */
  predicate Repriced(s: CartState, a: Action) {
    a.AddItem? && Find(s.items, a.payload.id).Some?
    && s.items[Find(s.items, a.payload.id).value].price != a.payload.price
  }

  /** The source's reducer and the corrected one agree on every action that
      does not re-add a product at a new price. */
  lemma AsWrittenAgreesUnlessRepriced(s: CartState, a: Action)
    requires !Repriced(s, a)
    ensures ReduceAsWritten(s, a) == Reduce(s, a)
  {
  }

  /** The source's reducer loses the invariant: a line for "p1" at 100 is
      re-added while the product is on sale at 80, so the line still says
      2 × 100 = 200 while the total says 180. */
  lemma RepricedAddBreaksTotal()
    ensures var s := CartState([CartItem("p1", "Vela", 100, 1, None)], 100);
      var r := ReduceAsWritten(s, AddItem(CartItem("p1", "Vela", 80, 1, None)));
      && Consistent(s)
      && r.items == [CartItem("p1", "Vela", 100, 2, None)]
      && r.total == 180 && Sum(r.items) == 200
      && !Consistent(r)
  {
    var s := CartState([CartItem("p1", "Vela", 100, 1, None)], 100);
    var p := CartItem("p1", "Vela", 80, 1, None);
    assert Find(s.items, "p1") == Some(0);
    AddPresent(s, p, 0);
    var r := ReduceAsWritten(s, AddItem(p));
    assert r.items == [CartItem("p1", "Vela", 100, 2, None)];
    assert Sum(r.items) == 200;
  }

  /** The scenario of an empty cart, two adds of the same product and a
      removal, run through the reducer the provider installs. */
  lemma AddTwiceThenRemove()
    ensures var p := CartItem("p1", "Vela", 100, 1, None);
      var s1 := ReduceWithHydrate(EmptyCart, AddItem(p));
      var s2 := ReduceWithHydrate(s1, AddItem(p));
      && s1 == CartState([p], 100)
      && s2 == CartState([p.(quantity := 2)], 200)
      && ReduceWithHydrate(s2, RemoveItem("p1")) == EmptyCart
  {
    var p := CartItem("p1", "Vela", 100, 1, None);
    var s1 := ReduceWithHydrate(EmptyCart, AddItem(p));
    assert s1 == CartState([p], 100);
    assert Find(s1.items, "p1") == Some(0);
    AddPresent(s1, p, 0);
    var s2 := ReduceWithHydrate(s1, AddItem(p));
    assert s2 == CartState([p.(quantity := 2)], 200);
    RemovePresent(s2, "p1", 0);
  }
}
