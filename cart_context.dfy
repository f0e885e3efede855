/** The cart provider: the command layer the views call (add, remove, update,
    clear), the one-time hydration from the browser's storage, and the write
    of the whole cart back to storage after every change once hydration is
    done. Storage holds an already-parsed value; JSON text is not modelled. */
module CartContext {
  import opened Common
  import opened CartReducer

  // ---------------------------------------------------------------------
  // The command layer
  // ---------------------------------------------------------------------

  datatype Command =
    | Add(item: CartItem)
    | Remove(id: string)
    | SetQuantity(id: string, quantity: int)
    | Clear

  /** The action a command dispatches in a given state, if any: removal and
      quantity updates look the id up first and do nothing for an unknown id,
      and a quantity of 0 is turned into a removal. */
  function Dispatched(s: CartState, c: Command): (r: Option<Action>)
    ensures (c.Remove? || c.SetQuantity?) ==> (r.Some? <==> Find(s.items, c.id).Some?)
    ensures c.SetQuantity? && r.Some? ==> (r.value.RemoveItem? <==> c.quantity == 0)
    ensures c.Add? ==> r == Some(AddItem(c.item.(quantity := 1)))
    ensures c.Remove? && r.Some? ==> r == Some(RemoveItem(c.id))
    ensures c.SetQuantity? && r.Some? && c.quantity != 0 ==> r == Some(UpdateQuantity(c.id, c.quantity))
    ensures c.Clear? ==> r == Some(ClearCart)
  {
    match c
    case Add(item) => Some(AddItem(item.(quantity := 1)))
    case Remove(id) => if Find(s.items, id).Some? then Some(RemoveItem(id)) else None
    case SetQuantity(id, q) =>
      if Find(s.items, id).None? then None
      else if q == 0 then Some(RemoveItem(id))
      else Some(UpdateQuantity(id, q))
    case Clear => Some(ClearCart)
  }

  /** The cart after a command, through the reducer the provider installs. */
  function Step(s: CartState, c: Command): CartState {
    match Dispatched(s, c)
    case None => s
    case Some(a) => ReduceAsWritten(s, a)
  }

  /** The cart after a command, had the provider installed the corrected reducer. */
  function IntendedStep(s: CartState, c: Command): CartState {
    match Dispatched(s, c)
    case None => s
    case Some(a) => Reduce(s, a)
  }

  /** Setting a present line's quantity to 0 is exactly removing it: the line
      goes, the others keep their order and the total drops by its amount. */
  lemma ZeroQuantityRemovesLine(s: CartState, k: nat)
    requires UniqueIds(s.items) && k < |s.items|
    ensures var r := CartState(s.items[..k] + s.items[k + 1..], s.total - LineAmount(s.items[k]));
      && Step(s, SetQuantity(s.items[k].id, 0)) == r
      && Step(s, Remove(s.items[k].id)) == r
  {
    RemovePresent(s, s.items[k].id, k);
  }

  /** Removing or updating an id that is not in the cart dispatches nothing. */
  lemma UnknownIdDispatchesNothing(s: CartState, id: string, q: int)
    requires forall j :: 0 <= j < |s.items| ==> s.items[j].id != id
    ensures Dispatched(s, Remove(id)).None? && Dispatched(s, SetQuantity(id, q)).None?
    ensures Step(s, Remove(id)) == s && Step(s, SetQuantity(id, q)) == s
  {
  }

  /** Every command keeps a consistent cart consistent, except re-adding a
      product already in the cart at a price other than its line's. */
  lemma StepPreservesConsistency(s: CartState, c: Command)
    requires Consistent(s)
    requires c.Add? ==> !Repriced(s, AddItem(c.item.(quantity := 1)))
    ensures Consistent(Step(s, c))
  {
    match Dispatched(s, c) {
      case None =>
      case Some(a) =>
        AsWrittenAgreesUnlessRepriced(s, a);
        ReducePreservesConsistency(s, a);
    }
  }

  /** With the corrected reducer, every command keeps a consistent cart
      consistent. */
  lemma IntendedStepPreservesConsistency(s: CartState, c: Command)
    requires Consistent(s)
    ensures Consistent(IntendedStep(s, c))
  {
    match Dispatched(s, c) {
      case None =>
      case Some(a) => ReducePreservesConsistency(s, a);
    }
  }

  /** `addItem` of a product whose price changed since its line was added
      leaves the cart inconsistent: 2 units at 100 with a total of 180. */
  lemma RepricedAddItemBreaksCart()
    ensures var s := CartState([CartItem("p1", "Vela", 100, 1, None)], 100);
      var r := Step(s, Add(CartItem("p1", "Vela", 80, 1, None)));
      && Consistent(s) && r.total == 180 && Sum(r.items) == 200 && !Consistent(r)
  {
    var s := CartState([CartItem("p1", "Vela", 100, 1, None)], 100);
    var p := CartItem("p1", "Vela", 80, 1, None);
    assert Step(s, Add(p)) == ReduceAsWritten(s, AddItem(p));
    RepricedAddBreaksTotal();
  }

  predicate PositiveQuantities(items: seq<CartItem>) {
    forall i :: 0 <= i < |items| ==> items[i].quantity >= 1
  }

  /** Commands issued with a non-negative quantity, as the cart view's
      buttons issue them, never leave a line with a quantity below 1. */
  lemma StepKeepsQuantitiesPositive(s: CartState, c: Command)
    requires PositiveQuantities(s.items)
    requires c.SetQuantity? ==> c.quantity >= 0
    ensures PositiveQuantities(Step(s, c).items)
  {
    match Dispatched(s, c) {
      case None =>
      case Some(a) =>
        match a {
          case AddItem(p) =>
            if Find(s.items, p.id).None? {
              assert Step(s, c).items == s.items + [p.(quantity := 1)];
            }
          case RemoveItem(id) =>
            var r := Step(s, c).items;
            forall i | 0 <= i < |r| ensures r[i].quantity >= 1 {
              assert r[i] in s.items;
            }
          case UpdateQuantity(id, q) =>
          case ClearCart =>
          case Hydrate(_) =>
        }
    }
  }

  lemma {:induction false} ItemCountAppend(a: seq<CartItem>, b: seq<CartItem>)
    ensures ItemCount(a + b) == ItemCount(a) + ItemCount(b)
    decreases |a|
  {
    if a == [] {
      assert a + b == b;
    } else {
      assert (a + b)[1..] == a[1..] + b;
      ItemCountAppend(a[1..], b);
    }
  }

  lemma ItemCountBump(items: seq<CartItem>, k: nat)
    requires k < |items|
    ensures ItemCount(items[k := items[k].(quantity := items[k].quantity + 1)]) == ItemCount(items) + 1
  {
    var u := items[k := items[k].(quantity := items[k].quantity + 1)];
    assert items == items[..k] + ([items[k]] + items[k + 1..]);
    assert u == u[..k] + ([u[k]] + u[k + 1..]);
    assert u[..k] == items[..k] && u[k + 1..] == items[k + 1..];
    ItemCountAppend(items[..k], [items[k]] + items[k + 1..]);
    ItemCountAppend(u[..k], [u[k]] + u[k + 1..]);
    assert ([items[k]] + items[k + 1..])[1..] == items[k + 1..];
    assert ([u[k]] + u[k + 1..])[1..] == u[k + 1..];
  }

  /** The map of ADD_ITEM on a present id raises Σ quantity by one. */
  lemma IncrementCount(items: seq<CartItem>, id: string, k: nat)
    requires UniqueIds(items) && k < |items| && items[k].id == id
    ensures ItemCount(IncrementWhere(items, id)) == ItemCount(items) + 1
  {
    var r, u := IncrementWhere(items, id), items[k := items[k].(quantity := items[k].quantity + 1)];
    assert forall i :: 0 <= i < |r| ==> r[i] == u[i];
    assert r == u;
    ItemCountBump(items, k);
  }

  lemma AddNewCount(s: CartState, p: CartItem)
    requires Find(s.items, p.id).None? && p.quantity == 1
    ensures ItemCount(ReduceAsWritten(s, AddItem(p)).items) == ItemCount(s.items) + 1
  {
    assert ReduceAsWritten(s, AddItem(p)).items == s.items + [p];
    ItemCountAppend(s.items, [p]);
    assert ItemCount([p]) == 1 by {
      assert [p][1..] == [];
    }
  }

  /** Adding a product raises the header badge, Σ quantity, by exactly one. */
  lemma AddRaisesItemCountByOne(s: CartState, item: CartItem)
    requires UniqueIds(s.items)
    ensures ItemCount(Step(s, Add(item)).items) == ItemCount(s.items) + 1
  {
    var p := item.(quantity := 1);
    assert Step(s, Add(item)) == ReduceAsWritten(s, AddItem(p));
    match Find(s.items, p.id) {
      case Some(k) =>
        assert Step(s, Add(item)).items == IncrementWhere(s.items, p.id);
        IncrementCount(s.items, p.id, k);
      case None =>
        AddNewCount(s, p);
    }
  }

  // ---------------------------------------------------------------------
  // The browser's storage under the key 'cart'
  // ---------------------------------------------------------------------

  /** A parsed JSON value: a falsy one (null, false, 0, "") or an object
      whose `items` and `total` may be missing. */
  datatype StoredValue =
    | Falsy
    | Object(items: Option<seq<CartItem>>, total: Option<int>)

  datatype Storage =
    | Absent        // no entry, or the empty string
    | Unparseable   // JSON.parse throws
    | Parsed(value: StoredValue)

  /** What the persistence effect writes for a cart. */
  function Snapshot(s: CartState): Storage {
    Parsed(Object(Some(s.items), Some(s.total)))
  }

  /** The snapshot the hydration effect accepts: one that parses, is truthy,
      and has both `items` and `total`. */
  function Restore(stored: Storage): Option<CartState> {
    match stored
    case Parsed(Object(Some(items), Some(total))) => Some(CartState(items, total))
    case _ => None
  }

  /** Restoring gives back a cart exactly when storage holds that cart's snapshot. */
  lemma RestoreInvertsSnapshot(s: CartState, stored: Storage)
    ensures Restore(stored) == Some(s) <==> stored == Snapshot(s)
  {
  }

  // ---------------------------------------------------------------------
  // The provider
  // ---------------------------------------------------------------------

  class CartProvider {
    var state: CartState
    var hydrated: bool
    var storage: Storage

    /** Once hydrated, storage always holds the current cart. */
    ghost predicate Valid()
      reads this
    {
      hydrated ==> storage == Snapshot(state)
    }

    constructor (stored: Storage)
      ensures Valid() && state == EmptyCart && !hydrated && storage == stored
    {
      state := EmptyCart;
      hydrated := false;
      storage := stored;
    }

    /** The persistence effect: writes the whole cart, but only after hydration. */
    method Persist()
      modifies this`storage
      ensures storage == if hydrated then Snapshot(state) else old(storage)
      ensures Valid()
    {
      if hydrated {
        storage := Snapshot(state);
      }
    }

    /** `dispatch` through the installed reducer, followed by the persistence
        effect it triggers. */
    method Dispatch(a: Action)
      requires Valid()
      modifies this`state, this`storage
      ensures state == ReduceWithHydrate(old(state), a)
      ensures storage == if hydrated then Snapshot(state) else old(storage)
      ensures Valid()
    {
      state := ReduceWithHydrate(state, a);
      Persist();
    }

    /** The mount effect: applies a stored snapshot if it is acceptable,
        otherwise keeps the cart as it is, then marks the provider hydrated;
        the persistence effect then writes the resulting cart. */
    method Hydrate()
      requires Valid() && !hydrated
      modifies this
      ensures hydrated && Valid()
      ensures state == match Restore(old(storage)) {
        case Some(snapshot) => snapshot
        case None => old(state)
      }
    {
      match Restore(storage) {
        case Some(snapshot) => Dispatch(CartReducer.Hydrate(snapshot));
        case None =>
      }
      hydrated := true;
      Persist();
    }

    method AddItem(item: CartItem)
      requires Valid()
      modifies this`state, this`storage
      ensures Valid() && state == Step(old(state), Add(item))
      ensures !hydrated ==> storage == old(storage)
    {
      Dispatch(CartReducer.AddItem(item.(quantity := 1)));
    }

    method RemoveItem(id: string)
      requires Valid()
      modifies this`state, this`storage
      ensures Valid() && state == Step(old(state), Remove(id))
      ensures !hydrated ==> storage == old(storage)
    {
      if Find(state.items, id).Some? {
        Dispatch(CartReducer.RemoveItem(id));
      }
    }

    method UpdateQuantity(id: string, quantity: int)
      requires Valid()
      modifies this`state, this`storage
      ensures Valid() && state == Step(old(state), SetQuantity(id, quantity))
      ensures !hydrated ==> storage == old(storage)
    {
      if Find(state.items, id).Some? {
        if quantity == 0 {
          RemoveItem(id);
        } else {
          Dispatch(CartReducer.UpdateQuantity(id, quantity));
        }
      }
    }

    method ClearCart()
      requires Valid()
      modifies this`state, this`storage
      ensures Valid() && state == Step(old(state), Clear)
      ensures !hydrated ==> storage == old(storage)
    {
      Dispatch(CartReducer.ClearCart);
    }
  }

  /** A session: hydrate from what the last session stored, add one product
      twice and remove it; storage ends holding the empty cart. */
  method Session(stored: Storage)
    requires Restore(stored) == Some(EmptyCart)
  {
    var provider := new CartProvider(stored);
    provider.Hydrate();
    assert provider.state == EmptyCart;
    var p := CartItem("p1", "Vela", 100, 7, None);
    provider.AddItem(p);
    assert provider.state == CartState([p.(quantity := 1)], 100);
    provider.AddItem(p);
    AddPresent(CartState([p.(quantity := 1)], 100), p.(quantity := 1), 0);
    assert provider.state == CartState([p.(quantity := 2)], 200);
    provider.RemoveItem("p1");
    RemovePresent(CartState([p.(quantity := 2)], 200), "p1", 0);
    assert provider.state == EmptyCart;
    assert provider.storage == Snapshot(EmptyCart);
  }
}
