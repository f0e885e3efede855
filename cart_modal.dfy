/** The cart view: the −/+ buttons of each line, the shipping dialog that
    asks whether the order is shipped and to which postal code, and the
    WhatsApp order text composed from the cart once the dialog is confirmed. */
module CartModal {
  import opened Common
  import opened CartReducer
  import opened CartContext

  // ---------------------------------------------------------------------
  // The order text
  // ---------------------------------------------------------------------

  const Greeting := "\U{A1}Hola! Me gustar\U{ED}a hacer el siguiente pedido:\n\n"
  const ShippingLead := "Con env\U{ED}o al c\U{F3}digo postal: "
  const PickUp := "Retiro en local"

  /** `- name xquantity ($amount)` for one line item. */
  function OrderLine(item: CartItem): string {
    "- " + item.name + " x" + IntToDecimal(item.quantity) + " ($" + IntToDecimal(LineAmount(item)) + ")"
  }

  /** One text line per cart line, in cart order. */
  function OrderLines(items: seq<CartItem>): (r: seq<string>)
    ensures |r| == |items|
    ensures forall i :: 0 <= i < |items| ==> r[i] == OrderLine(items[i])
  {
    if items == [] then [] else [OrderLine(items[0])] + OrderLines(items[1..])
  }

  /** The closing line: the postal code when the order is shipped (an absent
      code prints as `undefined`), otherwise pick-up. */
  function ShippingNote(withShipping: bool, zipCode: Option<string>): string {
    if withShipping then
      ShippingLead + (match zipCode case Some(z) => z case None => "undefined")
    else
      PickUp
  }

  /** Where the pieces of a message end up: the opening and the block after it
      are a prefix, the middle piece occurs in it, and the closing is a suffix. */
  lemma Layout(opening: string, block: string, middle: string, gap: string, closing: string)
    ensures var r := ((opening + block) + (middle + gap)) + closing;
      && opening + block <= r
      && Includes(r, middle)
      && |closing| <= |r| && r[|r| - |closing|..] == closing
  {
    var r := ((opening + block) + (middle + gap)) + closing;
    assert r[|opening + block|..][..|middle|] == middle;
    assert middle <= r[|opening + block|..];
  }

  /** The message handed to WhatsApp. */
  function OrderMessage(s: CartState, withShipping: bool, zipCode: Option<string>): (r: string)
    ensures Greeting + Join(OrderLines(s.items), '\n') + "\n\n" <= r
    ensures Includes(r, "Total: $" + IntToDecimal(s.total))
    ensures var note := ShippingNote(withShipping, zipCode);
      |note| <= |r| && r[|r| - |note|..] == note
  {
    var block := Join(OrderLines(s.items), '\n') + "\n\n";
    var totalLine := "Total: $" + IntToDecimal(s.total);
    var note := ShippingNote(withShipping, zipCode);
    Layout(Greeting, block, totalLine, "\n\n", note);
    ((Greeting + block) + (totalLine + "\n\n")) + note
  }

  // Reading the amounts back out of the order text

  /** The text after the last occurrence of c, or all of s if c is absent. */
  function AfterLast(s: string, c: char): (r: string)
    ensures |r| <= |s| && c !in r
    decreases |s|
  {
    if s == [] then []
    else if s[|s| - 1] == c then []
    else AfterLast(s[..|s| - 1], c) + [s[|s| - 1]]
  }

  lemma {:induction false} AfterLastSeparator(a: string, c: char, b: string)
    requires c !in b
    ensures AfterLast(a + [c] + b, c) == b
    decreases |b|
  {
    var s := a + [c] + b;
    if b != [] {
      var b' := b[..|b| - 1];
      assert s[..|s| - 1] == a + [c] + b';
      AfterLastSeparator(a, c, b');
      assert b' + [b[|b| - 1]] == b;
    } else {
      assert s == a + [c];
    }
  }

  /** The amount of an order line: the number between its last `$` and the
      closing parenthesis. */
  function AmountOf(line: string): Option<int> {
    var t := AfterLast(line, '$');
    if |t| > 0 && t[|t| - 1] == ')' then ParseInt(t[..|t| - 1]) else None
  }

  /** Every line reads back as its price × quantity, whatever the product's
      name holds. */
  lemma LineShowsItsAmount(item: CartItem)
    ensures AmountOf(OrderLine(item)) == Some(LineAmount(item))
  {
    var amount := IntToDecimal(LineAmount(item));
    var prefix := "- " + item.name + " x" + IntToDecimal(item.quantity) + " (";
    assert OrderLine(item) == prefix + ['$'] + (amount + ")");
    assert '$' !in amount + ")" by {
      assert forall i :: 0 <= i < |amount + ")"| ==> (amount + ")")[i] != '$';
    }
    AfterLastSeparator(prefix, '$', amount + ")");
    assert (amount + ")")[..|amount|] == amount;
    IntDecimalRoundTrip(LineAmount(item));
  }

  /** The sum of the amounts printed on the lines, if they all read back. */
  function ReadAmounts(lines: seq<string>): Option<int> {
    if lines == [] then Some(0)
    else
      var first, rest := AmountOf(lines[0]), ReadAmounts(lines[1..]);
      if first.Some? && rest.Some? then Some(first.value + rest.value) else None
  }

  lemma ReadAmountsCons(line: string, rest: seq<string>, amount: int, sum: int)
    requires AmountOf(line) == Some(amount) && ReadAmounts(rest) == Some(sum)
    ensures ReadAmounts([line] + rest) == Some(amount + sum)
  {
    assert ([line] + rest)[1..] == rest;
  }

  lemma {:induction false} LinesAddUp(items: seq<CartItem>)
    ensures ReadAmounts(OrderLines(items)) == Some(Sum(items))
    decreases |items|
  {
    if items != [] {
      var line, tail := OrderLine(items[0]), OrderLines(items[1..]);
      LineShowsItsAmount(items[0]);
      LinesAddUp(items[1..]);
      ReadAmountsCons(line, tail, LineAmount(items[0]), Sum(items[1..]));
      assert OrderLines(items) == [line] + tail;
    }
  }

  predicate NamesOnOneLine(items: seq<CartItem>) {
    forall i :: 0 <= i < |items| ==> '\n' !in items[i].name
  }

  /** Cutting the item block of the message at its line breaks gives back
      one line per cart line, and for a consistent cart the amounts on those
      lines add up to the total the message states. */
  lemma ItemBlockReadsBack(s: CartState)
    requires Consistent(s) && |s.items| > 0 && NamesOnOneLine(s.items)
    ensures Split(Join(OrderLines(s.items), '\n'), '\n') == OrderLines(s.items)
    ensures ReadAmounts(Split(Join(OrderLines(s.items), '\n'), '\n')) == Some(s.total)
  {
    var lines := OrderLines(s.items);
    forall i | 0 <= i < |lines| ensures '\n' !in lines[i] {
      var item := s.items[i];
      var q, a := IntToDecimal(item.quantity), IntToDecimal(LineAmount(item));
      assert lines[i] == "- " + item.name + " x" + q + " ($" + a + ")";
      assert '\n' !in q && '\n' !in a by {
        assert forall j :: 0 <= j < |q| ==> q[j] != '\n';
        assert forall j :: 0 <= j < |a| ==> a[j] != '\n';
      }
    }
    SplitJoin(lines, '\n');
    LinesAddUp(s.items);
  }

  // ---------------------------------------------------------------------
  // The shipping dialog
  // ---------------------------------------------------------------------

  /** The city's own postal code, to which nothing is shipped. */
  const LocalZipCode := "3432"
  const LocalZipError := "No se realizan envios dentro de la ciudad. Disculpe las molestias."

  /** What the dialog hands to the order step: whether to ship, and the
      postal code, which is passed only for a shipped order. */
  datatype Confirmation = Confirmation(withShipping: bool, zipCode: Option<string>)

  class ShippingDialog {
    var withShipping: Option<bool>
    var zipCode: string
    var zipCodeError: Option<string>

    /** The error shows exactly while the local postal code is typed. */
    ghost predicate Valid()
      reads this
    {
      && (zipCodeError.Some? <==> zipCode == LocalZipCode)
      && (zipCodeError.Some? ==> zipCodeError.value == LocalZipError)
    }

    constructor ()
      ensures Valid()
      ensures withShipping.None? && zipCode == "" && zipCodeError.None?
    {
      withShipping := None;
      zipCode := "";
      zipCodeError := None;
    }

    /** "Sí, con envío" and "No, retiro en local". */
    method ChooseShipping(ship: bool)
      requires Valid()
      modifies this`withShipping
      ensures Valid() && withShipping == Some(ship)
    {
      withShipping := Some(ship);
    }

    /** The postal-code field's change handler. */
    method TypeZipCode(value: string)
      modifies this`zipCode, this`zipCodeError
      ensures Valid() && zipCode == value
    {
      zipCode := value;
      if value == LocalZipCode {
        zipCodeError := Some(LocalZipError);
      } else {
        zipCodeError := None;
      }
    }

    /** The Confirm button's `disabled` condition. */
    predicate ConfirmDisabled()
      reads this
    {
      || withShipping.None?
      || (withShipping == Some(true) && (zipCode == "" || zipCode == LocalZipCode))
    }

    /** A click on Confirm: nothing happens while the button is disabled;
        otherwise the choice goes out, with the postal code exactly when the
        order is shipped, and that code is never empty nor the local one. */
    method Confirm() returns (r: Option<Confirmation>)
      requires Valid()
      ensures r.Some? <==> !ConfirmDisabled()
      ensures r.Some? ==> Some(r.value.withShipping) == withShipping
      ensures r.Some? ==> (r.value.zipCode.Some? <==> r.value.withShipping)
      ensures r.Some? && r.value.zipCode.Some? ==>
        && r.value.zipCode.value == zipCode
        && zipCode != "" && zipCode != LocalZipCode && zipCodeError.None?
    {
      if ConfirmDisabled() {
        return None;
      }
      var ship := withShipping.value;
      r := Some(Confirmation(ship, if ship then Some(zipCode) else None));
    }
  }

  /** Confirming the dialog composes the order message: a shipped order
      names the postal code that was typed, a pick-up order says so. */
  method Checkout(s: CartState, dialog: ShippingDialog) returns (message: Option<string>)
    requires dialog.Valid()
    ensures message.Some? <==> !dialog.ConfirmDisabled()
    ensures message.Some? ==> message.value == OrderMessage(s, dialog.withShipping.value,
      if dialog.withShipping.value then Some(dialog.zipCode) else None)
    ensures message.Some? && dialog.withShipping == Some(true) ==>
      var note := ShippingLead + dialog.zipCode;
      |note| <= |message.value| && message.value[|message.value| - |note|..] == note
    ensures message.Some? && dialog.withShipping == Some(false) ==>
      |PickUp| <= |message.value| && message.value[|message.value| - |PickUp|..] == PickUp
  {
    var confirmation := dialog.Confirm();
    match confirmation {
      case None => message := None;
      case Some(c) => message := Some(OrderMessage(s, c.withShipping, c.zipCode));
    }
  }

  // ---------------------------------------------------------------------
  // The −/+ buttons of a line
  // ---------------------------------------------------------------------

  /** The − button: one less, but never below 0. */
  function DecrementCommand(item: CartItem): (c: Command)
    ensures c.SetQuantity? && c.id == item.id && c.quantity >= 0
    ensures item.quantity >= 1 ==> c.quantity == item.quantity - 1
    ensures item.quantity < 1 ==> c.quantity == 0
  {
    SetQuantity(item.id, if item.quantity - 1 >= 0 then item.quantity - 1 else 0)
  }

  /** The + button: one more. */
  function IncrementCommand(item: CartItem): (c: Command)
    ensures c.SetQuantity? && c.id == item.id && c.quantity == item.quantity + 1
  {
    SetQuantity(item.id, item.quantity + 1)
  }

  /** − on a line of quantity 1 removes the line. */
  lemma DecrementFromOneRemoves(s: CartState, k: nat)
    requires UniqueIds(s.items) && k < |s.items| && s.items[k].quantity == 1
    ensures Step(s, DecrementCommand(s.items[k])) == Step(s, Remove(s.items[k].id))
    ensures Step(s, DecrementCommand(s.items[k]))
         == CartState(s.items[..k] + s.items[k + 1..], s.total - s.items[k].price)
  {
    ZeroQuantityRemovesLine(s, k);
  }

  /** − on a line of quantity 2 or more lowers that line by one and the
      total by its price. No other line changes. */
  lemma DecrementLowersOneUnit(s: CartState, k: nat)
    requires UniqueIds(s.items) && k < |s.items| && s.items[k].quantity >= 2
    ensures var item := s.items[k];
      Step(s, DecrementCommand(item))
      == CartState(s.items[k := item.(quantity := item.quantity - 1)], s.total - item.price)
  {
    var item := s.items[k];
    FindUnique(s.items, item.id, k);
    assert Dispatched(s, DecrementCommand(item)) == Some(UpdateQuantity(item.id, item.quantity - 1));
    UpdatePresent(s, item.id, item.quantity - 1, k);
  }

  /** + raises that line by one and the total by its price. No other line
      changes. */
  lemma IncrementRaisesOneUnit(s: CartState, k: nat)
    requires UniqueIds(s.items) && k < |s.items| && s.items[k].quantity >= 0
    ensures var item := s.items[k];
      Step(s, IncrementCommand(item))
      == CartState(s.items[k := item.(quantity := item.quantity + 1)], s.total + item.price)
  {
    var item := s.items[k];
    FindUnique(s.items, item.id, k);
    assert Dispatched(s, IncrementCommand(item)) == Some(UpdateQuantity(item.id, item.quantity + 1));
    UpdatePresent(s, item.id, item.quantity + 1, k);
  }

  /** Whatever line either button is pressed on, the cart stays consistent
      and every line keeps a quantity of at least 1. */
  lemma ButtonsKeepCartSound(s: CartState, item: CartItem, up: bool)
    requires Consistent(s) && PositiveQuantities(s.items) && item in s.items
    ensures var c := if up then IncrementCommand(item) else DecrementCommand(item);
      Consistent(Step(s, c)) && PositiveQuantities(Step(s, c).items)
  {
    var c := if up then IncrementCommand(item) else DecrementCommand(item);
    StepPreservesConsistency(s, c);
    StepKeepsQuantitiesPositive(s, c);
  }
}
