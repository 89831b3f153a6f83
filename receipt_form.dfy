/** The form session: the working list of goods, the pending entry being
    typed, the customer fields, and the submission that hands a receipt to
    the app. */
module ReceiptForm {
  import opened ReceiptTypes

  /** The pending entry after a successful add, and at start-up. */
  const BlankGood: Good := Good("", 1, 0)

  /** The guard of the add button: a name, a positive quantity and a
      non-negative price. */
  predicate CanAdd(g: Good)
  {
    g.name != "" && g.quantity > 0 && g.price >= 0
  }

  /** The stricter guard under which submission folds the pending entry in:
      the price must be positive. */
  predicate AutoIncluded(g: Good)
    ensures AutoIncluded(g) ==> CanAdd(g)
  {
    g.name != "" && g.quantity > 0 && g.price > 0
  }

  /** The goods whose position differs from index, in their order: the
      filter run by the remove button. */
  function WithoutIndex(goods: seq<Good>, index: int): (r: seq<Good>)
    ensures |r| == if 0 <= index < |goods| then |goods| - 1 else |goods|
  {
    if goods == [] then []
    else
      var n := |goods| - 1;
      WithoutIndex(goods[..n], index) + (if n == index then [] else [goods[n]])
  }

  /** The goods a submission hands over: the working list, then the pending
      entry when it passes the auto-include guard. */
  function SubmittedGoods(goods: seq<Good>, pending: Good): seq<Good>
  {
    if AutoIncluded(pending) then goods + [pending] else goods
  }

  function SubmittedReceipt(customerName: string, phoneNumber: string, address: string,
                            note: string, goods: seq<Good>, pending: Good): ReceiptData
  {
    ReceiptData(customerName, phoneNumber, address, Some(note), SubmittedGoods(goods, pending))
  }

  /** The browser's check of the fields marked required: the form's submit
      event reaches the submit handler only when all three are filled in. */
  predicate RequiredFilled(customerName: string, phoneNumber: string, address: string)
  {
    customerName != "" && phoneNumber != "" && address != ""
  }

  /** The disabled state of the submit button. */
  predicate SubmitDisabled(goods: seq<Good>, pending: Good)
  {
    |goods| == 0 && !AutoIncluded(pending)
  }

  /** Removing at an index in range drops exactly that good and keeps the
      others in order; any other index leaves the list as it was. */
  lemma {:induction false} WithoutIndexSpec(goods: seq<Good>, index: int)
    ensures 0 <= index < |goods| ==>
      WithoutIndex(goods, index) == goods[..index] + goods[index + 1..]
    ensures !(0 <= index < |goods|) ==> WithoutIndex(goods, index) == goods
  {
    if goods != [] {
      var n := |goods| - 1;
      var p := goods[..n];
      WithoutIndexSpec(p, index);
      if index == n {
        assert goods[index + 1..] == [];
      } else if 0 <= index < n {
        assert p[..index] == goods[..index];
        assert p[index + 1..] + [goods[n]] == goods[index + 1..];
      } else {
        assert p + [goods[n]] == goods;
      }
    }
  }

  /** The pending entry is appended exactly when it passes the auto-include
      guard; otherwise the working list is submitted as it is, so a pending
      entry priced 0 is dropped. */
  lemma SubmittedGoodsSpec(goods: seq<Good>, pending: Good)
    ensures SubmittedGoods(goods, pending) == goods + [pending] <==> AutoIncluded(pending)
    ensures SubmittedGoods(goods, pending) == goods <==> !AutoIncluded(pending)
    ensures pending.price == 0 ==> SubmittedGoods(goods, pending) == goods
  {
  }

  /** The submit button is enabled exactly when the submission would carry
      at least one good. */
  lemma SubmitEnabledIffNonEmpty(goods: seq<Good>, pending: Good)
    ensures !SubmitDisabled(goods, pending) <==> SubmittedGoods(goods, pending) != []
  {
  }

  /** Everything submitted passes the add guard when the working list does. */
  lemma SubmittedGoodsAddable(goods: seq<Good>, pending: Good)
    requires forall g <- goods :: CanAdd(g)
    ensures forall g <- SubmittedGoods(goods, pending) :: CanAdd(g)
  {
  }

  /** The form's state. Every good in the working list passed the add guard. */
  class FormSession {
    var customerName: string
    var phoneNumber: string
    var address: string
    var note: string
    var goods: seq<Good>
    var newGood: Good

    predicate Valid()
      reads this`goods
    {
      forall g <- goods :: CanAdd(g)
    }

    constructor ()
      ensures Valid()
      ensures customerName == "" && phoneNumber == "" && address == "" && note == ""
      ensures goods == [] && newGood == BlankGood
    {
      customerName, phoneNumber, address, note := "", "", "", "";
      goods, newGood := [], BlankGood;
    }

    method SetCustomerName(value: string)
      modifies this`customerName
      ensures customerName == value
    {
      customerName := value;
    }

    method SetPhoneNumber(value: string)
      modifies this`phoneNumber
      ensures phoneNumber == value
    {
      phoneNumber := value;
    }

    method SetAddress(value: string)
      modifies this`address
      ensures address == value
    {
      address := value;
    }

    method SetNote(value: string)
      modifies this`note
      ensures note == value
    {
      note := value;
    }

    method SetPendingName(value: string)
      modifies this`newGood
      ensures newGood == old(newGood).(name := value)
    {
      newGood := newGood.(name := value);
    }

    method SetPendingQuantity(value: int)
      modifies this`newGood
      ensures newGood == old(newGood).(quantity := value)
    {
      newGood := newGood.(quantity := value);
    }

    method SetPendingPrice(value: int)
      modifies this`newGood
      ensures newGood == old(newGood).(price := value)
    {
      newGood := newGood.(price := value);
    }

    /** The add button: append the pending entry and clear it, or leave
        both alone when the entry fails the guard. */
    method AddGood()
      requires Valid()
      modifies this`goods, this`newGood
      ensures Valid()
      ensures CanAdd(old(newGood)) ==>
        goods == old(goods) + [old(newGood)] && newGood == BlankGood
      ensures !CanAdd(old(newGood)) ==>
        goods == old(goods) && newGood == old(newGood)
    {
      if newGood.name != "" && newGood.quantity > 0 && newGood.price >= 0 {
        goods := goods + [newGood];
        newGood := BlankGood;
      }
    }

    /** The remove button of the good at index. */
    method RemoveGood(index: int)
      requires Valid()
      modifies this`goods
      ensures Valid()
      ensures 0 <= index < |old(goods)| ==>
        goods == old(goods)[..index] + old(goods)[index + 1..]
      ensures !(0 <= index < |old(goods)|) ==> goods == old(goods)
    {
      WithoutIndexSpec(goods, index);
      goods := WithoutIndex(goods, index);
    }

    /** Submission: copy the working list, push the pending entry onto the
        copy when it passes the auto-include guard, and hand the receipt
        over. The session itself is left untouched. */
    method Submit() returns (data: ReceiptData)
      ensures data == SubmittedReceipt(customerName, phoneNumber, address, note, goods, newGood)
      ensures data.customerName == customerName && data.phoneNumber == phoneNumber
      ensures data.address == address && data.note == Some(note)
      ensures |data.goods| == |goods| + (if AutoIncluded(newGood) then 1 else 0)
      ensures data.goods[..|goods|] == goods
      ensures AutoIncluded(newGood) ==> data.goods[|goods|] == newGood
      ensures Valid() ==> forall g <- data.goods :: CanAdd(g)
    {
      var finalGoods := goods;
      if newGood.name != "" && newGood.quantity > 0 && newGood.price > 0 {
        finalGoods := finalGoods + [newGood];
      }
      data := ReceiptData(customerName, phoneNumber, address, Some(note), finalGoods);
    }

    /** A click on the submit button: a disabled button takes no click, the
        browser then checks the required customer fields, and only then the
        submit handler runs. */
    method RequestSubmit() returns (data: Option<ReceiptData>)
      ensures data.Some? <==>
        !SubmitDisabled(goods, newGood) && RequiredFilled(customerName, phoneNumber, address)
      ensures data.Some? ==>
        data.value == SubmittedReceipt(customerName, phoneNumber, address, note, goods, newGood)
      ensures data.Some? ==>
        data.value.customerName != "" && data.value.phoneNumber != "" && data.value.address != ""
      ensures data.Some? ==> data.value.goods != []
    {
      var disabled := |goods| == 0
        && !(newGood.name != "" && newGood.quantity > 0 && newGood.price > 0);
      if !disabled && customerName != "" && phoneNumber != "" && address != "" {
        SubmitEnabledIffNonEmpty(goods, newGood);
        var submitted := Submit();
        data := Some(submitted);
      } else {
        data := None;
      }
    }
  }
}
