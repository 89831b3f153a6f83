/** The records shared by the form, the PDF document and the app shell. */
module ReceiptTypes {

  datatype Option<+T> = None | Some(value: T)

  /** One line item. Quantity and price are whole numbers: amounts are in
      Vietnamese dong, which has no subunit. */
  datatype Good = Good(name: string, quantity: int, price: int)

  /** What the form hands to the app on submission and the PDF renders.
      The note is optional in the record; the form always supplies one. */
  datatype ReceiptData = ReceiptData(
    customerName: string,
    phoneNumber: string,
    address: string,
    note: Option<string>,
    goods: seq<Good>)
}
