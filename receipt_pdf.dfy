/** The receipt document: the grand total, one table row per good, the
    customer block with its optional note row, and the fixed header and
    footer. Currency formatting is abstract here: a price cell holds the
    amount that the vi-VN currency formatter renders. */
module ReceiptPdf {
  import opened ReceiptTypes

  const Title: string := "HÓA ĐƠN BÁN LẺ"
  const CompanyInfo: seq<string> := [
    "My Dream Closet by Linh Tracy",
    "42 Nguyễn Khắc Hiếu - Trúc Bạch - Ba Đình - HN",
    "Hotline: 0982910485"
  ]
  const NameLabel: string := "Tên khách hàng:"
  const PhoneLabel: string := "Số điện thoại:"
  const AddressLabel: string := "Địa chỉ:"
  const NoteLabel: string := "Ghi chú:"
  const TableHeader: seq<string> := ["Tên hàng", "SL", "Đơn giá", "Thành tiền"]
  const TotalLabel: string := "Tổng tiền:"
  const Footer: string := "Cảm ơn quý khách đã mua hàng!"

  /** A caption and the value printed next to it in the customer block. */
  datatype Field = Field(caption: string, value: string)

  /** One row of the goods table; unitPrice and lineTotal are price cells. */
  datatype TableRow = TableRow(name: string, quantity: int, unitPrice: int, lineTotal: int)

  /** The structure of the single page, top to bottom. */
  datatype Document = Document(
    title: string,
    companyInfo: seq<string>,
    customerRows: seq<seq<Field>>,
    tableHeader: seq<string>,
    rows: seq<TableRow>,
    totalLabel: string,
    total: int,
    footer: string)

  function LineTotal(g: Good): (t: int)
    ensures g.quantity > 0 && g.price >= 0 ==> t >= 0
  {
    g.quantity * g.price
  }

  /** The grand total, accumulated from 0 left to right, one line total per
      good, as the reduce in calculateTotal does. */
  function Total(goods: seq<Good>): (t: int)
    ensures (forall g <- goods :: LineTotal(g) >= 0) ==> t >= 0
  {
    if goods == [] then 0
    else Total(goods[..|goods| - 1]) + LineTotal(goods[|goods| - 1])
  }

  /** The table body: goods.map, one row per good in the same order. */
  function Rows(goods: seq<Good>): (rows: seq<TableRow>)
    ensures |rows| == |goods|
    ensures forall i :: 0 <= i < |goods| ==>
      && rows[i].name == goods[i].name
      && rows[i].quantity == goods[i].quantity
      && rows[i].unitPrice == goods[i].price
      && rows[i].lineTotal == goods[i].quantity * goods[i].price
  {
    if goods == [] then []
    else [TableRow(goods[0].name, goods[0].quantity, goods[0].price, LineTotal(goods[0]))]
         + Rows(goods[1..])
  }

  /** The table of joined lists is the two tables one after the other. */
  lemma RowsConcat(a: seq<Good>, b: seq<Good>)
    ensures Rows(a + b) == Rows(a) + Rows(b)
  {
    var r, ra, rb := Rows(a + b), Rows(a), Rows(b);
    forall i | 0 <= i < |r| ensures r[i] == (ra + rb)[i] {
      if i >= |a| {
        assert (a + b)[i] == b[i - |a|];
      }
    }
  }

  /** The sum of the line-total column of a table, read top to bottom. */
  function ColumnSum(rows: seq<TableRow>): int
  {
    if rows == [] then 0 else rows[0].lineTotal + ColumnSum(rows[1..])
  }

  /** The note is printed only when it is present and not the empty string. */
  predicate NoteShown(note: Option<string>)
  {
    note.Some? && note.value != ""
  }

  /** Name and phone share the first row, the address has the second, and
      a third row holds the note when it is shown. */
  function CustomerRows(data: ReceiptData): (rows: seq<seq<Field>>)
    ensures |rows| == if NoteShown(data.note) then 3 else 2
  {
    [[Field(NameLabel, data.customerName), Field(PhoneLabel, data.phoneNumber)],
     [Field(AddressLabel, data.address)]]
    + (if NoteShown(data.note) then [[Field(NoteLabel, data.note.value)]] else [])
  }

  function Render(data: ReceiptData): Document
  {
    Document(Title, CompanyInfo, CustomerRows(data), TableHeader,
             Rows(data.goods), TotalLabel, Total(data.goods), Footer)
  }

  /** Totals split over concatenation. */
  lemma {:induction false} TotalConcat(a: seq<Good>, b: seq<Good>)
    ensures Total(a + b) == Total(a) + Total(b)
    decreases |b|
  {
    if b == [] {
      assert a + b == a;
    } else {
      var n := |b| - 1;
      assert (a + b)[..|a + b| - 1] == a + b[..n];
      assert (a + b)[|a + b| - 1] == b[n];
      TotalConcat(a, b[..n]);
    }
  }

  /** Adding one good raises the total by exactly its line total. */
  lemma TotalAppend(goods: seq<Good>, g: Good)
    ensures Total(goods + [g]) == Total(goods) + g.quantity * g.price
  {
    TotalConcat(goods, [g]);
  }

  /** The printed total equals the sum of the printed line-total column. */
  lemma {:induction false} TotalIsColumnSum(goods: seq<Good>)
    ensures Total(goods) == ColumnSum(Rows(goods))
  {
    if goods != [] {
      TotalIsColumnSum(goods[1..]);
      assert Rows(goods)[1..] == Rows(goods[1..]);
      TotalConcat([goods[0]], goods[1..]);
      assert [goods[0]] + goods[1..] == goods;
      assert Total([goods[0]]) == LineTotal(goods[0]) by {
        assert [goods[0]][..0] == [];
      }
    }
  }

  /** With positive quantities and non-negative prices, the total is
      non-negative and no line total exceeds it. */
  lemma {:induction false} TotalBounds(goods: seq<Good>)
    requires forall g <- goods :: g.quantity > 0 && g.price >= 0
    ensures Total(goods) >= 0
    ensures forall i :: 0 <= i < |goods| ==> LineTotal(goods[i]) <= Total(goods)
  {
    forall g <- goods ensures LineTotal(g) >= 0 {
      assert g.quantity > 0 && g.price >= 0;
    }
    if goods != [] {
      var n := |goods| - 1;
      TotalBounds(goods[..n]);
      forall i | 0 <= i < |goods| ensures LineTotal(goods[i]) <= Total(goods) {
        if i < n {
          assert goods[..n][i] == goods[i];
        }
      }
    }
  }

  /** Layout of a rendered receipt: fixed parts, the customer block with the
      note row only for a non-empty note, one row per good, and a total
      that matches the table. */
  lemma RenderLayout(data: ReceiptData)
    ensures var d := Render(data);
      && d.customerRows[0] == [Field(NameLabel, data.customerName), Field(PhoneLabel, data.phoneNumber)]
      && d.customerRows[1] == [Field(AddressLabel, data.address)]
      && (|d.customerRows| == 3 <==> NoteShown(data.note))
      && (|d.customerRows| == 2 <==> !NoteShown(data.note))
      && (NoteShown(data.note) ==> d.customerRows[2] == [Field(NoteLabel, data.note.value)])
      && |d.rows| == |data.goods|
      && d.total == ColumnSum(d.rows)
  {
    TotalIsColumnSum(data.goods);
  }

  /** The header, the table's column labels, the total label and the footer
      do not depend on the receipt data. */
  lemma FixedParts(a: ReceiptData, b: ReceiptData)
    ensures Render(a).title == Render(b).title == Title
    ensures Render(a).companyInfo == Render(b).companyInfo == CompanyInfo
    ensures Render(a).tableHeader == Render(b).tableHeader == TableHeader
    ensures Render(a).totalLabel == Render(b).totalLabel == TotalLabel
    ensures Render(a).footer == Render(b).footer == Footer
  {
  }
}
