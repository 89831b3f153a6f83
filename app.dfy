/** The app shell: it stores the latest submitted receipt and names the
    downloaded PDF after the clock reading taken when the link is built. */
module App {
  import opened ReceiptTypes
  import ReceiptForm
  import ReceiptPdf

  /** A wall-clock reading as the Date API reports it; the month is 0-based. */
  datatype Clock = Clock(year: int, month0: nat, day: nat, hours: nat, minutes: nat)

  /** The ranges the Date API guarantees for the parts below the year. */
  predicate ClockInRange(c: Clock)
  {
    c.month0 < 12 && 1 <= c.day <= 31 && c.hours < 24 && c.minutes < 60
  }

  predicate IsDigit(ch: char)
  {
    '0' <= ch <= '9'
  }

  predicate AllDigits(s: string)
  {
    forall i :: 0 <= i < |s| ==> IsDigit(s[i])
  }

  function DigitChar(d: nat): (ch: char)
    requires d < 10
    ensures IsDigit(ch) && DigitValue(ch) == d
  {
    "0123456789"[d]
  }

  function DigitValue(ch: char): nat
    requires IsDigit(ch)
  {
    (ch as int - '0' as int) as nat
  }

  /** Decimal text of a non-negative number, as String(n) writes it. */
  function NatToString(n: nat): (s: string)
    ensures 1 <= |s|
    ensures AllDigits(s)
    ensures n < 10 <==> |s| == 1
  {
    if n < 10 then [DigitChar(n)] else NatToString(n / 10) + [DigitChar(n % 10)]
  }

  /** The decimal text of a positive number has no leading zero, so it is
      the one text String(n) gives. */
  lemma {:induction false} NoLeadingZero(n: nat)
    requires n > 0
    ensures NatToString(n)[0] != '0'
  {
    if n >= 10 {
      NoLeadingZero(n / 10);
    }
  }

  /** Decimal text of any integer, with a leading '-' when negative. */
  function IntToString(n: int): (s: string)
    ensures 1 <= |s|
    ensures n < 0 <==> s[0] == '-'
    ensures n >= 0 ==> AllDigits(s)
  {
    if n < 0 then "-" + NatToString(-n) else NatToString(n)
  }

  /** The value of a string of decimal digits, leading zeros allowed. */
  function DecimalValue(s: string): nat
    requires AllDigits(s)
  {
    if s == [] then 0 else DecimalValue(s[..|s| - 1]) * 10 + DigitValue(s[|s| - 1])
  }

  /** padStart(2, '0'): a string shorter than two characters gets '0's in
      front until it has two; a longer one is returned as it is. */
  function PadStart2(s: string): string
  {
    if |s| >= 2 then s else seq(2 - |s|, _ => '0') + s
  }

  /** The padded text is at least two long, ends with the original text,
      and everything in front of it is '0'. */
  lemma PadStart2Spec(s: string)
    ensures var r := PadStart2(s);
      && |r| == (if |s| >= 2 then |s| else 2)
      && r[|r| - |s|..] == s
      && forall i :: 0 <= i < |r| - |s| ==> r[i] == '0'
  {
  }

  function TwoDigits(n: nat): string
  {
    PadStart2(NatToString(n))
  }

  /** The download name: year, month, day, '_', hours, '-', minutes, ".pdf". */
  function FileName(c: Clock): string
  {
    IntToString(c.year) + TwoDigits(c.month0 + 1) + TwoDigits(c.day) + "_"
      + TwoDigits(c.hours) + "-" + TwoDigits(c.minutes) + ".pdf"
  }

  /** Reads a download name back by its fixed positions (four-digit year). */
  function ParseFileName(f: string): Option<Clock>
  {
    if |f| == 18 && f[8] == '_' && f[11] == '-' && f[14..] == ".pdf"
       && AllDigits(f[..8]) && AllDigits(f[9..11]) && AllDigits(f[12..14])
       && DecimalValue(f[4..6]) >= 1
    then Some(Clock(DecimalValue(f[..4]), DecimalValue(f[4..6]) - 1, DecimalValue(f[6..8]),
                    DecimalValue(f[9..11]), DecimalValue(f[12..14])))
    else None
  }

  /** Reading the decimal text of n gives n back. */
  lemma {:induction false} DecimalRoundTrip(n: nat)
    ensures DecimalValue(NatToString(n)) == n
  {
    if n >= 10 {
      var s := NatToString(n);
      DecimalRoundTrip(n / 10);
      assert s[..|s| - 1] == NatToString(n / 10);
    }
  }

  /** Padding to two places: below 10 one '0' goes in front, from 10 to 99
      the text is unchanged; either way the result is the two decimal digits. */
  lemma TwoDigitsSpec(n: nat)
    requires n < 100
    ensures TwoDigits(n) == [DigitChar(n / 10), DigitChar(n % 10)]
    ensures n < 10 ==> TwoDigits(n) == "0" + NatToString(n)
    ensures 10 <= n ==> TwoDigits(n) == NatToString(n)
  {
    var s := NatToString(n);
    if n < 10 {
      assert s == [DigitChar(n)];
      assert PadStart2(s) == "0" + s;
      assert n / 10 == 0 && n % 10 == n;
    } else {
      assert s == NatToString(n / 10) + [DigitChar(n % 10)];
      assert NatToString(n / 10) == [DigitChar(n / 10)];
      assert PadStart2(s) == s;
    }
  }

  /** The 0-based months 0..11 are written "01".."12". */
  lemma MonthText(month0: nat)
    requires month0 < 12
    ensures TwoDigits(month0 + 1) ==
      if month0 < 9 then ['0', DigitChar(month0 + 1)] else ['1', DigitChar(month0 - 9)]
  {
    var m := month0 + 1;
    TwoDigitsSpec(m);
    if month0 < 9 {
      assert m / 10 == 0 && m % 10 == m;
    } else {
      assert m / 10 == 1 && m % 10 == month0 - 9;
    }
  }

  lemma FourDigitYear(year: nat)
    requires 1000 <= year <= 9999
    ensures |NatToString(year)| == 4
  {
    assert |NatToString(year / 10)| == 3 by {
      assert |NatToString(year / 100)| == 2;
    }
  }

  /** Reading two decimal digits back gives the number they were made of. */
  lemma TwoDigitsValue(n: nat)
    requires n < 100
    ensures AllDigits(TwoDigits(n)) && DecimalValue(TwoDigits(n)) == n
  {
    TwoDigitsSpec(n);
    var t := TwoDigits(n);
    assert t[..1] == [DigitChar(n / 10)];
    assert t[..1][..0] == [];
  }

  lemma TwoDigitsLength(n: nat)
    requires n < 100
    ensures |TwoDigits(n)| == 2
  {
    TwoDigitsSpec(n);
  }

  /** Where each field sits in the name: the year's text, then month, day,
      '_', hours, '-', minutes and ".pdf", each field two characters. */
  lemma FileNameLayout(c: Clock)
    requires ClockInRange(c) && 1000 <= c.year <= 9999
    ensures var f := FileName(c);
      && |f| == 18
      && f[..4] == NatToString(c.year)
      && f[4..6] == TwoDigits(c.month0 + 1) && f[6..8] == TwoDigits(c.day)
      && f[8] == '_' && f[9..11] == TwoDigits(c.hours)
      && f[11] == '-' && f[12..14] == TwoDigits(c.minutes)
      && f[14..] == ".pdf"
  {
    var y := NatToString(c.year);
    var m, d, h, mi := TwoDigits(c.month0 + 1), TwoDigits(c.day), TwoDigits(c.hours), TwoDigits(c.minutes);
    FourDigitYear(c.year);
    TwoDigitsLength(c.month0 + 1);
    TwoDigitsLength(c.day);
    TwoDigitsLength(c.hours);
    TwoDigitsLength(c.minutes);
    assert IntToString(c.year) == y;
    FieldPositions(y, m, d, h, mi);
  }

  /** Positions of fixed-width fields joined with '_', '-' and ".pdf". */
  lemma FieldPositions(y: string, m: string, d: string, h: string, mi: string)
    requires |y| == 4 && |m| == |d| == |h| == |mi| == 2
    ensures var f := y + m + d + "_" + h + "-" + mi + ".pdf";
      && |f| == 18
      && f[..4] == y && f[4..6] == m && f[6..8] == d
      && f[8] == '_' && f[9..11] == h
      && f[11] == '-' && f[12..14] == mi
      && f[14..] == ".pdf"
  {
    var f := y + m + d + "_" + h + "-" + mi + ".pdf";
    var tail := [m[0], m[1], d[0], d[1], '_', h[0], h[1], '-', mi[0], mi[1], '.', 'p', 'd', 'f'];
    assert f == y + tail by {
      assert m == [m[0], m[1]] && d == [d[0], d[1]];
      assert h == [h[0], h[1]] && mi == [mi[0], mi[1]];
    }
    assert f[4..6] == tail[..2] == m;
    assert f[6..8] == tail[2..4] == d;
    assert f[9..11] == tail[5..7] == h;
    assert f[12..14] == tail[8..10] == mi;
  }

  /** For a four-digit year the name is 18 characters: eight digits, '_',
      two digits, '-', two digits, ".pdf". */
  lemma FileNameShape(c: Clock)
    requires ClockInRange(c) && 1000 <= c.year <= 9999
    ensures var f := FileName(c);
      && |f| == 18
      && f[8] == '_' && f[11] == '-' && f[14..] == ".pdf"
      && forall i :: (0 <= i < 8 || 9 <= i < 11 || 12 <= i < 14) ==> IsDigit(f[i])
  {
    var f := FileName(c);
    FileNameLayout(c);
    TwoDigitsValue(c.month0 + 1);
    TwoDigitsValue(c.day);
    TwoDigitsValue(c.hours);
    TwoDigitsValue(c.minutes);
    forall i | 0 <= i < 8 || 9 <= i < 11 || 12 <= i < 14 ensures IsDigit(f[i]) {
      if i < 4 {
        assert f[i] == f[..4][i];
      } else if i < 6 {
        assert f[i] == f[4..6][i - 4];
      } else if i < 8 {
        assert f[i] == f[6..8][i - 6];
      } else if i < 11 {
        assert f[i] == f[9..11][i - 9];
      } else {
        assert f[i] == f[12..14][i - 12];
      }
    }
  }

  /** The fields can be read back from the name at their fixed positions. */
  lemma FileNameRoundTrip(c: Clock)
    requires ClockInRange(c) && 1000 <= c.year <= 9999
    ensures ParseFileName(FileName(c)) == Some(c)
  {
    FileNameShape(c);
    FileNameLayout(c);
    DecimalRoundTrip(c.year);
    TwoDigitsValue(c.month0 + 1);
    TwoDigitsValue(c.day);
    TwoDigitsValue(c.hours);
    TwoDigitsValue(c.minutes);
  }

  /** What the app renders after a form submission: the working list's rows
      followed by at most the auto-included pending entry, a total that grew
      by exactly that entry's line total, and a note row only for a
      non-empty note. */
  lemma SubmittedDocument(customerName: string, phoneNumber: string, address: string,
                          note: string, goods: seq<Good>, pending: Good)
    ensures var d := ReceiptPdf.Render(ReceiptForm.SubmittedReceipt(
              customerName, phoneNumber, address, note, goods, pending));
      && |d.rows| == |goods| + (if ReceiptForm.AutoIncluded(pending) then 1 else 0)
      && d.rows[..|goods|] == ReceiptPdf.Rows(goods)
      && (ReceiptForm.AutoIncluded(pending) ==>
            d.rows[|goods|] == ReceiptPdf.TableRow(pending.name, pending.quantity, pending.price,
                                                   pending.quantity * pending.price))
      && d.total == ReceiptPdf.Total(goods)
           + (if ReceiptForm.AutoIncluded(pending) then pending.quantity * pending.price else 0)
      && (|d.customerRows| == 3 <==> note != "")
    ensures (forall g <- goods :: ReceiptForm.CanAdd(g)) ==>
      ReceiptPdf.Total(ReceiptForm.SubmittedGoods(goods, pending)) >= 0
  {
    var data := ReceiptForm.SubmittedReceipt(customerName, phoneNumber, address, note, goods, pending);
    ReceiptPdf.RenderLayout(data);
    if ReceiptForm.AutoIncluded(pending) {
      ReceiptPdf.TotalAppend(goods, pending);
      ReceiptPdf.RowsConcat(goods, [pending]);
    }
    if forall g <- goods :: ReceiptForm.CanAdd(g) {
      ReceiptForm.SubmittedGoodsAddable(goods, pending);
      ReceiptPdf.TotalBounds(data.goods);
    }
  }

  /** The stored receipt; the download link is offered once there is one. */
  class AppState {
    var receiptData: Option<ReceiptData>

    constructor ()
      ensures receiptData == None
    {
      receiptData := None;
    }

    /** A submission replaces whatever receipt was stored before. */
    method HandleFormSubmit(data: ReceiptData)
      modifies this
      ensures receiptData == Some(data)
    {
      receiptData := Some(data);
    }

    /** The form is wired to HandleFormSubmit: a submit click stores the
        form's receipt and leaves the form session as it was. */
    method SubmitForm(form: ReceiptForm.FormSession)
      modifies this
      ensures (!ReceiptForm.SubmitDisabled(form.goods, form.newGood)
               && ReceiptForm.RequiredFilled(form.customerName, form.phoneNumber, form.address)) ==>
        receiptData == Some(ReceiptForm.SubmittedReceipt(
          form.customerName, form.phoneNumber, form.address, form.note, form.goods, form.newGood))
      ensures (ReceiptForm.SubmitDisabled(form.goods, form.newGood)
               || !ReceiptForm.RequiredFilled(form.customerName, form.phoneNumber, form.address)) ==>
        receiptData == old(receiptData)
    {
      var data := form.RequestSubmit();
      if data.Some? {
        HandleFormSubmit(data.value);
      }
    }
  }
}
