# Receipt generator — verified model of its bookkeeping

The receipt generator is a browser form that collects a customer's name,
phone number, address and note plus a list of goods (name, quantity, unit
price in Vietnamese dong), and renders a one-page PDF receipt that the user
downloads under a timestamped file name. This Dafny project models the three
pieces of logic behind that UI:

- `receipt_form.dfy`, module `ReceiptForm`: the form session as a class
  `FormSession` with the working list `goods` and the pending entry
  `newGood`. Adding is guarded (name, quantity > 0, price >= 0) and clears the
  pending entry. Removing filters out one index. Submitting copies the list
  and appends the pending entry only under the stricter auto-include guard
  (price > 0). A submit click reaches the handler only when the submit button
  is enabled (the working list is non-empty or the pending entry would be
  auto-included) and the browser's check of the required customer fields passes.
  `Valid()` is the session invariant: every good in the working list passed
  the add guard. The constructor establishes it and every method keeps it.
  `Submit` has no `modifies` clause, so it provably cannot change the session.
- `receipt_pdf.dfy`, module `ReceiptPdf`: the receipt document as an abstract
  structure. It has the fixed header, the customer block (the note row only
  for a present, non-empty note), one table row per good with its line total,
  the grand total (a left fold from 0, like the source's `reduce`) and the
  fixed footer.
- `app.dfy`, module `App`: the download file name `YYYYMMDD_HH-MM.pdf` built
  from an already-read clock, its inverse `ParseFileName`, and the app state
  that keeps only the latest submitted receipt.
- `receipt_types.dfy`, module `ReceiptTypes`: the shared records `Good` and
  `ReceiptData`, and `Option`.

Quantities and prices are mathematical integers. Price cells hold the amount
that the currency formatter prints; the formatter itself is not modelled.

## Model

| member | source | states |
|---|---|---|
| ReceiptForm.FormSession.constructor | src/components/ReceiptForm.tsx:36-41 | a new session has empty customer fields, an empty working list and the blank pending entry (name '', quantity 1, price 0), and satisfies the session invariant |
| ReceiptForm.FormSession.SetCustomerName | src/components/ReceiptForm.tsx:163 | editing the name field sets the customer name and changes nothing else |
| ReceiptForm.FormSession.SetPhoneNumber | src/components/ReceiptForm.tsx:172 | editing the phone field sets the phone number and changes nothing else |
| ReceiptForm.FormSession.SetAddress | src/components/ReceiptForm.tsx:181 | editing the address field sets the address and changes nothing else |
| ReceiptForm.FormSession.SetNote | src/components/ReceiptForm.tsx:192 | editing the note field sets the note and changes nothing else |
| ReceiptForm.FormSession.SetPendingName | src/components/ReceiptForm.tsx:207 | editing the goods-name field replaces only the pending entry's name |
| ReceiptForm.FormSession.SetPendingQuantity | src/components/ReceiptForm.tsx:215 | editing the quantity field replaces only the pending entry's quantity |
| ReceiptForm.FormSession.SetPendingPrice | src/components/ReceiptForm.tsx:223 | editing the price field replaces only the pending entry's price |
| ReceiptForm.FormSession.AddGood | src/components/ReceiptForm.tsx:43-48 | if name is non-empty, quantity > 0 and price >= 0, the pending entry is appended after the unchanged earlier goods and reset to the blank entry; otherwise both goods and pending entry are unchanged; customer fields never change; the invariant is kept |
| ReceiptForm.FormSession.RemoveGood | src/components/ReceiptForm.tsx:50-52 | an index in range removes exactly that good and keeps the others in order; an out-of-range index leaves the list unchanged; only the list changes; the invariant is kept |
| ReceiptForm.CanAdd | src/components/ReceiptForm.tsx:44 | the add guard: non-empty name, quantity > 0, price >= 0 (used by AddGood; see AddGood and SubmittedGoodsAddable) |
| ReceiptForm.AutoIncluded | src/components/ReceiptForm.tsx:57 | the auto-include guard additionally needs price > 0, so every entry it admits also passes the add guard |
| ReceiptForm.SubmittedGoods | src/components/ReceiptForm.tsx:56-59 | the goods of a submission; see SubmittedGoodsSpec and SubmitEnabledIffNonEmpty |
| ReceiptForm.SubmittedReceipt | src/components/ReceiptForm.tsx:56-66 | the receipt of a submission; see FormSession.Submit, which is proved to return it |
| ReceiptForm.SubmitDisabled | src/components/ReceiptForm.tsx:258 | the disabled state of the submit button; see SubmitEnabledIffNonEmpty |
| ReceiptForm.RequiredFilled | src/components/ReceiptForm.tsx:158-183 | the browser's required-field check on name, phone and address; see FormSession.RequestSubmit |
| ReceiptForm.FormSession.RequestSubmit | src/components/ReceiptForm.tsx:158-258 | a submit click yields a receipt exactly when the submit button is enabled and name, phone and address are all non-empty; the receipt is then the submitted receipt, with non-empty customer fields and at least one good |
| ReceiptForm.FormSession.Submit | src/components/ReceiptForm.tsx:54-67 | the handed-over receipt carries the customer fields and note unchanged, the working list as its prefix, and the pending entry as one extra last good exactly when it passes the auto-include guard; every submitted good passes the add guard when the session is valid; the session is not modified |
| ReceiptForm.WithoutIndex | src/components/ReceiptForm.tsx:51 | the index filter shortens the list by one exactly when the index is in range |
| ReceiptForm.WithoutIndexSpec | src/components/ReceiptForm.tsx:51 | the filter equals the list with the element at the index cut out (so the other elements keep their relative order), or the list itself for an out-of-range index |
| ReceiptForm.SubmittedGoodsSpec | src/components/ReceiptForm.tsx:56-59 | the submitted goods are the working list plus the pending entry if and only if the pending entry has a name, quantity > 0 and price > 0, and are the working list itself otherwise; a pending entry priced 0 is dropped |
| ReceiptForm.SubmitEnabledIffNonEmpty | src/components/ReceiptForm.tsx:258 | the submit button is enabled if and only if the submission would carry at least one good |
| ReceiptForm.SubmittedGoodsAddable | src/components/ReceiptForm.tsx:44 | when every working-list good passed the add guard, so does every submitted good |
| ReceiptPdf.LineTotal | src/components/ReceiptPDF.tsx:126 | a line total is non-negative for a positive quantity and a non-negative price |
| ReceiptPdf.Total | src/components/ReceiptPDF.tsx:125-127 | the grand total is non-negative whenever every line total is |
| ReceiptPdf.TotalConcat | src/components/ReceiptPDF.tsx:126 | the total of two lists joined is the sum of their totals |
| ReceiptPdf.TotalAppend | src/components/ReceiptPDF.tsx:126 | appending a good raises the total by exactly quantity times price of that good |
| ReceiptPdf.TotalBounds | src/components/ReceiptPDF.tsx:126 | with positive quantities and non-negative prices, the total is at least 0 and at least every line total |
| ReceiptPdf.RowsConcat | src/components/ReceiptPDF.tsx:176-185 | the table of two joined lists is the first list's table followed by the second's |
| ReceiptPdf.Rows | src/components/ReceiptPDF.tsx:176-185 | one table row per good, in the goods' order, each with that good's name, quantity and unit price, and line total quantity times price |
| ReceiptPdf.TotalIsColumnSum | src/components/ReceiptPDF.tsx:180-191 | the printed grand total equals the sum of the printed line-total column |
| ReceiptPdf.NoteShown | src/components/ReceiptPDF.tsx:160 | the note row's condition: the note is present and non-empty; see RenderLayout |
| ReceiptPdf.CustomerRows | src/components/ReceiptPDF.tsx:143-166 | the customer block has three rows when the note is shown and two otherwise |
| ReceiptPdf.Render | src/components/ReceiptPDF.tsx:133-199 | the whole page; see RenderLayout, FixedParts and TotalIsColumnSum |
| ReceiptPdf.RenderLayout | src/components/ReceiptPDF.tsx:143-191 | name and phone share the first customer row and the address the second; a third, note row exists if and only if the note is present and non-empty; one table row per good; the total matches the table |
| ReceiptPdf.FixedParts | src/components/ReceiptPDF.tsx:136-196 | title, issuer lines, column labels, total label and footer are the same constants for every receipt |
| App.NatToString | src/App.tsx:41-44 | the decimal text of a number is non-empty, all digits, and one character long exactly below 10 |
| App.NoLeadingZero | src/App.tsx:41-45 | the decimal text of a positive number does not start with '0', so it is the canonical text String(n) gives |
| App.IntToString | src/App.tsx:45 | the text of the year is non-empty, starts with '-' exactly for a negative year, and is all digits otherwise |
| App.PadStart2 | src/App.tsx:41-44 | padStart(2, '0'); see PadStart2Spec and TwoDigitsSpec |
| App.PadStart2Spec | src/App.tsx:41-44 | the padded text has length two or the original length if longer, ends with the original text, and has only '0' in front of it |
| App.TwoDigits | src/App.tsx:41-44 | a field padded to two places; see TwoDigitsSpec and TwoDigitsValue |
| App.FileName | src/App.tsx:38-46 | the download name; see FileNameLayout, FileNameShape and FileNameRoundTrip |
| App.DecimalRoundTrip | src/App.tsx:40-45 | reading the decimal text of a number back gives the number |
| App.TwoDigitsSpec | src/App.tsx:41-44 | below 100 the padded text is the two decimal digits; below 10 it is '0' followed by the digit, from 10 it is the unpadded text |
| App.MonthText | src/App.tsx:41 | the 0-based months 0..11 are written "01".."12" |
| App.FourDigitYear | src/App.tsx:40-45 | a year from 1000 to 9999 is written with four characters |
| App.TwoDigitsValue | src/App.tsx:41-44 | a padded field below 100 is all digits and reads back as its value |
| App.FileNameLayout | src/App.tsx:45 | the name is the year followed by month, day, '_', hours, '-', minutes and ".pdf", each field two characters |
| App.FileNameShape | src/App.tsx:40-45 | with a four-digit year the name is 18 characters, ends in ".pdf", has '_' at position 8 and '-' at 11, and digits everywhere else |
| App.FileNameRoundTrip | src/App.tsx:40-45 | parsing the fixed positions of the name recovers year, month, day, hours and minutes |
| App.SubmittedDocument | src/App.tsx:52-60 | the document rendered from a submission has the working list's rows, in order, followed by the auto-included entry's row exactly when it is auto-included, a total equal to the working list's total plus that entry's line total, a note row exactly for a non-empty note, and a non-negative total for a valid working list |
| App.AppState.constructor | src/App.tsx:32 | no receipt is stored at start |
| App.AppState.HandleFormSubmit | src/App.tsx:34-36 | a submission replaces the stored receipt with the new data, whatever was stored before |
| App.AppState.SubmitForm | src/App.tsx:32-52 | a submit click on an enabled button with name, phone and address filled in stores exactly the receipt the form hands over; otherwise the stored receipt is unchanged |

## Left out

- Currency formatting with the vi-VN number formatter (ReceiptForm.tsx:69-71, ReceiptPDF.tsx:129-131): it belongs to the platform's locale library. Price cells carry the amount to be formatted.
- Widgets, styles and JSX markup, including the form's own list display of the goods: these are presentation only. Two attributes do change behaviour and are modelled: the `required` marks on the name, phone and address fields (ReceiptForm.tsx:165, 174, 183), by `RequiredFilled`, and the submit button's `disabled` (ReceiptForm.tsx:258), by `SubmitDisabled`; `RequestSubmit` lets a click through only when both allow it. `Submit` itself models the handler and runs on whatever the session holds.
- Font registration over the network, the style sheet, the page size and the PDF byte output: these are library plumbing.
- The clock read `new Date()`: the clock is a `Clock` parameter, and `ClockInRange` states the Date API's ranges. `ParseFileName` handles four-digit years only.
- The download link and its display only when a receipt is stored (App.tsx:54-71): the library call that produces the file is outside the model. Only the stored state and the file name are modelled.
- Number conversion of the quantity and price fields: NaN, fractional and float input, and float accumulation in the total, are not modelled. Quantities and prices are integers.
- React's asynchronous state updates: each handler is modelled as one atomic state change.
- ReceiptForm.FormSession.AddGood: requires the session invariant `Valid()`, and so does RemoveGood. The source needs no precondition, but every session built by the constructor and changed by its methods satisfies it.
