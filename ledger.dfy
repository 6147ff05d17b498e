/**
 * The financial summary of the booking details screen
 * (frontend/src/components/bookings/BookingDetails.tsx): how a journal entry is classified,
 * how the paid and remaining amounts follow from the entries, how a new payment is typed and
 * described, and how the invoice number is formed.
 *
 * Absent or empty JavaScript strings are both modelled as "" (the source only ever tests them
 * for truthiness); money is `real`.
 */
module Ledger {
  import opened Wrappers
  import opened Text

  // Transaction types as the source spells them.
  const INVOICE_ISSUE := "invoice_issue"
  const CREDIT_NOTE := "credit_note"
  const PAYMENT := "payment"
  const ADVANCE_PAYMENT := "advance_payment"
  const REFUND := "refund"

  // Keywords the classifier looks for in descriptions.
  const SALES_INVOICE := "فاتورة مبيعات"
  const INVOICE_WORD := "Invoice"
  const CANCELLATION_WORD := "إلغاء"
  const CREDIT_NOTE_WORD := "Credit Note"
  const ADVANCE_WORD := "Advance"

  /** One line of a journal entry; a missing debit or credit reads as 0. */
  datatype JournalLine = JournalLine(debit: real, credit: real, description: string)

  /**
   * A journal entry linked to the booking or its invoice. `txnType` is "" when the entry carries no
   * explicit type; `lines` is None when the entry came without its `journal_lines`.
   */
  datatype Txn = Txn(
    txnType: string,
    referenceType: string,
    referenceId: string,
    description: string,
    lines: Option<seq<JournalLine>>)

  /** The description of the entry's first journal line, "" when there is none. */
  function FirstLineDescription(t: Txn): string {
    match t.lines
    case Some(ls) => if |ls| > 0 then ls[0].description else ""
    case None => ""
  }

  predicate MentionsInvoice(t: Txn) {
    t.referenceType == "invoice" || Contains(t.description, SALES_INVOICE) || Contains(t.description, INVOICE_WORD)
  }

  /** The credit-note test; its first disjunct can only hold for typed entries, which never reach it. */
  predicate MentionsCreditNote(t: Txn) {
    t.txnType == CREDIT_NOTE || Contains(t.description, CANCELLATION_WORD) || Contains(t.description, CREDIT_NOTE_WORD)
  }

  /** `getTransactionType`: the explicit type, or one inferred from reference and descriptions. */
  function Classify(t: Txn): (r: string)
    ensures t.txnType != "" ==> r == t.txnType
    ensures t.txnType == "" ==> r in {INVOICE_ISSUE, CREDIT_NOTE, ADVANCE_PAYMENT, PAYMENT}
    ensures t.txnType == "" ==> (r == INVOICE_ISSUE <==> MentionsInvoice(t))
    ensures t.txnType == "" ==> (r == CREDIT_NOTE <==> !MentionsInvoice(t) && MentionsCreditNote(t))
    ensures t.txnType == "" ==>
      (r == ADVANCE_PAYMENT <==> !MentionsInvoice(t) && !MentionsCreditNote(t) && Contains(FirstLineDescription(t), ADVANCE_WORD))
  {
    if t.txnType != "" then t.txnType
    else if MentionsInvoice(t) then INVOICE_ISSUE
    else if MentionsCreditNote(t) then CREDIT_NOTE
    else if Contains(FirstLineDescription(t), ADVANCE_WORD) then ADVANCE_PAYMENT
    else PAYMENT
  }

  /** Writing the inferred type into the entry does not change how it is classified. */
  lemma ClassifyStable(t: Txn)
    ensures Classify(t.(txnType := Classify(t))) == Classify(t)
  {
  }

  predicate IsCashIn(txnType: string) {
    txnType == PAYMENT || txnType == ADVANCE_PAYMENT
  }

  /** The largest of a non-empty list of amounts. */
  function Max(xs: seq<real>): (m: real)
    requires |xs| > 0
    ensures forall i :: 0 <= i < |xs| ==> xs[i] <= m
    ensures exists i :: 0 <= i < |xs| && xs[i] == m
  {
    if |xs| == 1 then xs[0]
    else
      var rest := Max(xs[1..]);
      assert forall i :: 1 <= i < |xs| ==> xs[i] == xs[1..][i - 1];
      if xs[0] >= rest then xs[0] else rest
  }

  function Debits(ls: seq<JournalLine>): seq<real> {
    seq(|ls|, i requires 0 <= i < |ls| => ls[i].debit)
  }

  function Credits(ls: seq<JournalLine>): seq<real> {
    seq(|ls|, i requires 0 <= i < |ls| => ls[i].credit)
  }

  /** The entry's amount: its largest debit line, 0 when it has no lines. */
  function EntryDebit(t: Txn): (d: real)
    ensures (t.lines.None? || t.lines == Some([])) ==> d == 0.0
    ensures t.lines.Some? && |t.lines.value| > 0 ==>
      (forall i :: 0 <= i < |t.lines.value| ==> t.lines.value[i].debit <= d) &&
      (exists i :: 0 <= i < |t.lines.value| && t.lines.value[i].debit == d)
  {
    match t.lines
    case None => 0.0
    case Some(ls) =>
      if |ls| == 0 then 0.0
      else
        var d := Max(Debits(ls));
        assert forall i :: 0 <= i < |ls| ==> Debits(ls)[i] == ls[i].debit;
        assert exists i :: 0 <= i < |ls| && Debits(ls)[i] == d;
        d
  }

  /** The refunded amount of an entry: its largest credit line, 0 when it has no lines. */
  function EntryCredit(t: Txn): (c: real)
    ensures (t.lines.None? || t.lines == Some([])) ==> c == 0.0
    ensures t.lines.Some? && |t.lines.value| > 0 ==>
      (forall i :: 0 <= i < |t.lines.value| ==> t.lines.value[i].credit <= c) &&
      (exists i :: 0 <= i < |t.lines.value| && t.lines.value[i].credit == c)
  {
    match t.lines
    case None => 0.0
    case Some(ls) =>
      if |ls| == 0 then 0.0
      else
        var c := Max(Credits(ls));
        assert forall i :: 0 <= i < |ls| ==> Credits(ls)[i] == ls[i].credit;
        assert exists i :: 0 <= i < |ls| && Credits(ls)[i] == c;
        c
  }

  /** The amount the history table shows for an entry: the largest debit, 0 without lines. */
  function HistoryAmount(t: Txn): real {
    var amounts := match t.lines case Some(ls) => Debits(ls) case None => [];
    if |amounts| > 0 then Max(amounts) else 0.0
  }

  /** The paid amount and the history table agree on every entry's amount. */
  lemma EntryDebitMatchesHistory(t: Txn)
    ensures EntryDebit(t) == HistoryAmount(t)
  {
  }

  /** A JavaScript number as far as the fold needs it: a finite value, an infinity or NaN. */
  datatype Extended = NegInfinity | PosInfinity | NaN | Finite(value: real)

  /** IEEE addition: NaN absorbs, opposite infinities give NaN, an infinity absorbs finite values. */
  function ExtAdd(a: Extended, b: Extended): Extended {
    match (a, b)
    case (NaN, _) => NaN
    case (_, NaN) => NaN
    case (PosInfinity, NegInfinity) => NaN
    case (NegInfinity, PosInfinity) => NaN
    case (PosInfinity, _) => PosInfinity
    case (_, PosInfinity) => PosInfinity
    case (NegInfinity, _) => NegInfinity
    case (_, NegInfinity) => NegInfinity
    case (Finite(x), Finite(y)) => Finite(x + y)
  }

  function ExtNeg(a: Extended): Extended {
    match a
    case NaN => NaN
    case PosInfinity => NegInfinity
    case NegInfinity => PosInfinity
    case Finite(x) => Finite(-x)
  }

  /** The largest amount of a list as the spread maximum computes it: minus infinity for no amounts. */
  function SpreadMax(amounts: seq<real>): Extended {
    if |amounts| == 0 then NegInfinity else Finite(Max(amounts))
  }

  /**
   * The entry's debit as the paid-amount fold computes it: the spread maximum of the debits, where
   * a missing list is replaced by the single amount 0 but an empty list is spread as no amounts at all.
   */
  function EntryDebitAsWritten(t: Txn): Extended {
    match t.lines
    case None => Finite(0.0)
    case Some(ls) => SpreadMax(Debits(ls))
  }

  /** The refunded amount as the fold computes it, with the same treatment of line lists. */
  function EntryCreditAsWritten(t: Txn): Extended {
    match t.lines
    case None => Finite(0.0)
    case Some(ls) => SpreadMax(Credits(ls))
  }

  /** Outside the one case of an empty line list, the fold's amounts are the corrected ones. */
  lemma EntryDebitAsWrittenAgrees(t: Txn)
    requires t.lines != Some([])
    ensures EntryDebitAsWritten(t) == Finite(EntryDebit(t))
    ensures EntryCreditAsWritten(t) == Finite(EntryCredit(t))
  {
  }

  /**
   * A payment whose journal lines came back as an empty list adds minus infinity to the paid amount,
   * where the history table shows 0 for it.
   */
  lemma EmptyLinesAsWrittenIsNegInfinity()
    ensures var t := Txn(PAYMENT, "booking", "b1", "", Some([]));
      Classify(t) == PAYMENT && EntryDebitAsWritten(t) == NegInfinity && HistoryAmount(t) == 0.0
  {
  }

  /** What one entry adds to the paid amount. */
  function Contribution(t: Txn): real {
    var txnType := Classify(t);
    if txnType == INVOICE_ISSUE then 0.0
    else if IsCashIn(txnType) then EntryDebit(t)
    else if txnType == REFUND then -EntryCredit(t)
    else 0.0
  }

  /** `paidAmount`: the left fold of the entries' contributions, starting at 0. */
  function Paid(ts: seq<Txn>): real
    decreases |ts|
  {
    if ts == [] then 0.0 else Paid(ts[..|ts| - 1]) + Contribution(ts[|ts| - 1])
  }

  /** What one entry adds to the paid amount as the fold is written. */
  function ContributionAsWritten(t: Txn): Extended {
    var txnType := Classify(t);
    if txnType == INVOICE_ISSUE then Finite(0.0)
    else if IsCashIn(txnType) then EntryDebitAsWritten(t)
    else if txnType == REFUND then ExtNeg(EntryCreditAsWritten(t))
    else Finite(0.0)
  }

  /** The paid amount as the fold is written, over JavaScript numbers. */
  function PaidAsWritten(ts: seq<Txn>): Extended
    decreases |ts|
  {
    if ts == [] then Finite(0.0) else ExtAdd(PaidAsWritten(ts[..|ts| - 1]), ContributionAsWritten(ts[|ts| - 1]))
  }

  /** No entry of the journal comes with an empty line list. */
  predicate NoEmptyLines(ts: seq<Txn>) {
    forall i :: 0 <= i < |ts| ==> ts[i].lines != Some([])
  }

  /** When no entry comes with an empty line list, the fold as written computes the corrected paid amount. */
  lemma {:induction false} PaidAsWrittenAgrees(ts: seq<Txn>)
    requires NoEmptyLines(ts)
    ensures PaidAsWritten(ts) == Finite(Paid(ts))
    decreases |ts|
  {
    if ts != [] {
      var init := ts[..|ts| - 1];
      assert NoEmptyLines(init) by {
        forall i | 0 <= i < |init| ensures init[i].lines != Some([]) {
          assert init[i] == ts[i];
        }
      }
      PaidAsWrittenAgrees(init);
      ContributionAsWrittenAgrees(ts[|ts| - 1]);
      assert PaidAsWritten(ts) == ExtAdd(Finite(Paid(init)), Finite(Contribution(ts[|ts| - 1])));
    }
  }

  lemma ContributionAsWrittenAgrees(t: Txn)
    requires t.lines != Some([])
    ensures ContributionAsWritten(t) == Finite(Contribution(t))
  {
    EntryDebitAsWrittenAgrees(t);
  }

  /** A refund with an empty line list makes the fold's paid amount plus infinity; the corrected amount is 0. */
  lemma EmptyRefundAsWrittenIsPosInfinity()
    ensures var t := Txn(REFUND, "booking", "b1", "", Some([]));
      Classify(t) == REFUND && PaidAsWritten([t]) == PosInfinity && Paid([t]) == 0.0
  {
    var t := Txn(REFUND, "booking", "b1", "", Some([]));
    assert Classify(t) == REFUND;
    assert ContributionAsWritten(t) == PosInfinity;
    assert [t][..0] == [];
  }

  /** An empty-lined payment and an empty-lined refund together leave the fold at NaN. */
  lemma EmptyPaymentAndRefundAsWrittenIsNaN()
    ensures var p := Txn(PAYMENT, "booking", "b1", "", Some([]));
      var r := Txn(REFUND, "booking", "b1", "", Some([]));
      PaidAsWritten([p, r]) == NaN && Paid([p, r]) == 0.0
  {
    var p := Txn(PAYMENT, "booking", "b1", "", Some([]));
    var r := Txn(REFUND, "booking", "b1", "", Some([]));
    assert Classify(p) == PAYMENT && Classify(r) == REFUND;
    assert ContributionAsWritten(p) == NegInfinity && ContributionAsWritten(r) == PosInfinity;
    assert [p, r][..1] == [p];
    assert [p][..0] == [];
    assert Contribution(p) == 0.0 && Contribution(r) == 0.0;
    assert Paid([p]) == 0.0;
  }

  /** Money received: the amounts of all payment and advance-payment entries, summed from the front. */
  function Received(ts: seq<Txn>): real {
    if ts == [] then 0.0 else (if IsCashIn(Classify(ts[0])) then EntryDebit(ts[0]) else 0.0) + Received(ts[1..])
  }

  /** Money returned: the amounts of all refund entries, summed from the front. */
  function Refunded(ts: seq<Txn>): real {
    if ts == [] then 0.0 else (if Classify(ts[0]) == REFUND then EntryCredit(ts[0]) else 0.0) + Refunded(ts[1..])
  }

  /** A new entry in front of the list (the newest-first order the journal is loaded in) adds its contribution. */
  lemma {:induction false} PaidPrepend(t: Txn, ts: seq<Txn>)
    ensures Paid([t] + ts) == Contribution(t) + Paid(ts)
    decreases |ts|
  {
    if ts != [] {
      assert ([t] + ts)[..|ts|] == [t] + ts[..|ts| - 1];
      assert ([t] + ts)[|ts|] == ts[|ts| - 1];
      PaidPrepend(t, ts[..|ts| - 1]);
    } else {
      assert ([t] + ts)[..0] == [];
    }
  }

  /** The paid amount is what was received minus what was refunded; invoices and credit notes count for nothing. */
  lemma {:induction false} PaidIsReceivedMinusRefunded(ts: seq<Txn>)
    ensures Paid(ts) == Received(ts) - Refunded(ts)
  {
    if ts != [] {
      assert ts == [ts[0]] + ts[1..];
      PaidPrepend(ts[0], ts[1..]);
      PaidIsReceivedMinusRefunded(ts[1..]);
    }
  }

  /** Only payments, advance payments and refunds move the paid amount. */
  lemma {:induction false} PaidIgnoresNonCash(ts: seq<Txn>)
    requires forall i :: 0 <= i < |ts| ==> !IsCashIn(Classify(ts[i])) && Classify(ts[i]) != REFUND
    ensures Paid(ts) == 0.0
  {
    PaidIsReceivedMinusRefunded(ts);
    NoCashReceived(ts);
  }

  lemma {:induction false} NoCashReceived(ts: seq<Txn>)
    requires forall i :: 0 <= i < |ts| ==> !IsCashIn(Classify(ts[i])) && Classify(ts[i]) != REFUND
    ensures Received(ts) == 0.0 && Refunded(ts) == 0.0
  {
    if ts != [] {
      assert forall i :: 0 <= i < |ts[1..]| ==> ts[1..][i] == ts[i + 1];
      NoCashReceived(ts[1..]);
    }
  }

  /** The booking's total price, 0 when it has none. */
  function TotalAmount(totalPrice: Option<real>): real {
    totalPrice.GetOr(0.0)
  }

  /** `remainingAmount`: the total still owed once refunds are given back. */
  function Remaining(totalPrice: Option<real>, ts: seq<Txn>): (r: real)
    ensures r == TotalAmount(totalPrice) - Received(ts) + Refunded(ts)
  {
    PaidIsReceivedMinusRefunded(ts);
    TotalAmount(totalPrice) - Paid(ts)
  }

  /** The summary panel offers the pay button (pre-filled with the remaining amount) when something is owed. */
  predicate ShowsPayButton(totalPrice: Option<real>, ts: seq<Txn>) {
    Remaining(totalPrice, ts) > 0.0
  }

  /** The summary panel shows the "fully paid" banner when nothing is owed. */
  predicate ShowsPaidBanner(totalPrice: Option<real>, ts: seq<Txn>) {
    Remaining(totalPrice, ts) <= 0.0
  }

  /**
   * The panel shows exactly one of the pay button and the banner: the button while the money kept
   * (received less refunded) is short of the total, the banner once it covers it.
   */
  lemma PanelShowsExactlyOne(totalPrice: Option<real>, ts: seq<Txn>)
    ensures ShowsPayButton(totalPrice, ts) <==> Received(ts) - Refunded(ts) < TotalAmount(totalPrice)
    ensures ShowsPaidBanner(totalPrice, ts) <==> Received(ts) - Refunded(ts) >= TotalAmount(totalPrice)
    ensures ShowsPayButton(totalPrice, ts) != ShowsPaidBanner(totalPrice, ts)
  {
  }

  /** Paying exactly the pre-filled amount settles the booking: the banner replaces the button. */
  /** The balance as the screen computes it from the fold as written. */
  function RemainingAsWritten(totalPrice: Option<real>, ts: seq<Txn>): Extended {
    ExtAdd(Finite(TotalAmount(totalPrice)), ExtNeg(PaidAsWritten(ts)))
  }

  /** JavaScript's `> 0` and `<= 0` on a number: NaN satisfies neither. */
  predicate ExtPositive(x: Extended) {
    x.PosInfinity? || (x.Finite? && x.value > 0.0)
  }

  predicate ExtNonPositive(x: Extended) {
    x.NegInfinity? || (x.Finite? && x.value <= 0.0)
  }

  /** The pay button and the banner as the screen decides them. */
  predicate ShowsPayButtonAsWritten(totalPrice: Option<real>, ts: seq<Txn>) {
    ExtPositive(RemainingAsWritten(totalPrice, ts))
  }

  predicate ShowsPaidBannerAsWritten(totalPrice: Option<real>, ts: seq<Txn>) {
    ExtNonPositive(RemainingAsWritten(totalPrice, ts))
  }

  /** Without empty line lists the screen shows the panel the corrected balance calls for. */
  lemma PanelAsWrittenAgrees(totalPrice: Option<real>, ts: seq<Txn>)
    requires NoEmptyLines(ts)
    ensures RemainingAsWritten(totalPrice, ts) == Finite(Remaining(totalPrice, ts))
    ensures ShowsPayButtonAsWritten(totalPrice, ts) <==> ShowsPayButton(totalPrice, ts)
    ensures ShowsPaidBannerAsWritten(totalPrice, ts) <==> ShowsPaidBanner(totalPrice, ts)
  {
    PaidAsWrittenAgrees(ts);
  }

  /**
   * What the user sees when entries come with empty line lists: an empty refund shows the
   * fully-paid banner on an unpaid booking, an empty payment shows the pay button on a booking with
   * nothing owed (pre-filled with an infinite amount), and both together show neither panel.
   */
  lemma PanelAsWrittenWithEmptyLines()
    ensures var r := Txn(REFUND, "booking", "b1", "", Some([]));
      && RemainingAsWritten(Some(1000.0), [r]) == NegInfinity
      && ShowsPaidBannerAsWritten(Some(1000.0), [r]) && !ShowsPayButtonAsWritten(Some(1000.0), [r])
      && ShowsPayButton(Some(1000.0), [r])
    ensures var p := Txn(PAYMENT, "booking", "b1", "", Some([]));
      && RemainingAsWritten(None, [p]) == PosInfinity
      && ShowsPayButtonAsWritten(None, [p]) && !ShowsPaidBannerAsWritten(None, [p])
      && ShowsPaidBanner(None, [p])
    ensures var p := Txn(PAYMENT, "booking", "b1", "", Some([]));
      var r := Txn(REFUND, "booking", "b1", "", Some([]));
      && RemainingAsWritten(Some(1000.0), [p, r]) == NaN
      && !ShowsPayButtonAsWritten(Some(1000.0), [p, r]) && !ShowsPaidBannerAsWritten(Some(1000.0), [p, r])
  {
    var p := Txn(PAYMENT, "booking", "b1", "", Some([]));
    var r := Txn(REFUND, "booking", "b1", "", Some([]));
    EmptyRefundAsWrittenIsPosInfinity();
    EmptyPaymentAndRefundAsWrittenIsNaN();
    assert Classify(p) == PAYMENT && ContributionAsWritten(p) == NegInfinity;
    assert [p][..0] == [];
    assert PaidAsWritten([p]) == NegInfinity;
    assert Contribution(p) == 0.0 && Contribution(r) == 0.0;
    assert Paid([p]) == 0.0 && Paid([r]) == 0.0;
  }

  lemma SettlingPaymentShowsBanner(totalPrice: Option<real>, ts: seq<Txn>, t: Txn)
    requires ShowsPayButton(totalPrice, ts)
    requires IsCashIn(Classify(t)) && EntryDebit(t) == Remaining(totalPrice, ts)
    ensures Remaining(totalPrice, [t] + ts) == 0.0
    ensures ShowsPaidBanner(totalPrice, [t] + ts) && !ShowsPayButton(totalPrice, [t] + ts)
  {
    PaidPrepend(t, ts);
  }

  /** Some entry of the journal classifies as an invoice issue. */
  function HasInvoiceIssue(ts: seq<Txn>): (b: bool)
    ensures b <==> exists i :: 0 <= i < |ts| && Classify(ts[i]) == INVOICE_ISSUE
  {
    if ts == [] then false
    else
      assert forall i :: 1 <= i < |ts| ==> ts[i] == ts[1..][i - 1];
      Classify(ts[0]) == INVOICE_ISSUE || HasInvoiceIssue(ts[1..])
  }

  /** The type of a new payment: a settlement once the invoice has been issued, an advance before. */
  function NewPaymentType(ts: seq<Txn>): (r: string)
    ensures r == PAYMENT <==> exists i :: 0 <= i < |ts| && Classify(ts[i]) == INVOICE_ISSUE
    ensures r == ADVANCE_PAYMENT <==> !exists i :: 0 <= i < |ts| && Classify(ts[i]) == INVOICE_ISSUE
  {
    if HasInvoiceIssue(ts) then PAYMENT else ADVANCE_PAYMENT
  }

  /** The description used when the form gives none. */
  function DefaultDescription(txnType: string): (r: string)
    ensures r != ""
  {
    if txnType == ADVANCE_PAYMENT then "عربون / دفعة مقدمة" else "سداد مستحقات"
  }

  /** The reference-number tag appended to a payment description. */
  function RefTag(reference: string): string {
    "(Ref: " + reference + ")"
  }

  /** `fullDescription`: the form's description and reference tag, joined, trimmed, or else the default. */
  function PaymentDescription(description: string, reference: string, txnType: string): (r: string)
    ensures r != ""
    ensures reference == "" ==> r == (if Trim(description) != "" then Trim(description) else DefaultDescription(txnType))
    ensures reference != "" ==>
      r == (if Trim(description) == "" then RefTag(reference) else TrimStart(description) + " " + RefTag(reference))
  {
    var tag := if reference != "" then RefTag(reference) else "";
    var joined := Join(NonEmpty([description, tag]), " ");
    var full := Trim(joined);
    DescriptionCases(description, reference);
    if full != "" then full else DefaultDescription(txnType)
  }

  lemma DescriptionCases(description: string, reference: string)
    ensures var tag := if reference != "" then RefTag(reference) else "";
      var full := Trim(Join(NonEmpty([description, tag]), " "));
      && (reference == "" ==> full == Trim(description))
      && (reference != "" ==>
            full == (if Trim(description) == "" then RefTag(reference) else TrimStart(description) + " " + RefTag(reference)))
  {
    var tag := if reference != "" then RefTag(reference) else "";
    JoinTwo(description, tag);
    if reference == "" {
      assert Trim("") == "";
    } else {
      assert tag[0] == '(' && tag[|tag| - 1] == ')';
      TrimWithTag(description, tag);
    }
  }

  /** Dropping the empty one of two parts and joining the rest with a space. */
  lemma JoinTwo(a: string, b: string)
    ensures Join(NonEmpty([a, b]), " ") == if a == "" then b else if b == "" then a else a + " " + b
  {
    assert [a, b][1..] == [b];
    assert [b][1..] == [];
    assert NonEmpty([b]) == (if b != "" then [b] else []) + NonEmpty([]);
    assert NonEmpty([a, b]) == (if a != "" then [a] else []) + (if b != "" then [b] else []);
    if a != "" && b != "" {
      assert [a, b][1..] == [b];
    }
  }

  /** Trimming a description followed by a tag that starts and ends with visible characters. */
  lemma TrimWithTag(description: string, tag: string)
    requires tag != "" && !IsSpace(tag[0]) && !IsSpace(tag[|tag| - 1])
    ensures Trim(if description == "" then tag else description + " " + tag)
      == (if Trim(description) == "" then tag else TrimStart(description) + " " + tag)
  {
    TrimEmptyIffAllSpace(description);
    TrimStartEmptyIffAllSpace(description);
    if description == "" {
      TrimOfVisibleEnds(tag);
    } else if Trim(description) == "" {
      TrimBlankThenTag(description, tag);
    } else {
      TrimTextThenTag(description, tag);
    }
  }

  lemma TrimBlankThenTag(description: string, tag: string)
    requires tag != "" && !IsSpace(tag[0]) && !IsSpace(tag[|tag| - 1])
    requires AllSpace(description)
    ensures Trim(description + " " + tag) == tag
  {
    assert AllSpace(description + " ") by {
      forall i | 0 <= i < |description + " "| ensures IsSpace((description + " ")[i]) {
        if i < |description| { assert (description + " ")[i] == description[i]; }
      }
    }
    TrimStartAfterSpace(description + " ", tag);
    TrimOfVisibleEnds(tag);
  }

  lemma TrimTextThenTag(description: string, tag: string)
    requires tag != "" && !IsSpace(tag[|tag| - 1])
    requires TrimStart(description) != ""
    ensures Trim(description + " " + tag) == TrimStart(description) + " " + tag
  {
    var tail := " " + tag;
    assert tail[|tail| - 1] == tag[|tag| - 1];
    SeqAssoc(description, " ", tag);
    TrimKeepsVisibleTail(description, tail);
    SeqAssoc(TrimStart(description), " ", tag);
  }

  lemma SeqAssoc(a: string, b: string, c: string)
    ensures a + b + c == a + (b + c)
  {
  }

  /** What the form holds in its amount field: nothing, or a number. */
  datatype AmountField = Blank | Entered(value: real)

  datatype PaymentForm = PaymentForm(
    amount: AmountField,
    methodId: string,
    description: string,
    reference: string,
    date: int)

  datatype FormError = MissingAmount | MissingMethod

  /** The two checks `handlePaymentSubmit` makes before anything is posted, in order. */
  function CheckPaymentForm(f: PaymentForm): (r: Option<FormError>)
    ensures r == None <==> f.amount.Entered? && f.methodId != ""
    ensures r == Some(MissingAmount) <==> f.amount.Blank?
    ensures r == Some(MissingMethod) <==> f.amount.Entered? && f.methodId == ""
  {
    if f.amount.Blank? then Some(MissingAmount)
    else if f.methodId == "" then Some(MissingMethod)
    else None
  }

  /** `INV-` followed by the booking number, or by the first eight characters of the booking id upper-cased. */
  function InvoiceNumber(bookingNumber: string, bookingId: string): (r: string)
    ensures |r| >= 4 && r[..4] == "INV-"
    ensures bookingNumber != "" ==> r[4..] == bookingNumber
    ensures bookingNumber == "" ==>
      |r| == 4 + (if |bookingId| < 8 then |bookingId| else 8) &&
      forall i :: 0 <= i < |r| - 4 ==> r[4 + i] == UpperChar(bookingId[i])
  {
    "INV-" + (if bookingNumber != "" then bookingNumber else Upper(Take(bookingId, 8)))
  }

  // Invoices.

  const DRAFT := "draft"
  const POSTED := "posted"

  datatype Invoice = Invoice(id: string, number: string, status: string)

  /**
   * The invoice the issuing handlers end up with: a missing one is created already posted under
   * `freshId` (the id the database assigns) and `number`; a draft is posted; any other is kept.
   */
  function Issue(inv: Option<Invoice>, freshId: string, number: string): Invoice {
    match inv
    case None => Invoice(freshId, number, POSTED)
    case Some(i) => if i.status == DRAFT then i.(status := POSTED) else i
  }

  /** Issuing an existing invoice keeps its id and number. */
  lemma IssueKeepsIdentity(inv: Invoice, freshId: string, number: string)
    ensures Issue(Some(inv), freshId, number).id == inv.id
    ensures Issue(Some(inv), freshId, number).number == inv.number
  {
  }

  /** A missing, draft or posted invoice is posted afterwards; an invoice in any other status is left as it was. */
  lemma IssuePosts(inv: Option<Invoice>, freshId: string, number: string)
    ensures (inv.None? || inv.value.status in {DRAFT, POSTED}) ==> Issue(inv, freshId, number).status == POSTED
    ensures inv.Some? && inv.value.status !in {DRAFT, POSTED} ==> Issue(inv, freshId, number) == inv.value
  {
  }

  /** The issue-invoice button is shown only while the booking has no invoice. */
  predicate ShowsIssueButton(inv: Option<Invoice>) {
    inv.None?
  }

  /** Issuing twice is issuing once. */
  lemma IssueIdempotent(inv: Option<Invoice>, freshId: string, number: string, freshId': string, number': string)
    ensures Issue(Some(Issue(inv, freshId, number)), freshId', number') == Issue(inv, freshId, number)
  {
  }

  /** The journal entry `post_transaction` records for an issued invoice. */
  function InvoiceEntry(inv: Invoice, lines: Option<seq<JournalLine>>): Txn {
    Txn(INVOICE_ISSUE, "invoice", inv.id, SALES_INVOICE + " #" + inv.number, lines)
  }

  /** The journal entry `post_transaction` records for a payment on the booking. */
  function PaymentEntry(txnType: string, bookingId: string, description: string, lines: Option<seq<JournalLine>>): Txn {
    Txn(txnType, "booking", bookingId, description, lines)
  }

  /** The entry posts the issue of invoice `invoiceId`. */
  predicate IssuesInvoice(t: Txn, invoiceId: string) {
    t.referenceId == invoiceId && Classify(t) == INVOICE_ISSUE
  }

  /** How many entries post the issue of invoice `invoiceId`. */
  function InvoiceIssueCount(ts: seq<Txn>, invoiceId: string): nat {
    if ts == [] then 0 else (if IssuesInvoice(ts[0], invoiceId) then 1 else 0) + InvoiceIssueCount(ts[1..], invoiceId)
  }

  /** The check-in guard `hasInvoiceTxn`: some entry already posts the issue of this invoice. */
  function HasInvoiceTxn(ts: seq<Txn>, invoiceId: string): (b: bool)
    ensures b <==> exists i :: 0 <= i < |ts| && IssuesInvoice(ts[i], invoiceId)
    ensures b <==> InvoiceIssueCount(ts, invoiceId) > 0
  {
    if ts == [] then false
    else
      assert forall i :: 1 <= i < |ts| ==> ts[i] == ts[1..][i - 1];
      IssuesInvoice(ts[0], invoiceId) || HasInvoiceTxn(ts[1..], invoiceId)
  }

  lemma InvoiceIssueCountPrepend(t: Txn, ts: seq<Txn>, invoiceId: string)
    ensures InvoiceIssueCount([t] + ts, invoiceId) == (if IssuesInvoice(t, invoiceId) then 1 else 0) + InvoiceIssueCount(ts, invoiceId)
  {
    assert ([t] + ts)[1..] == ts;
  }

  /** No invoice has its issue posted more than once. */
  ghost predicate PostedOnce(ts: seq<Txn>) {
    forall invoiceId :: InvoiceIssueCount(ts, invoiceId) <= 1
  }

  /** Posting an invoice's issue into a journal that has none for it keeps every issue posted at most once. */
  lemma PostInvoiceKeepsPostedOnce(ts: seq<Txn>, inv: Invoice, lines: Option<seq<JournalLine>>)
    requires PostedOnce(ts) && !HasInvoiceTxn(ts, inv.id)
    ensures PostedOnce([InvoiceEntry(inv, lines)] + ts)
  {
    forall invoiceId ensures InvoiceIssueCount([InvoiceEntry(inv, lines)] + ts, invoiceId) <= 1 {
      InvoiceIssueCountPrepend(InvoiceEntry(inv, lines), ts, invoiceId);
    }
  }

  /** Recording a payment keeps every invoice posted at most once. */
  lemma PostPaymentKeepsPostedOnce(ts: seq<Txn>, view: seq<Txn>, bookingId: string, description: string, lines: Option<seq<JournalLine>>)
    requires PostedOnce(ts)
    ensures PostedOnce([PaymentEntry(NewPaymentType(view), bookingId, description, lines)] + ts)
  {
    PostOtherKeepsPostedOnce(ts, PaymentEntry(NewPaymentType(view), bookingId, description, lines));
  }

  /** Posting an invoice's issue changes neither the paid amount nor the balance. */
  lemma PostInvoiceKeepsPaid(ts: seq<Txn>, inv: Invoice, totalPrice: Option<real>, lines: Option<seq<JournalLine>>)
    ensures Paid([InvoiceEntry(inv, lines)] + ts) == Paid(ts)
    ensures Remaining(totalPrice, [InvoiceEntry(inv, lines)] + ts) == Remaining(totalPrice, ts)
  {
    PaidPrepend(InvoiceEntry(inv, lines), ts);
  }

  /** A recorded payment adds its debit to the paid amount and takes it off the balance. */
  lemma PostPaymentRaisesPaid(ts: seq<Txn>, view: seq<Txn>, totalPrice: Option<real>, bookingId: string, description: string,
                              lines: Option<seq<JournalLine>>)
    ensures var e := PaymentEntry(NewPaymentType(view), bookingId, description, lines);
      && Paid([e] + ts) == Paid(ts) + EntryDebit(e)
      && Remaining(totalPrice, [e] + ts) == Remaining(totalPrice, ts) - EntryDebit(e)
  {
    var e := PaymentEntry(NewPaymentType(view), bookingId, description, lines);
    PaidPrepend(e, ts);
  }

  /** Entries that are not invoice issues leave the count alone. */
  lemma PostOtherKeepsPostedOnce(ts: seq<Txn>, t: Txn)
    requires PostedOnce(ts) && Classify(t) != INVOICE_ISSUE
    ensures PostedOnce([t] + ts)
  {
    forall invoiceId ensures InvoiceIssueCount([t] + ts, invoiceId) <= 1 {
      InvoiceIssueCountPrepend(t, ts, invoiceId);
    }
  }
}
