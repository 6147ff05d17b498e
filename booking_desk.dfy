/**
 * The handlers of the booking details screen (frontend/src/components/bookings/BookingDetails.tsx)
 * as a class over the state they change: the booking and unit status in the database, the booking's
 * invoice, the journal entries stored for the booking and its invoice (newest first, as the screen
 * loads them), and the screen's own copy of those entries.
 *
 * Each database call either succeeds or fails as the `fault` parameter says; a fault named for a
 * step the handler does not reach or does not make has no effect. The lines `post_transaction`
 * writes are a parameter, since that procedure is not part of this model.
 */
module BookingDesk {
  import opened Wrappers
  import opened Ledger
  import opened Lifecycle

  /** The database call that fails, if any. */
  datatype Fault =
    | NoFault
    | InvoiceWriteFails   // inserting or updating the invoice row
    | ProcedureFails      // the `post_transaction` or `cancel_booking_fully` procedure
    | BookingWriteFails   // updating the booking's status
    | UnitWriteFails      // updating the unit's status
    | NoOpenPeriod        // no open accounting period for the payment date

  datatype PaymentOutcome =
    | Rejected(error: FormError)
    | Failed
    | Recorded(txnType: string, description: string)

  class Desk {
    const bookingId: string
    const bookingNumber: string
    const unitId: string  // "" when the booking has no unit
    const totalPrice: Option<real>

    var status: string
    var unitStatus: string
    var invoice: Option<Invoice>
    var journal: seq<Txn>
    var transactions: seq<Txn>

    /** The screen as it opens: its copy of the entries is the stored journal. */
    constructor (bookingId: string, bookingNumber: string, unitId: string, totalPrice: Option<real>,
                 status: string, unitStatus: string, invoice: Option<Invoice>, journal: seq<Txn>)
      ensures this.bookingId == bookingId && this.bookingNumber == bookingNumber
      ensures this.unitId == unitId && this.totalPrice == totalPrice
      ensures this.status == status && this.unitStatus == unitStatus
      ensures this.invoice == invoice && this.journal == journal && this.transactions == journal
    {
      this.bookingId, this.bookingNumber, this.unitId, this.totalPrice := bookingId, bookingNumber, unitId, totalPrice;
      this.status, this.unitStatus, this.invoice := status, unitStatus, invoice;
      this.journal, this.transactions := journal, journal;
    }

    /** The amount the payment panel shows as paid, from the screen's copy of the entries. */
    function PaidAmount(): real
      reads this
    {
      Paid(transactions)
    }

    /** The balance the payment panel shows. */
    function RemainingAmount(): real
      reads this
    {
      Remaining(totalPrice, transactions)
    }

    /** The invoice number a new invoice gets. */
    function NewInvoiceNumber(): string {
      InvoiceNumber(bookingNumber, bookingId)
    }

    /** The issuing handlers write the invoice row when there is none or it is a draft. */
    function WritesInvoice(inv: Option<Invoice>): bool {
      inv.None? || inv.value.status == DRAFT
    }

    /** The screen reloads its data from the database (`router.refresh` and the props sync). */
    method Reload()
      modifies this`transactions
      ensures transactions == journal
    {
      transactions := journal;
    }

    /**
     * `handleIssueInvoice`: issue the invoice, then post its `invoice_issue` entry. The handler
     * also covers a draft invoice, but the screen shows its button only while the booking has no
     * invoice (`ShowsIssueButton`); started from there, it never posts an invoice twice. `freshId` is
     * the id the database gives a new invoice row, which no stored entry refers to yet.
     */
    method IssueInvoice(approved: bool, freshId: string, lines: Option<seq<JournalLine>>, fault: Fault) returns (done: bool)
      requires !HasInvoiceTxn(journal, freshId)
      modifies this`invoice, this`journal, this`transactions
      ensures var target := Issue(old(invoice), freshId, NewInvoiceNumber());
        && done == (approved && !(WritesInvoice(old(invoice)) && fault == InvoiceWriteFails) && fault != ProcedureFails)
        && (!approved || (WritesInvoice(old(invoice)) && fault == InvoiceWriteFails) ==>
              invoice == old(invoice) && journal == old(journal) && transactions == old(transactions))
        && (approved && !(WritesInvoice(old(invoice)) && fault == InvoiceWriteFails) ==> invoice == Some(target))
        && (approved && !(WritesInvoice(old(invoice)) && fault == InvoiceWriteFails) && fault == ProcedureFails ==>
              journal == old(journal) && transactions == old(transactions))
        && (done ==> journal == [InvoiceEntry(target, lines)] + old(journal) && transactions == journal)
      ensures old(ShowsIssueButton(invoice)) && old(PostedOnce(journal)) ==> PostedOnce(journal)
      ensures done ==> invoice.Some? && HasInvoiceTxn(journal, invoice.value.id)
      ensures done ==> PaidAmount() == Paid(old(journal)) && RemainingAmount() == Remaining(totalPrice, old(journal))
    {
      if !approved {
        return false;
      }
      var target := invoice;
      if WritesInvoice(target) {
        if fault == InvoiceWriteFails {
          return false;
        }
        target := Some(Issue(invoice, freshId, NewInvoiceNumber()));
        invoice := target;
      }
      if fault == ProcedureFails {
        return false;
      }
      journal := [InvoiceEntry(target.value, lines)] + journal;
      if old(invoice).None? && old(PostedOnce(journal)) {
        PostInvoiceKeepsPostedOnce(old(journal), target.value, lines);
      }
      assert IssuesInvoice(journal[0], target.value.id);
      PostInvoiceKeepsPaid(old(journal), target.value, totalPrice, lines);
      Reload();
      return true;
    }

    /**
     * `handleCheckIn`: issue the invoice, post its `invoice_issue` entry unless `view` already holds
     * one for it, mark the booking checked in and the unit occupied. The unit update's own error is
     * not looked at, and the screen reloads only when the handler gets to the end.
     */
    method CheckInWith(view: seq<Txn>, approved: bool, freshId: string, lines: Option<seq<JournalLine>>, fault: Fault)
      returns (done: bool)
      modifies this`status, this`unitStatus, this`invoice, this`journal, this`transactions
      ensures var target := Issue(old(invoice), freshId, NewInvoiceNumber());
        var invoiced := approved && !(WritesInvoice(old(invoice)) && fault == InvoiceWriteFails);
        var posts := !HasInvoiceTxn(view, target.id);
        var postingRuns := invoiced && !(posts && fault == ProcedureFails);
        && done == (postingRuns && fault != BookingWriteFails)
        && invoice == (if invoiced then Some(target) else old(invoice))
        && journal == (if postingRuns && posts then [InvoiceEntry(target, lines)] + old(journal) else old(journal))
        && status == (if done then StatusAfter(old(status), Action.CheckIn) else old(status))
        && unitStatus == (if done && unitId != "" && fault != UnitWriteFails then UnitStatusAfter(old(unitStatus), Action.CheckIn) else old(unitStatus))
        && transactions == (if done then journal else old(transactions))
    {
      if !approved {
        return false;
      }
      var target := invoice;
      if WritesInvoice(target) {
        if fault == InvoiceWriteFails {
          return false;
        }
        target := Some(Issue(invoice, freshId, NewInvoiceNumber()));
        invoice := target;
      }
      var alreadyPosted := HasInvoiceTxn(view, target.value.id);
      if !alreadyPosted {
        if fault == ProcedureFails {
          return false;
        }
        journal := [InvoiceEntry(target.value, lines)] + journal;
      }
      if fault == BookingWriteFails {
        return false;
      }
      status := CHECKED_IN;
      if unitId != "" && fault != UnitWriteFails {
        unitStatus := OCCUPIED;
      }
      Reload();
      return true;
    }

    /** Check-in as the screen does it: the guard reads the screen's copy of the entries. */
    method CheckInAsWritten(approved: bool, freshId: string, lines: Option<seq<JournalLine>>, fault: Fault) returns (done: bool)
      modifies this`status, this`unitStatus, this`invoice, this`journal, this`transactions
      ensures var target := Issue(old(invoice), freshId, NewInvoiceNumber());
        var invoiced := approved && !(WritesInvoice(old(invoice)) && fault == InvoiceWriteFails);
        var posts := !HasInvoiceTxn(old(transactions), target.id);
        var postingRuns := invoiced && !(posts && fault == ProcedureFails);
        && done == (postingRuns && fault != BookingWriteFails)
        && invoice == (if invoiced then Some(target) else old(invoice))
        && journal == (if postingRuns && posts then [InvoiceEntry(target, lines)] + old(journal) else old(journal))
        && status == (if done then StatusAfter(old(status), Action.CheckIn) else old(status))
        && unitStatus == (if done && unitId != "" && fault != UnitWriteFails then UnitStatusAfter(old(unitStatus), Action.CheckIn) else old(unitStatus))
        && transactions == (if done then journal else old(transactions))
    {
      done := CheckInWith(transactions, approved, freshId, lines, fault);
    }

    /**
     * Check-in with the guard reading the stored journal, so that no invoice is ever posted twice.
     */
    method CheckIn(approved: bool, freshId: string, lines: Option<seq<JournalLine>>, fault: Fault) returns (done: bool)
      modifies this`status, this`unitStatus, this`invoice, this`journal, this`transactions
      ensures var target := Issue(old(invoice), freshId, NewInvoiceNumber());
        var invoiced := approved && !(WritesInvoice(old(invoice)) && fault == InvoiceWriteFails);
        var posts := !HasInvoiceTxn(old(journal), target.id);
        var postingRuns := invoiced && !(posts && fault == ProcedureFails);
        && done == (postingRuns && fault != BookingWriteFails)
        && invoice == (if invoiced then Some(target) else old(invoice))
        && journal == (if postingRuns && posts then [InvoiceEntry(target, lines)] + old(journal) else old(journal))
        && status == (if done then StatusAfter(old(status), Action.CheckIn) else old(status))
        && unitStatus == (if done && unitId != "" && fault != UnitWriteFails then UnitStatusAfter(old(unitStatus), Action.CheckIn) else old(unitStatus))
        && transactions == (if done then journal else old(transactions))
      ensures old(PostedOnce(journal)) ==> PostedOnce(journal)
      ensures done ==> invoice.Some? && HasInvoiceTxn(journal, invoice.value.id)
    {
      ghost var before := journal;
      done := CheckInWith(journal, approved, freshId, lines, fault);
      if journal != before && PostedOnce(before) {
        PostInvoiceKeepsPostedOnce(before, invoice.value, lines);
      }
      if done && journal != before {
        assert IssuesInvoice(journal[0], invoice.value.id);
      }
    }

    /** `handleCheckOut`: mark the booking checked out and the unit as needing cleaning. */
    method CheckOut(approved: bool, fault: Fault) returns (done: bool)
      modifies this`status, this`unitStatus, this`transactions
      ensures done == (approved && fault != BookingWriteFails)
      ensures status == (if done then StatusAfter(old(status), Action.CheckOut) else old(status))
      ensures unitStatus == (if done && unitId != "" && fault != UnitWriteFails then UnitStatusAfter(old(unitStatus), Action.CheckOut) else old(unitStatus))
      ensures transactions == (if done then journal else old(transactions))
    {
      if !approved || fault == BookingWriteFails {
        return false;
      }
      status := CHECKED_OUT;
      if unitId != "" && fault != UnitWriteFails {
        unitStatus := CLEANING;
      }
      Reload();
      return true;
    }

    /**
     * `handleCancelBooking`: `cancel_booking_fully` cancels the booking and archives its journal
     * entries and invoice, as the confirmation prompt announces.
     */
    method CancelBooking(approved: bool, fault: Fault) returns (done: bool)
      modifies this`status, this`invoice, this`journal, this`transactions
      ensures done == (approved && fault != ProcedureFails)
      ensures done ==> status == StatusAfter(old(status), Cancel) && invoice == None && journal == [] && transactions == []
      ensures !done ==> status == old(status) && invoice == old(invoice) && journal == old(journal) && transactions == old(transactions)
    {
      if !approved || fault == ProcedureFails {
        return false;
      }
      status := CANCELLED;
      invoice := None;
      journal := [];
      Reload();
      return true;
    }

    /**
     * `handlePaymentSubmit`: check the form, require an open accounting period, post a payment typed
     * and described by the screen's rules, confirm a pending booking on a positive amount (that
     * update's error is not looked at) and reload the entries.
     */
    method SubmitPayment(form: PaymentForm, lines: Option<seq<JournalLine>>, fault: Fault) returns (outcome: PaymentOutcome)
      modifies this`status, this`journal, this`transactions
      ensures CheckPaymentForm(form).Some? ==> outcome == Rejected(CheckPaymentForm(form).value)
      ensures CheckPaymentForm(form).None? && (fault == NoOpenPeriod || fault == ProcedureFails) ==> outcome == Failed
      ensures outcome.Rejected? || outcome.Failed? ==>
        status == old(status) && journal == old(journal) && transactions == old(transactions)
      ensures outcome.Recorded? ==>
        var txnType := NewPaymentType(old(transactions));
        var description := PaymentDescription(form.description, form.reference, txnType);
        && CheckPaymentForm(form).None? && fault != NoOpenPeriod && fault != ProcedureFails
        && outcome == Recorded(txnType, description)
        && journal == [PaymentEntry(txnType, bookingId, description, lines)] + old(journal)
        && transactions == journal
        && status == (if fault != BookingWriteFails then StatusAfter(old(status), RecordPayment(form.amount.value)) else old(status))
      ensures CheckPaymentForm(form).None? && fault != NoOpenPeriod && fault != ProcedureFails ==> outcome.Recorded?
      ensures outcome.Recorded? ==>
        && PaidAmount() == Paid(old(journal)) + EntryDebit(journal[0])
        && RemainingAmount() == Remaining(totalPrice, old(journal)) - EntryDebit(journal[0])
      ensures old(PostedOnce(journal)) ==> PostedOnce(journal)
    {
      var check := CheckPaymentForm(form);
      if check.Some? {
        return Rejected(check.value);
      }
      var amount := form.amount.value;
      if fault == NoOpenPeriod {
        return Failed;
      }
      var txnType := NewPaymentType(transactions);
      var description := PaymentDescription(form.description, form.reference, txnType);
      if fault == ProcedureFails {
        return Failed;
      }
      var entry := PaymentEntry(txnType, bookingId, description, lines);
      if PostedOnce(journal) {
        PostPaymentKeepsPostedOnce(journal, transactions, bookingId, description, lines);
      }
      PostPaymentRaisesPaid(journal, transactions, totalPrice, bookingId, description, lines);
      journal := [entry] + journal;
      if fault != BookingWriteFails {
        // a pending booking is confirmed by a positive amount
        status := StatusAfter(status, RecordPayment(amount));
      }
      ghost var settled := status;
      Reload();
      assert status == settled;
      return Recorded(txnType, description);
    }
  }

  /**
   * A check-in whose booking update fails after the invoice was posted, retried: the screen's copy of
   * the entries was not reloaded, so the retry posts the same invoice a second time.
   */
  method RetriedCheckInAsWritten() returns (postings: nat)
    ensures postings == 2
  {
    var desk := new Desk("b1", "1001", "u1", Some(1000.0), CONFIRMED, "available", None, []);
    assert desk.NewInvoiceNumber() == "INV-" + "1001" == "INV-1001";
    var done := desk.CheckInAsWritten(true, "i1", None, BookingWriteFails);
    assert !done && desk.invoice == Some(Invoice("i1", "INV-1001", POSTED));
    assert desk.transactions == [];
    done := desk.CheckInAsWritten(true, "i2", None, NoFault);
    var entry := InvoiceEntry(Invoice("i1", "INV-1001", POSTED), None);
    assert desk.journal == [entry] + [entry];
    InvoiceIssueCountPrepend(entry, [entry], "i1");
    InvoiceIssueCountPrepend(entry, [], "i1");
    assert [entry] + [] == [entry];
    postings := InvoiceIssueCount(desk.journal, "i1");
  }

  /** The same retry with the guard reading the stored journal posts the invoice once. */
  method RetriedCheckIn() returns (postings: nat)
    ensures postings == 1
  {
    var desk := new Desk("b1", "1001", "u1", Some(1000.0), CONFIRMED, "available", None, []);
    assert desk.NewInvoiceNumber() == "INV-" + "1001" == "INV-1001";
    var done := desk.CheckIn(true, "i1", None, BookingWriteFails);
    assert desk.invoice == Some(Invoice("i1", "INV-1001", POSTED));
    done := desk.CheckIn(true, "i2", None, NoFault);
    var entry := InvoiceEntry(Invoice("i1", "INV-1001", POSTED), None);
    assert desk.journal == [entry] + [];
    InvoiceIssueCountPrepend(entry, [], "i1");
    postings := InvoiceIssueCount(desk.journal, "i1");
  }
}
