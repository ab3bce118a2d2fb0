/** Recording a refund or adjustment (`createRefund`). One transaction numbers the refund
    `RA-` and the count, stores it, notifies the tenant when it concerns a deposit, and
    appends a ledger row that lowers the running balance by the amount. */
module Refunds {
  import opened Wrappers
  import opened Calendar
  import opened Keys
  import opened Store
  import opened Money
  import Text

  /** The request body. `kind` is the refund's type; an id that does not parse as an
      integer is None. */
  datatype RefundRequest = RefundRequest(
    kind: Option<string>, reason: Option<string>, tenantId: Option<Id>, unitId: Option<Id>,
    amount: Parsed, status: Option<string>, date: Option<Day>)

  /** Every failure throws inside the transaction: 500, nothing written. */
  datatype RefundError = ServerError

  function HttpStatus(e: RefundError): (code: int)
    ensures code == 500
  {
    500
  }

  /** The tables a refund writes. */
  datatype RefundBooks = RefundBooks(refunds: seq<Refund>, messages: seq<Message>, ledger: seq<LedgerEntry>)

  function RefundBooksOf(db: Database): RefundBooks
    reads db
  {
    RefundBooks(db.refunds, db.messages, db.ledger)
  }

  /** `s.toLowerCase().includes('deposit')` */
  predicate MentionsDeposit(s: string) { Text.Contains(Text.Lower(s), "deposit") }

  function Notice(kind: string, amount: int, reason: string): string {
    "Notification: A " + kind + " of $" + DollarText(amount) + " has been processed for your account. Reason: " + reason
  }

  /** A deposit refund is booked as a Liability, anything else as an Expense. */
  function LedgerKind(kind: string): string {
    if MentionsDeposit(kind) then "Liability" else "Expense"
  }

  /** The request carries every field the insert needs. */
  predicate Complete(req: RefundRequest) {
    req.kind.Some? && req.reason.Some? && req.tenantId.Some? && req.unitId.Some?
  }

  /** `requestId` is unique (updateRefund and deleteRefund look refunds up by it): an
      insert reusing one throws. */
  predicate RequestTaken(refunds: seq<Refund>, id: string) {
    exists i :: 0 <= i < |refunds| && refunds[i].requestId == id
  }

  /** The refund a complete request stores under number `count + 1`. */
  function NewRefund(req: RefundRequest, count: nat, today: Day): Refund
    requires Complete(req)
  {
    Refund(Text.Serial("RA-", count), req.kind.value, req.reason.value, req.tenantId.value, req.unitId.value,
           OrZero(req.amount), TextOr(req.status, "Completed"), req.date.GetOr(today))
  }

  /** The messages after a refund: one notice to its tenant when the type or the reason
      mentions a deposit. */
  function RefundNotices(messages: seq<Message>, refund: Refund, sender: Option<Id>): seq<Message> {
    if MentionsDeposit(refund.kind) || MentionsDeposit(refund.reason) then
      messages + [Message(if Given(sender) then sender.value else 1, refund.tenantId, Notice(refund.kind, refund.amount, refund.reason))]
    else messages
  }

  /** The ledger row of a refund: it lowers the running balance by the amount. */
  function RefundEntry(ledger: seq<LedgerEntry>, refund: Refund, today: Day): LedgerEntry {
    LedgerEntry(today, refund.kind + " Refund - " + refund.requestId, LedgerKind(refund.kind), refund.amount,
                AddToBalance(PreviousBalance(ledger), -refund.amount), "Completed", None, None, None)
  }

  /** The books once `refund` is stored: the refund, its notice and its ledger row. */
  function Stored(b: RefundBooks, refund: Refund, sender: Option<Id>, today: Day): RefundBooks {
    RefundBooks(b.refunds + [refund], RefundNotices(b.messages, refund, sender), b.ledger + [RefundEntry(b.ledger, refund, today)])
  }

  /** POST /api/admin/refunds. An amount that does not parse is 0; the status defaults to
      "Completed" and the date to today. `sender` is the signed-in user, 1 when there is
      none. The request id is minted from the row count, so the insert throws when that
      id is already in use. */
  function CreateRefundSpec(b: RefundBooks, req: RefundRequest, sender: Option<Id>, today: Day): (o: (Result<Refund, RefundError>, RefundBooks))
    ensures o.0.Err? ==> o.1 == b
  {
    if !Complete(req) then (Err(ServerError), b)
    else
      var refund := NewRefund(req, |b.refunds|, today);
      if RequestTaken(b.refunds, refund.requestId) then (Err(ServerError), b)
      else (Ok(refund), Stored(b, refund, sender, today))
  }

  method CreateRefund(db: Database, req: RefundRequest, sender: Option<Id>, today: Day) returns (r: Result<Refund, RefundError>)
    modifies db`refunds, db`messages, db`ledger
    ensures (r, RefundBooksOf(db)) == CreateRefundSpec(old(RefundBooksOf(db)), req, sender, today)
  {
    if !Complete(req) {
      return Err(ServerError);
    }
    var refund := NewRefund(req, |db.refunds|, today);
    if RequestTaken(db.refunds, refund.requestId) {
      return Err(ServerError);
    }
    StoreRefund(db, refund, sender, today);
    r := Ok(refund);
  }

  /** The three inserts of a refund that passed its checks. */
  method StoreRefund(db: Database, refund: Refund, sender: Option<Id>, today: Day)
    modifies db`refunds, db`messages, db`ledger
    ensures RefundBooksOf(db) == Stored(old(RefundBooksOf(db)), refund, sender, today)
  {
    var entry := RefundEntry(db.ledger, refund, today);
    db.refunds := db.refunds + [refund];
    db.messages := RefundNotices(db.messages, refund, sender);
    db.ledger := db.ledger + [entry];
  }

  // ---------------------------------------------------------------------------------
  // The corrected numbering
  // ---------------------------------------------------------------------------------

  /** The request ids in use. */
  function RequestIds(refunds: seq<Refund>): set<string> {
    set i | 0 <= i < |refunds| :: refunds[i].requestId
  }

  /** The first number from `k` on whose `RA-` id is not in `taken`. */
  function FreeNumber(taken: set<string>, k: nat): (n: nat)
    ensures k <= n && Text.Serial("RA-", n) !in taken
    decreases |taken|
  {
    if Text.Serial("RA-", k) in taken then
      var n := FreeNumber(taken - {Text.Serial("RA-", k)}, k + 1);
      assert Text.Serial("RA-", n) != Text.Serial("RA-", k) by {
        if Text.Serial("RA-", n) == Text.Serial("RA-", k) {
          Text.SerialInjective("RA-", n, k);
        }
      }
      n
    else k
  }

  /** createRefund with an id that is never in use: the count's id when it is free, the
      next free one otherwise. */
  function CorrectedCreateRefundSpec(b: RefundBooks, req: RefundRequest, sender: Option<Id>, today: Day): (o: (Result<Refund, RefundError>, RefundBooks))
    ensures o.0.Err? ==> o.1 == b
  {
    if !Complete(req) then (Err(ServerError), b)
    else
      var refund := NewRefund(req, FreeNumber(RequestIds(b.refunds), |b.refunds|), today);
      (Ok(refund), Stored(b, refund, sender, today))
  }

  method CorrectedCreateRefund(db: Database, req: RefundRequest, sender: Option<Id>, today: Day) returns (r: Result<Refund, RefundError>)
    modifies db`refunds, db`messages, db`ledger
    ensures (r, RefundBooksOf(db)) == CorrectedCreateRefundSpec(old(RefundBooksOf(db)), req, sender, today)
  {
    if !Complete(req) {
      return Err(ServerError);
    }
    var refund := NewRefund(req, FreeNumber(RequestIds(db.refunds), |db.refunds|), today);
    StoreRefund(db, refund, sender, today);
    r := Ok(refund);
  }

  // ---------------------------------------------------------------------------------
  // Properties
  // ---------------------------------------------------------------------------------

  /** Refunds numbered by the rule: the i-th one is `RA-` followed by i + 1. */
  predicate Numbered(refunds: seq<Refund>) {
    forall i :: 0 <= i < |refunds| ==> refunds[i].requestId == Text.Serial("RA-", i)
  }

  /** No two refunds share a request id. */
  predicate DistinctIds(refunds: seq<Refund>) {
    forall i, j :: 0 <= i < j < |refunds| ==> refunds[i].requestId != refunds[j].requestId
  }

  /** Every create keeps the request ids distinct. On refunds numbered by the rule it
      keeps the numbering and fails only on a missing field; the new id is `RA-` followed
      by at least five digits whose value is the new count. */
  lemma RefundNumbering(b: RefundBooks, req: RefundRequest, sender: Option<Id>, today: Day)
    ensures var o := CreateRefundSpec(b, req, sender, today);
      && (DistinctIds(b.refunds) ==> DistinctIds(o.1.refunds))
      && (Numbered(b.refunds) ==> Numbered(o.1.refunds) && (o.0.Ok? <==> Complete(req)))
      && (o.0.Ok? ==> CarriesCount(o.0.value.requestId, "RA-", |o.1.refunds|))
  {
    var o := CreateRefundSpec(b, req, sender, today);
    CreatedRefund(b, req, sender, today);
    if o.0.Ok? {
      FreshAppendDistinct(b.refunds, o.0.value);
      SerialPrefix("RA-", |b.refunds|);
    }
    if Numbered(b.refunds) {
      NumberedFree(b.refunds);
      if o.0.Ok? {
        NumberedAppend(b.refunds, o.0.value);
      }
    }
  }

  /** What a request adds to the refunds: nothing on failure, one refund numbered after
      the existing ones on success, refused exactly when a field is missing or that number
      is in use. */
  lemma CreatedRefund(b: RefundBooks, req: RefundRequest, sender: Option<Id>, today: Day)
    ensures var o := CreateRefundSpec(b, req, sender, today);
      && (o.0.Err? <==> !Complete(req) || RequestTaken(b.refunds, Text.Serial("RA-", |b.refunds|)))
      && (o.0.Err? ==> o.1.refunds == b.refunds)
      && (o.0.Ok? ==> o.1.refunds == b.refunds + [o.0.value] && o.0.value.requestId == Text.Serial("RA-", |b.refunds|)
                      && !RequestTaken(b.refunds, o.0.value.requestId))
  {
  }

  /** Appending a refund whose id is not in use keeps the ids distinct. */
  lemma FreshAppendDistinct(refunds: seq<Refund>, x: Refund)
    requires !RequestTaken(refunds, x.requestId)
    ensures DistinctIds(refunds) ==> DistinctIds(refunds + [x])
  {
    var after := refunds + [x];
    if DistinctIds(refunds) {
      forall i, j | 0 <= i < j < |after|
        ensures after[i].requestId != after[j].requestId
      {
        assert after[i] == refunds[i];
        if j == |refunds| {
          assert after[j] == x;
        } else {
          assert after[j] == refunds[j];
        }
      }
    }
  }

  /** On numbered refunds the count's id is free. */
  lemma NumberedFree(refunds: seq<Refund>)
    requires Numbered(refunds)
    ensures !RequestTaken(refunds, Text.Serial("RA-", |refunds|))
  {
    if RequestTaken(refunds, Text.Serial("RA-", |refunds|)) {
      var i :| 0 <= i < |refunds| && refunds[i].requestId == Text.Serial("RA-", |refunds|);
      Text.SerialInjective("RA-", i, |refunds|);
      assert false;
    }
  }

  /** Appending the refund numbered after the existing ones keeps the numbering. */
  lemma NumberedAppend(refunds: seq<Refund>, x: Refund)
    requires Numbered(refunds) && x.requestId == Text.Serial("RA-", |refunds|)
    ensures Numbered(refunds + [x])
  {
    var after := refunds + [x];
    forall i | 0 <= i < |after|
      ensures after[i].requestId == Text.Serial("RA-", i)
    {
      if i < |refunds| {
        assert after[i] == refunds[i];
      }
    }
  }

  /** `id` is `prefix` followed by at least five digits whose value is `n`. */
  predicate CarriesCount(id: string, prefix: string, n: nat) {
    Text.StartsWith(id, prefix) && |id| >= |prefix| + 5 && Text.AllDigits(id[|prefix|..])
    && Text.DigitsValue(id[|prefix|..]) == n
  }

  /** A serial is its prefix followed by at least five digits denoting count + 1. */
  lemma SerialPrefix(prefix: string, count: nat)
    ensures CarriesCount(Text.Serial(prefix, count), prefix, count + 1)
  {
    Text.SerialDigits(prefix, count);
  }

  /** A refund is refused, with nothing written, exactly when its type, reason or an id is
      missing or the id minted from the count is already in use. Otherwise one refund is stored for the amount (0 when it does not parse), and
      one ledger row continues the balance downwards by that amount, as a Liability exactly
      when the type mentions a deposit. */
  lemma RefundLedger(b: RefundBooks, req: RefundRequest, sender: Option<Id>, today: Day)
    ensures var (r, after) := CreateRefundSpec(b, req, sender, today);
      && (r.Err? <==> !Complete(req) || RequestTaken(b.refunds, Text.Serial("RA-", |b.refunds|)))
      && (r.Err? ==> after == b)
      && (r.Ok? ==>
            && after.refunds == b.refunds + [r.value]
            && r.value.amount == OrZero(req.amount) && (req.amount.NaN? ==> r.value.amount == 0)
            && r.value.status == (if Filled(req.status) then req.status.value else "Completed")
            && |after.ledger| == |b.ledger| + 1 && after.ledger[..|b.ledger|] == b.ledger
            && after.ledger[|b.ledger|].amount == r.value.amount
            && after.ledger[|b.ledger|].balance == AddToBalance(PreviousBalance(b.ledger), -r.value.amount)
            && (after.ledger[|b.ledger|].kind == "Liability" <==> MentionsDeposit(req.kind.value))
            && (after.ledger[|b.ledger|].kind != "Liability" ==> after.ledger[|b.ledger|].kind == "Expense"))
  {
    var (r, after) := CreateRefundSpec(b, req, sender, today);
    if r.Ok? {
      assert after.ledger[..|b.ledger|] == b.ledger;
    }
  }

  /** The tenant is notified exactly when the type or the reason mentions a deposit; the
      message goes to the refund's tenant and states the amount and the reason. */
  lemma DepositNotice(b: RefundBooks, req: RefundRequest, sender: Option<Id>, today: Day)
    requires CreateRefundSpec(b, req, sender, today).0.Ok?
    ensures var (r, after) := CreateRefundSpec(b, req, sender, today);
      var deposit := MentionsDeposit(req.kind.value) || MentionsDeposit(req.reason.value);
      && (deposit ==> after.messages == b.messages + [Message(if Given(sender) then sender.value else 1, r.value.tenantId,
                                                              Notice(r.value.kind, r.value.amount, r.value.reason))])
      && (!deposit ==> after.messages == b.messages)
  {
  }

  // ---------------------------------------------------------------------------------
  // Minting from the count re-uses an id after a deletion
  // ---------------------------------------------------------------------------------

  /** As written: once any refund but the newest is deleted (with its unit, its tenant or
      its building), the count's id is the newest refund's, so every complete request is
      refused and nothing changes, while the corrected rule stores it. */
  lemma AsWrittenDeletionStallsCreate(refunds: seq<Refund>, i: nat, messages: seq<Message>, ledger: seq<LedgerEntry>,
                                      req: RefundRequest, sender: Option<Id>, today: Day)
    requires Numbered(refunds) && i + 1 < |refunds| && Complete(req)
    ensures var b := RefundBooks(refunds[..i] + refunds[i + 1..], messages, ledger);
      var o := CreateRefundSpec(b, req, sender, today);
      && DistinctIds(b.refunds)
      && o.0.Err? && o.1 == b
      && CorrectedCreateRefundSpec(b, req, sender, today).0.Ok?
  {
    var left := refunds[..i] + refunds[i + 1..];
    assert left[|left| - 1] == refunds[|refunds| - 1];
    assert RequestTaken(left, Text.Serial("RA-", |left|));
    RemovedDistinct(refunds, i);
  }

  /** Deleting one numbered refund leaves the ids distinct. */
  lemma RemovedDistinct(refunds: seq<Refund>, i: nat)
    requires Numbered(refunds) && i < |refunds|
    ensures DistinctIds(refunds[..i] + refunds[i + 1..])
  {
    var left := refunds[..i] + refunds[i + 1..];
    forall a, c | 0 <= a < c < |left|
      ensures left[a].requestId != left[c].requestId
    {
      var a', c' := if a < i then a else a + 1, if c < i then c else c + 1;
      assert left[a] == refunds[a'] && left[c] == refunds[c'];
      if left[a].requestId == left[c].requestId {
        Text.SerialInjective("RA-", a', c');
      }
    }
  }

  /** An id is in use exactly when it is among the request ids. */
  lemma TakenIds(refunds: seq<Refund>, id: string)
    ensures RequestTaken(refunds, id) <==> id in RequestIds(refunds)
  {
  }

  /** Corrected: every complete request is stored, its id was not in use, and the ids stay
      distinct. Where the count's id is free the corrected create is the handler's. */
  lemma CorrectedIdsStayDistinct(b: RefundBooks, req: RefundRequest, sender: Option<Id>, today: Day)
    ensures var o := CorrectedCreateRefundSpec(b, req, sender, today);
      && (o.0.Ok? <==> Complete(req))
      && (o.0.Ok? ==> o.1.refunds == b.refunds + [o.0.value] && !RequestTaken(b.refunds, o.0.value.requestId))
      && (DistinctIds(b.refunds) ==> DistinctIds(o.1.refunds))
      && (!RequestTaken(b.refunds, Text.Serial("RA-", |b.refunds|)) ==> o == CreateRefundSpec(b, req, sender, today))
  {
    var o := CorrectedCreateRefundSpec(b, req, sender, today);
    if o.0.Ok? {
      TakenIds(b.refunds, o.0.value.requestId);
      FreshAppendDistinct(b.refunds, o.0.value);
    }
    TakenIds(b.refunds, Text.Serial("RA-", |b.refunds|));
  }
}
