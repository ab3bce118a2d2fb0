/** The document service: the name a stored document receives (entity, type and date),
    and which documents each kind of user may list. */
module Documents {
  import opened Wrappers
  import opened Keys
  import opened Calendar
  import opened Text

  datatype Document = Document(
    name: string, docType: string, fileUrl: string, userId: Option<Id>, leaseId: Option<Id>, unitId: Option<Id>,
    propertyId: Option<Id>, invoiceId: Option<Id>, createdMs: int)

  /** createDocument's arguments; a type left out is None. */
  datatype NewDocument = NewDocument(
    userId: Option<Id>, leaseId: Option<Id>, unitId: Option<Id>, propertyId: Option<Id>, invoiceId: Option<Id>,
    docType: Option<string>, fileUrl: string)

  /** `toUpperCase` on a missing type throws. */
  datatype DocError = MissingType

  /** An id JavaScript treats as true: present and not 0. */
  predicate Given(id: Option<Id>) { id.Some? && id.value != 0 }

  const EntityTypes: set<string> := {"TENANT", "PROPERTY", "LEASE", "UNIT", "DOC"}

  /** The entity a document is named after: the user first, then the property, the lease
      and the unit, else a generic document. */
  function EntityType(req: NewDocument): (e: string)
    ensures e in EntityTypes
    ensures e == "TENANT" <==> Given(req.userId)
    ensures e == "PROPERTY" <==> !Given(req.userId) && Given(req.propertyId)
    ensures e == "LEASE" <==> !Given(req.userId) && !Given(req.propertyId) && Given(req.leaseId)
    ensures e == "UNIT" <==> !Given(req.userId) && !Given(req.propertyId) && !Given(req.leaseId) && Given(req.unitId)
  {
    if Given(req.userId) then "TENANT"
    else if Given(req.propertyId) then "PROPERTY"
    else if Given(req.leaseId) then "LEASE"
    else if Given(req.unitId) then "UNIT"
    else "DOC"
  }

  /** `s.replace(/\s+/g, '-')`: every run of whitespace becomes one dash. */
  function Dashed(s: string): (r: string)
    ensures |r| <= |s|
    ensures forall i :: 0 <= i < |r| ==> !IsSpace(r[i])
    decreases |s|
  {
    if s == [] then []
    else if IsSpace(s[0]) then
      (if |s| > 1 && IsSpace(s[1]) then Dashed(s[1..]) else "-" + Dashed(s[1..]))
    else [s[0]] + Dashed(s[1..])
  }

  /** A type without whitespace is kept as it is, so cleaning twice changes nothing. */
  lemma {:induction false} DashedPlain(s: string)
    requires forall i :: 0 <= i < |s| ==> !IsSpace(s[i])
    ensures Dashed(s) == s
    decreases |s|
  {
    if s != [] {
      DashedPlain(s[1..]);
    }
  }

  lemma DashedIdempotent(s: string)
    ensures Dashed(Dashed(s)) == Dashed(s)
  {
    DashedPlain(Dashed(s));
  }

  /** The type in upper case with whitespace runs turned into dashes. */
  function CleanType(t: string): (r: string)
    ensures forall i :: 0 <= i < |r| ==> !IsSpace(r[i])
  {
    Dashed(Upper(t))
  }

  /** `Date.prototype.toISOString().split('T')[0]`: four-digit years as `YYYY`, others
      with a sign and six digits. */
  function IsoDate(d: Day): string {
    var year :=
      if 0 <= d.year <= 9999 then PadStart(Decimal(d.year), 4, '0')
      else if d.year > 9999 then "+" + PadStart(Decimal(d.year), 6, '0')
      else "-" + PadStart(Decimal(-d.year), 6, '0');
    year + "-" + PadStart(Decimal(d.month), 2, '0') + "-" + PadStart(Decimal(d.day), 2, '0')
  }

  /** `ENTITY-TYPE-DATE.pdf` */
  function DocName(entity: string, cleanType: string, date: string): string {
    entity + "-" + cleanType + "-" + date + ".pdf"
  }

  /** createDocument: the row is stored with its generated name; `nowMs` and `today` are
      the clock's reading (the date in UTC). */
  function CreateDocumentSpec(rows: seq<Document>, req: NewDocument, today: Day, nowMs: int): (r: (Result<Document, DocError>, seq<Document>))
    ensures r.0.Err? <==> req.docType.None?
    ensures r.0.Err? ==> r.1 == rows
    ensures r.0.Ok? ==> r.1 == rows + [r.0.value] && r.0.value.docType == req.docType.value
  {
    if req.docType.None? then (Err(MissingType), rows)
    else
      var doc := Document(DocName(EntityType(req), CleanType(req.docType.value), IsoDate(today)), req.docType.value,
                          req.fileUrl, req.userId, req.leaseId, req.unitId, req.propertyId, req.invoiceId, nowMs);
      (Ok(doc), rows + [doc])
  }

  /** The document table, in the order the rows were created. */
  class DocumentTable {
    var rows: seq<Document>

    constructor ()
      ensures rows == []
    {
      rows := [];
    }
  }

  method CreateDocument(table: DocumentTable, req: NewDocument, today: Day, nowMs: int) returns (r: Result<Document, DocError>)
    modifies table
    ensures (r, table.rows) == CreateDocumentSpec(old(table.rows), req, today, nowMs)
  {
    if req.docType.None? {
      return Err(MissingType);
    }
    var entityType := EntityType(req);
    var cleanType := CleanType(req.docType.value);
    var docName := DocName(entityType, cleanType, IsoDate(today));
    var doc := Document(docName, req.docType.value, req.fileUrl, req.userId, req.leaseId, req.unitId, req.propertyId,
                        req.invoiceId, nowMs);
    table.rows := table.rows + [doc];
    r := Ok(doc);
  }

  // ---------------------------------------------------------------------------------
  // Reading a name back
  // ---------------------------------------------------------------------------------

  datatype NameParts = NameParts(entity: string, cleanType: string, date: string)

  /** The entity is what precedes the first dash; the date is the ten characters before
      `.pdf`; the type is what lies between. */
  function ReadDocName(name: string): Option<NameParts> {
    var entity := Split(name, '-')[0];
    if |name| < |entity| + 16 then None
    else Some(NameParts(entity, name[|entity| + 1..|name| - 15], name[|name| - 14..|name| - 4]))
  }

  lemma IsoDateWidth(d: Day)
    requires 0 <= d.year <= 9999
    ensures |IsoDate(d)| == 10
  {
    DecimalWidth(d.year, 4);
    DecimalWidth(d.month, 2);
    DecimalWidth(d.day, 2);
  }

  /** Any entity without a dash and any ten-character date can be read back from the
      name, whatever dashes the type holds. */
  lemma ReadBack(e: string, c: string, date: string)
    requires '-' !in e && |date| == 10
    ensures ReadDocName(DocName(e, c, date)) == Some(NameParts(e, c, date))
  {
    var name := DocName(e, c, date);
    assert name == e + ['-'] + (c + "-" + date + ".pdf");
    SplitFirst(e, c + "-" + date + ".pdf", '-');
    assert name[|e| + 1..|name| - 15] == c;
    assert name[|name| - 14..|name| - 4] == date;
  }

  lemma EntityWithoutDash(req: NewDocument)
    ensures '-' !in EntityType(req)
  {
  }

  /** A generated name gives back its entity, its cleaned type and its date, for any date
      with a four-digit year. */
  lemma DocNameRoundTrip(req: NewDocument, t: string, today: Day)
    requires 0 <= today.year <= 9999
    ensures ReadDocName(DocName(EntityType(req), CleanType(t), IsoDate(today))) ==
      Some(NameParts(EntityType(req), CleanType(t), IsoDate(today)))
  {
    IsoDateWidth(today);
    EntityWithoutDash(req);
    ReadBack(EntityType(req), CleanType(t), IsoDate(today));
  }

  // ---------------------------------------------------------------------------------
  // Listing by permission
  // ---------------------------------------------------------------------------------

  /** The caller: a role name, the user's id, and for an owner the buildings it owns. */
  datatype Viewer = Viewer(role: string, userId: Id, propertyIds: set<Id>)

  /** A tenant sees its own documents, an owner the documents of its buildings; any other
      role sees everything. */
  predicate Visible(doc: Document, v: Viewer) {
    if v.role == "TENANT" then doc.userId == Some(v.userId)
    else if v.role == "OWNER" then doc.propertyId.Some? && doc.propertyId.value in v.propertyIds
    else true
  }

  /** getPermissionsFilteredDocuments: the visible rows, most recently created first. */
  function Listing(rows: seq<Document>, v: Viewer): (r: seq<Document>)
    ensures forall x :: x in r <==> x in rows && Visible(x, v)
    decreases |rows|
  {
    if rows == [] then []
    else Listing(rows[1..], v) + (if Visible(rows[0], v) then [rows[0]] else [])
  }

  predicate CreatedInOrder(rows: seq<Document>) {
    forall i, j :: 0 <= i < j < |rows| ==> rows[i].createdMs <= rows[j].createdMs
  }

  /** When the rows were created in order, the listing runs from the newest to the
      oldest. */
  lemma {:induction false} ListingNewestFirst(rows: seq<Document>, v: Viewer)
    requires CreatedInOrder(rows)
    ensures forall i, j :: 0 <= i < j < |Listing(rows, v)| ==> Listing(rows, v)[j].createdMs <= Listing(rows, v)[i].createdMs
    decreases |rows|
  {
    if rows != [] {
      var rest := Listing(rows[1..], v);
      ListingNewestFirst(rows[1..], v);
      forall x | x in rest
        ensures rows[0].createdMs <= x.createdMs
      {
        var k :| 0 <= k < |rows[1..]| && rows[1..][k] == x;
        assert rows[k + 1] == x;
      }
    }
  }

  /** The role decides the filter: a tenant never sees another user's document, an owner
      never one of a building it does not own, and an admin sees every document. */
  lemma ListingByRole(rows: seq<Document>, v: Viewer, doc: Document)
    requires doc in rows
    ensures v.role == "TENANT" ==> (doc in Listing(rows, v) <==> doc.userId == Some(v.userId))
    ensures v.role == "OWNER" ==> (doc in Listing(rows, v) <==> doc.propertyId.Some? && doc.propertyId.value in v.propertyIds)
    ensures v.role == "ADMIN" ==> doc in Listing(rows, v)
  {
  }
}
