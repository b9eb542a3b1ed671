/** The store-facing helpers of src/utils/aws-utils.js: the review fetch, the
    stage rule and update request, the invoice and related-document fetches,
    and the loop that groups each invoice with the documents sharing its PO
    number. The store is passed in explicitly instead of a module-level client. */
module AwsUtils {
  import opened Wrappers
  import opened JsText
  import opened DocumentStore

  const REVIEW := "REVIEW"
  const DATA_EXTRACT := "DATA_EXTRACT"
  const COMPLETED := "COMPLETED"
  const INVOICE := "INVOICE"
  const NC := "NC"

  /** `getSignedUrlForS3`: the URL for an object key, or None for the `null`
      it returns when signing throws. */
  type Locator = string -> Option<string>

  /** What the review page receives for one stored record. */
  datatype ReviewItem = ReviewItem(s3Path: string, classification: string, confidence: Option<real>)

  function ToReviewItem(r: Record): ReviewItem
  {
    ReviewItem(r.DocumentID, r.Classification, r.Score)
  }

  /** `data.Items.map(item => ({ s3Path, classification, confidence }))`. */
  function MapToReviewItems(items: seq<Record>): (r: seq<ReviewItem>)
    ensures |r| == |items|
    ensures forall i :: 0 <= i < |items| ==>
      r[i].s3Path == items[i].DocumentID && r[i].classification == items[i].Classification
      && r[i].confidence == items[i].Score
  {
    seq(|items|, i requires 0 <= i < |items| => ToReviewItem(items[i]))
  }

  /** `fetchPdfFilesAndClassificationFromDynamoDB`: every record in stage
      REVIEW, mapped; a rejected scan, or a response without `Items` (whose
      `.map` throws inside the same try), yields the empty list. */
  function FetchPdfFilesAndClassificationFromDynamoDB(s: Store): (r: seq<ReviewItem>)
    ensures StageIs(REVIEW) in s.scanFaults ==> r == []
    ensures forall it :: it in r ==>
      exists rec :: rec in s.table && rec.Stage == REVIEW && it == ToReviewItem(rec)
  {
    match Scan(s, StageIs(REVIEW))
    case Rejected => []
    case Resolved(None) => []
    case Resolved(Some(items)) =>
      var r := MapToReviewItems(items);
      SelectMembers(s.table, StageIs(REVIEW));
      assert forall it :: it in r ==>
        exists rec :: rec in s.table && rec.Stage == REVIEW && it == ToReviewItem(rec) by {
        forall it | it in r
          ensures exists rec :: rec in s.table && rec.Stage == REVIEW && it == ToReviewItem(rec)
        {
          var k :| 0 <= k < |r| && r[k] == it;
          assert items[k] in items;
        }
      }
      r
  }

  /** Without a fault, the review fetch lists every REVIEW record of the table,
      in table order, and nothing else. */
  lemma ReviewFetchComplete(s: Store)
    requires StageIs(REVIEW) !in s.scanFaults
    ensures FetchPdfFilesAndClassificationFromDynamoDB(s) == MapToReviewItems(Select(s.table, StageIs(REVIEW)))
    ensures forall rec :: rec in s.table && rec.Stage == REVIEW ==>
      ToReviewItem(rec) in FetchPdfFilesAndClassificationFromDynamoDB(s)
  {
    var items := Select(s.table, StageIs(REVIEW));
    var r := FetchPdfFilesAndClassificationFromDynamoDB(s);
    SelectMembers(s.table, StageIs(REVIEW));
    forall rec | rec in s.table && rec.Stage == REVIEW
      ensures ToReviewItem(rec) in r
    {
      assert rec in items;
      var k :| 0 <= k < |items| && items[k] == rec;
      assert r[k] == ToReviewItem(rec);
    }
  }

  /** The stage a classification sends a document to. */
  function ResolveStage(classification: string): (stage: string)
    ensures stage == COMPLETED <==> classification == NC
    ensures stage == DATA_EXTRACT <==> classification != NC
  {
    if classification == NC then COMPLETED else DATA_EXTRACT
  }

  /** The parameters of the update: keyed by the document id, it sets the
      classification, a score of 1 and the resolved stage, with no condition. */
  function UpdateParams(documentID: string, newClassification: string): (req: UpdateRequest)
    ensures req.key == documentID && req.classification == newClassification
    ensures req.score == 1.0
    ensures req.stage == COMPLETED <==> newClassification == NC
    ensures req.stage != REVIEW
  {
    UpdateRequest(documentID, newClassification, 1.0, ResolveStage(newClassification))
  }

  /** `ReturnValues: 'UPDATED_NEW'`: the three attributes just written. */
  datatype UpdatedAttributes = UpdatedAttributes(Classification: string, Score: real, Stage: string)

  /** `updateClassificationInDynamoDB`: the store after the write together with
      the written attributes, or the error 'Could not update classification'. */
  function UpdateClassificationInDynamoDB(s: Store, documentID: string, newClassification: string)
    : (r: Result<(Store, UpdatedAttributes)>)
    ensures r.Failure? <==> documentID == "" || documentID in s.updateFaults
    ensures r.Failure? ==> r.error == CouldNotUpdate
    ensures r.Success? ==>
      r.value.0 == s.(table := Upsert(s.table, UpdateParams(documentID, newClassification)))
      && r.value.1 == UpdatedAttributes(newClassification, 1.0, ResolveStage(newClassification))
  {
    var req := UpdateParams(documentID, newClassification);
    match Update(s, req)
    case None => Failure(CouldNotUpdate)
    case Some(s') => Success((s', UpdatedAttributes(req.classification, req.score, req.stage)))
  }

  /** The update succeeds whatever stage the document is in: a document that
      already left REVIEW (or that is absent) is rewritten all the same. */
  lemma UpdateIgnoresCurrentStage(s: Store, documentID: string, newClassification: string, i: nat)
    requires documentID != "" && documentID !in s.updateFaults
    requires i < |s.table| && s.table[i].DocumentID == documentID
    ensures UpdateClassificationInDynamoDB(s, documentID, newClassification).Success?
    ensures var t := UpdateClassificationInDynamoDB(s, documentID, newClassification).value.0.table;
      |t| == |s.table| && t[i].Stage == ResolveStage(newClassification)
      && t[i].Classification == newClassification
  {
    assert HasKey(s.table, documentID);
  }

  /** After a successful update the document no longer shows up in a review
      fetch of the new store. */
  lemma UpdatedDocumentLeavesReview(s: Store, documentID: string, newClassification: string)
    requires UpdateClassificationInDynamoDB(s, documentID, newClassification).Success?
    ensures var s' := UpdateClassificationInDynamoDB(s, documentID, newClassification).value.0;
      forall it :: it in FetchPdfFilesAndClassificationFromDynamoDB(s') ==> it.s3Path != documentID
  {
    var s' := UpdateClassificationInDynamoDB(s, documentID, newClassification).value.0;
    var req := UpdateParams(documentID, newClassification);
    forall it | it in FetchPdfFilesAndClassificationFromDynamoDB(s')
      ensures it.s3Path != documentID
    {
      var rec :| rec in s'.table && rec.Stage == REVIEW && it == ToReviewItem(rec);
      var k :| 0 <= k < |s'.table| && s'.table[k] == rec;
    }
  }

  /** `fetchInvoicesFromDynamoDB`: the INVOICE records, or an error when the
      scan rejects or the response has no `Items`. */
  function FetchInvoicesFromDynamoDB(s: Store): (r: Result<seq<Record>>)
    ensures r.Success? <==> ClassificationIs(INVOICE) !in s.scanFaults
    ensures r.Failure? ==> r.error == (if s.scanFaults[ClassificationIs(INVOICE)] == Throws then ScanFailed else NoItemsFound)
    ensures r.Success? ==> r.value == Select(s.table, ClassificationIs(INVOICE))
  {
    match Scan(s, ClassificationIs(INVOICE))
    case Rejected => Failure(ScanFailed)
    case Resolved(None) => Failure(NoItemsFound)
    case Resolved(Some(items)) => Success(items)
  }

  /** `fetchRelatedDocuments(poNumber)`: the records whose `po_number` equals
      `poNumber` exactly, or an error when the scan rejects or has no `Items`. */
  function FetchRelatedDocuments(s: Store, poNumber: string): (r: Result<seq<Record>>)
    ensures r.Success? <==> PoNumberIs(poNumber) !in s.scanFaults
    ensures r.Success? ==> r.value == Select(s.table, PoNumberIs(poNumber))
  {
    match Scan(s, PoNumberIs(poNumber))
    case Rejected => Failure(ScanFailed)
    case Resolved(None) => Failure(NoItemsFound)
    case Resolved(Some(items)) => Success(items)
  }

  /** `poNumber && poNumber.trim() && poNumber.toUpperCase() !== 'N/A'`. */
  predicate UsablePoNumber(poNumber: Option<string>)
  {
    poNumber.Some? && poNumber.value != "" && Trim(poNumber.value) != ""
    && ToUpper(poNumber.value) != "N/A"
  }

  /** A PO number is usable exactly when it is present, has a character that
      is not whitespace, and is not "N/A" in any letter case (compared
      without trimming). */
  lemma UsablePoNumberIff(poNumber: Option<string>)
    ensures UsablePoNumber(poNumber) <==>
      poNumber.Some?
      && (exists i :: 0 <= i < |poNumber.value| && !IsWhitespace(poNumber.value[i]))
      && !(|poNumber.value| == 3 && (poNumber.value[0] == 'n' || poNumber.value[0] == 'N')
           && poNumber.value[1] == '/' && (poNumber.value[2] == 'a' || poNumber.value[2] == 'A'))
  {
    if poNumber.Some? {
      TrimEmptyIffBlank(poNumber.value);
      UpperIsNAIff(poNumber.value);
    }
  }

  /** No trim before the "N/A" comparison: " n/a" is taken as a real PO
      number, while "n/A" and a blank string are not. */
  lemma NACheckDoesNotTrim()
    ensures UsablePoNumber(Some(" n/a"))
    ensures !UsablePoNumber(Some("n/A"))
    ensures !UsablePoNumber(Some(" \t"))
    ensures !UsablePoNumber(None)
  {
    UsablePoNumberIff(Some(" n/a"));
    assert !IsWhitespace(" n/a"[1]);
    UsablePoNumberIff(Some("n/A"));
    UsablePoNumberIff(Some(" \t"));
  }

  /** One transaction bundle: an invoice and the documents sharing its PO. */
  datatype Bundle = Bundle(invoice: Record, relatedDocuments: seq<Record>)

  /** The related list one loop iteration pushes for `invoice`: the related
      fetch's items, or empty when the PO number is unusable (no fetch is
      made) or when the fetch fails (the error is swallowed). */
  function RelatedFor(s: Store, invoice: Record): (docs: seq<Record>)
    ensures !UsablePoNumber(invoice.po_number) ==> docs == []
    ensures UsablePoNumber(invoice.po_number) && PoNumberIs(invoice.po_number.value) in s.scanFaults ==> docs == []
    ensures UsablePoNumber(invoice.po_number) && PoNumberIs(invoice.po_number.value) !in s.scanFaults ==>
      docs == Select(s.table, PoNumberIs(invoice.po_number.value))
  {
    if UsablePoNumber(invoice.po_number) then
      match FetchRelatedDocuments(s, invoice.po_number.value)
      case Success(items) => items
      case Failure(_) => []
    else []
  }

  /** One bundle per invoice, in invoice order. */
  function BundlesOf(s: Store, invoices: seq<Record>): seq<Bundle>
  {
    if invoices == [] then []
    else [Bundle(invoices[0], RelatedFor(s, invoices[0]))] + BundlesOf(s, invoices[1..])
  }

  lemma {:induction false} BundlesOfAt(s: Store, invoices: seq<Record>)
    ensures |BundlesOf(s, invoices)| == |invoices|
    ensures forall k :: 0 <= k < |invoices| ==>
      BundlesOf(s, invoices)[k] == Bundle(invoices[k], RelatedFor(s, invoices[k]))
  {
    if invoices != [] {
      BundlesOfAt(s, invoices[1..]);
    }
  }

  lemma {:induction false} BundlesOfSnoc(s: Store, invoices: seq<Record>, invoice: Record)
    ensures BundlesOf(s, invoices + [invoice]) == BundlesOf(s, invoices) + [Bundle(invoice, RelatedFor(s, invoice))]
  {
    if invoices == [] {
      assert [] + [invoice] == [invoice];
    } else {
      assert (invoices + [invoice])[1..] == invoices[1..] + [invoice];
      BundlesOfSnoc(s, invoices[1..], invoice);
    }
  }

  lemma BundlesOfStep(s: Store, invoices: seq<Record>, i: nat)
    requires i < |invoices|
    ensures BundlesOf(s, invoices[..i + 1]) == BundlesOf(s, invoices[..i]) + [Bundle(invoices[i], RelatedFor(s, invoices[i]))]
  {
    assert invoices[..i + 1] == invoices[..i] + [invoices[i]];
    BundlesOfSnoc(s, invoices[..i], invoices[i]);
  }

  /** What `getInvoicesAndRelatedDocuments` resolves to: one bundle per
      fetched invoice, in invoice order, or the invoice fetch's error. */
  function InvoicesAndRelatedDocuments(s: Store): (r: Result<seq<Bundle>>)
    ensures r.Failure? <==> FetchInvoicesFromDynamoDB(s).Failure?
    ensures r.Failure? ==> r.error == FetchInvoicesFromDynamoDB(s).error
    ensures r.Success? ==>
      var invoices := FetchInvoicesFromDynamoDB(s).value;
      |r.value| == |invoices|
      && forall k :: 0 <= k < |invoices| ==>
        r.value[k].invoice == invoices[k] && r.value[k].relatedDocuments == RelatedFor(s, invoices[k])
  {
    match FetchInvoicesFromDynamoDB(s)
    case Failure(e) => Failure(e)
    case Success(invoices) =>
      BundlesOfAt(s, invoices);
      Success(BundlesOf(s, invoices))
  }

  /** Every bundle's related documents share the invoice's PO number; when the
      PO number is usable and its scan succeeds, the invoice itself is among
      them, since it carries that PO number too. */
  lemma BundlesShareInvoicePo(s: Store, k: nat)
    requires InvoicesAndRelatedDocuments(s).Success?
    requires k < |InvoicesAndRelatedDocuments(s).value|
    ensures var b := InvoicesAndRelatedDocuments(s).value[k];
      forall d :: d in b.relatedDocuments ==> d in s.table && d.po_number == b.invoice.po_number
    ensures var b := InvoicesAndRelatedDocuments(s).value[k];
      UsablePoNumber(b.invoice.po_number) && PoNumberIs(b.invoice.po_number.value) !in s.scanFaults
      ==> b.invoice in b.relatedDocuments
  {
    var invoices := FetchInvoicesFromDynamoDB(s).value;
    assert invoices[k] in invoices;
    SelectMembers(s.table, ClassificationIs(INVOICE));
    var po := invoices[k].po_number;
    if UsablePoNumber(po) {
      SelectMembers(s.table, PoNumberIs(po.value));
    }
  }

  /** Two invoices with PO numbers "PO-1" and "PO-2", where the scan for
      "PO-1" rejects: both invoices still get a bundle, the first with no
      related documents, the second with every record carrying "PO-2". */
  lemma FailedJoinIsIsolated()
    ensures
      var first := Record("inv-1", INVOICE, None, DATA_EXTRACT, Some("PO-1"));
      var second := Record("inv-2", INVOICE, None, DATA_EXTRACT, Some("PO-2"));
      var shipping := Record("ship-2", "SHIPPING_DOCUMENT", None, DATA_EXTRACT, Some("PO-2"));
      var s := Store([first, second, shipping], map[PoNumberIs("PO-1") := Throws], {});
      InvoicesAndRelatedDocuments(s) == Success([Bundle(first, []), Bundle(second, [second, shipping])])
  {
    var first := Record("inv-1", INVOICE, None, DATA_EXTRACT, Some("PO-1"));
    var second := Record("inv-2", INVOICE, None, DATA_EXTRACT, Some("PO-2"));
    var shipping := Record("ship-2", "SHIPPING_DOCUMENT", None, DATA_EXTRACT, Some("PO-2"));
    var s := Store([first, second, shipping], map[PoNumberIs("PO-1") := Throws], {});
    assert FetchInvoicesFromDynamoDB(s) == Success([first, second]) by {
      ScenarioScans(first, second, shipping);
      assert ClassificationIs(INVOICE) != PoNumberIs("PO-1");
    }
    assert RelatedFor(s, first) == [] by {
      ScenarioPoNumbersUsable();
    }
    assert RelatedFor(s, second) == [second, shipping] by {
      ScenarioPoNumbersUsable();
      ScenarioScans(first, second, shipping);
      assert PoNumberIs("PO-2") != PoNumberIs("PO-1");
    }
    TwoInvoices(s, first, second);
  }

  lemma ScenarioPoNumbersUsable()
    ensures UsablePoNumber(Some("PO-1")) && UsablePoNumber(Some("PO-2"))
  {
    UsablePoNumberIff(Some("PO-1"));
    UsablePoNumberIff(Some("PO-2"));
    assert !IsWhitespace("PO-1"[0]) && !IsWhitespace("PO-2"[0]);
  }

  lemma ScenarioScans(first: Record, second: Record, shipping: Record)
    requires first.Classification == INVOICE && second.Classification == INVOICE
    requires shipping.Classification != INVOICE
    requires first.po_number == Some("PO-1")
    requires second.po_number == Some("PO-2") && shipping.po_number == Some("PO-2")
    ensures Select([first, second, shipping], ClassificationIs(INVOICE)) == [first, second]
    ensures Select([first, second, shipping], PoNumberIs("PO-2")) == [second, shipping]
  {
    var table := [first, second, shipping];
    assert table[1..] == [second, shipping] && table[1..][1..] == [shipping] && [shipping][1..] == [];
    assert "PO-1" != "PO-2";
    var byInvoice := ClassificationIs(INVOICE);
    var byPo := PoNumberIs("PO-2");
    assert Select([shipping], byInvoice) == [] && Select([shipping], byPo) == [shipping];
    assert Select(table[1..], byInvoice) == [second] && Select(table[1..], byPo) == [second, shipping];
  }

  lemma TwoInvoices(s: Store, first: Record, second: Record)
    requires FetchInvoicesFromDynamoDB(s) == Success([first, second])
    ensures InvoicesAndRelatedDocuments(s)
      == Success([Bundle(first, RelatedFor(s, first)), Bundle(second, RelatedFor(s, second))])
  {
    var invoices := [first, second];
    assert invoices[1..] == [second] && invoices[1..][1..] == [];
    assert BundlesOf(s, [second]) == [Bundle(second, RelatedFor(s, second))];
    assert BundlesOf(s, invoices) == [Bundle(first, RelatedFor(s, first))] + BundlesOf(s, [second]);
    assert InvoicesAndRelatedDocuments(s) == Success(BundlesOf(s, invoices));
    assert [Bundle(first, RelatedFor(s, first))] + [Bundle(second, RelatedFor(s, second))]
      == [Bundle(first, RelatedFor(s, first)), Bundle(second, RelatedFor(s, second))];
  }

  /** The related-document scan issued for one invoice: one for a usable PO
      number, none otherwise. */
  function ScanFor(invoice: Record): (scans: seq<Filter>)
    ensures |scans| <= 1
  {
    if UsablePoNumber(invoice.po_number) then [PoNumberIs(invoice.po_number.value)] else []
  }

  /** The related-document scans issued for `invoices`, in invoice order. */
  function RelatedScans(invoices: seq<Record>): (scans: seq<Filter>)
    ensures |scans| <= |invoices|
  {
    if invoices == [] then [] else ScanFor(invoices[0]) + RelatedScans(invoices[1..])
  }

  lemma {:induction false} RelatedScansSnoc(invoices: seq<Record>, invoice: Record)
    ensures RelatedScans(invoices + [invoice]) == RelatedScans(invoices) + ScanFor(invoice)
  {
    if invoices == [] {
      assert [] + [invoice] == [invoice];
    } else {
      assert (invoices + [invoice])[1..] == invoices[1..] + [invoice];
      RelatedScansSnoc(invoices[1..], invoice);
    }
  }

  lemma RelatedScansStep(invoices: seq<Record>, i: nat)
    requires i < |invoices|
    ensures RelatedScans(invoices[..i + 1]) == RelatedScans(invoices[..i]) + ScanFor(invoices[i])
  {
    assert invoices[..i + 1] == invoices[..i] + [invoices[i]];
    RelatedScansSnoc(invoices[..i], invoices[i]);
  }

  /** Some invoice of `invoices` carries the PO number `p`. */
  predicate CarriesPo(invoices: seq<Record>, p: string)
  {
    exists k :: 0 <= k < |invoices| && invoices[k].po_number == Some(p)
  }

  /** A related scan is issued for a PO number exactly when some invoice
      carries it and it is usable; no other kind of scan is issued. */
  lemma {:induction false} RelatedScansExactly(invoices: seq<Record>, f: Filter)
    ensures f in RelatedScans(invoices) <==>
      f.PoNumberIs? && UsablePoNumber(Some(f.poNumber)) && CarriesPo(invoices, f.poNumber)
  {
    if invoices != [] {
      RelatedScansExactly(invoices[1..], f);
      if f.PoNumberIs? && CarriesPo(invoices, f.poNumber) {
        var k :| 0 <= k < |invoices| && invoices[k].po_number == Some(f.poNumber);
        if k > 0 {
          assert invoices[1..][k - 1] == invoices[k];
        }
      }
      if f.PoNumberIs? && CarriesPo(invoices[1..], f.poNumber) {
        var k :| 0 <= k < |invoices[1..]| && invoices[1..][k].po_number == Some(f.poNumber);
        assert invoices[k + 1] == invoices[1..][k];
      }
    }
  }

  /** One iteration of the grouping loop: the bundle pushed for `invoice`
      and the related scan issued for it (none for an unusable PO number). A
      rejected or item-less related fetch is caught and gives an empty list. */
  method BundleInvoice(s: Store, invoice: Record) returns (bundle: Bundle, issued: seq<Filter>)
    ensures bundle == Bundle(invoice, RelatedFor(s, invoice))
    ensures issued == ScanFor(invoice)
  {
    var poNumber := invoice.po_number;
    if UsablePoNumber(poNumber) {
      issued := [PoNumberIs(poNumber.value)];
      var related := FetchRelatedDocuments(s, poNumber.value);
      match related
      case Success(docs) =>
        bundle := Bundle(invoice, docs);
      case Failure(_) =>
        bundle := Bundle(invoice, []);
    } else {
      issued := [];
      bundle := Bundle(invoice, []);
    }
  }

  /** The grouping loop of `getInvoicesAndRelatedDocuments`: for each invoice
      in turn push its bundle, so a failed related fetch affects only its own
      invoice. `scans` lists the related scans issued, in order. */
  method BundleAll(s: Store, invoices: seq<Record>) returns (bundles: seq<Bundle>, scans: seq<Filter>)
    ensures bundles == BundlesOf(s, invoices)
    ensures scans == RelatedScans(invoices)
  {
    bundles, scans := [], [];
    var i := 0;
    while i < |invoices|
      invariant 0 <= i <= |invoices|
      invariant bundles == BundlesOf(s, invoices[..i])
      invariant scans == RelatedScans(invoices[..i])
    {
      var bundle, issued := BundleInvoice(s, invoices[i]);
      bundles := bundles + [bundle];
      scans := scans + issued;
      RelatedScansStep(invoices, i);
      BundlesOfStep(s, invoices, i);
      i := i + 1;
    }
    assert invoices[..i] == invoices;
  }

  /** `getInvoicesAndRelatedDocuments`: fetch the invoices, then bundle each
      with its related documents. `scans` lists the store scans issued, in
      order: the invoice scan first, then one per usable PO number. */
  method GetInvoicesAndRelatedDocuments(s: Store) returns (r: Result<seq<Bundle>>, scans: seq<Filter>)
    ensures r == InvoicesAndRelatedDocuments(s)
    ensures r.Failure? ==> scans == [ClassificationIs(INVOICE)]
    ensures r.Success? ==> scans == [ClassificationIs(INVOICE)] + RelatedScans(FetchInvoicesFromDynamoDB(s).value)
  {
    var fetched := FetchInvoicesFromDynamoDB(s);
    if fetched.Failure? {
      r, scans := Failure(fetched.error), [ClassificationIs(INVOICE)];
      return;
    }
    var bundles, related := BundleAll(s, fetched.value);
    r, scans := Success(bundles), [ClassificationIs(INVOICE)] + related;
  }
}
