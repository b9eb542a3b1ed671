/** The binder page of src/pages/TransactionBinder.js: the bundles fetched on
    mount, a cursor over them, the selected menu section, and the document
    shown for that section (the first related document of the mapped
    classification, else the invoice itself for the 'Invoice' section). */
module TransactionBinder {
  import opened Wrappers
  import opened JsText
  import opened DocumentStore
  import opened AwsUtils
  import Cursor

  /** The menu, in display order. */
  const MenuSections: seq<string> := [
    "Quote", "PO", "Order Confirmation", "Shipping Doc", "Inventory Receipt",
    "Invoice", "Payment", "RMA", "Credit"]

  /** `menuToClassificationMap`, with its strings as written. */
  const MenuToClassification: map<string, string> := map[
    "Quote" := "QUOTE",
    "PO" := "PURCHASE_ORDER",
    "Order Confirmation" := "ORDER_CONFIRMATION",
    "Shipping Doc" := "SHIPPING_DOCUMENT",
    "Inventory Receipt" := "INVENTORY_RECEIPT",
    "Invoice" := INVOICE,
    "Payment" := "PAYMENT",
    "RMA" := "RMA",
    "Credit" := "CREDIT"]

  const INITIAL_SECTION := "Invoice"

  /** `menuToClassificationMap[section]`, undefined for a section not on the menu. */
  function SelectedClassification(section: string): (r: Option<string>)
    ensures r.Some? <==> section in MenuSections
    ensures r.Some? ==> r.value == MenuToClassification[section]
  {
    if section in MenuToClassification then Some(MenuToClassification[section]) else None
  }

  /** The menu has nine distinct sections, each mapped, and 'Invoice' maps to
      the classification the invoice fetch uses. */
  lemma MenuTable()
    ensures |MenuSections| == 9
    ensures forall i, j :: 0 <= i < j < |MenuSections| ==> MenuSections[i] != MenuSections[j]
    ensures MenuToClassification.Keys == set s | s in MenuSections
    ensures INITIAL_SECTION in MenuSections && MenuToClassification[INITIAL_SECTION] == INVOICE
  {
  }

  /** `doc.Classification.toUpperCase() === selectedClassification`. */
  predicate MatchesSection(doc: Record, selected: Option<string>)
  {
    selected.Some? && ToUpper(doc.Classification) == selected.value
  }

  /** `docs[i]` is the first document matching the section. */
  predicate FirstMatchAt(docs: seq<Record>, selected: Option<string>, i: int)
  {
    0 <= i < |docs| && MatchesSection(docs[i], selected)
    && forall j :: 0 <= j < i ==> !MatchesSection(docs[j], selected)
  }

  /** `relatedDocuments.find(...)`: the first document matching the section. */
  function FindRelated(docs: seq<Record>, selected: Option<string>): (r: Option<Record>)
    ensures r.None? <==> forall i :: 0 <= i < |docs| ==> !MatchesSection(docs[i], selected)
    ensures r.Some? ==> exists i :: FirstMatchAt(docs, selected, i) && docs[i] == r.value
  {
    if docs == [] then None
    else if MatchesSection(docs[0], selected) then Some(docs[0])
    else
      var rest := FindRelated(docs[1..], selected);
      assert forall i :: 1 <= i < |docs| ==> docs[i] == docs[1..][i - 1];
      if rest.Some? then
        assert exists i :: FirstMatchAt(docs, selected, i) && docs[i] == rest.value by {
          var i :| FirstMatchAt(docs[1..], selected, i) && docs[1..][i] == rest.value;
          assert FirstMatchAt(docs, selected, i + 1);
        }
        rest
      else rest
  }

  /** `invoicesData[currentInvoiceIndex]`, undefined past the end. */
  function BundleAt(bundles: seq<Bundle>, index: nat): Option<Bundle>
  {
    if index < |bundles| then Some(bundles[index]) else None
  }

  /** The document shown for `section`: the first related document of the
      current bundle whose upper-cased classification is the section's mapped
      one; failing that, for the 'Invoice' section, the bundle's invoice;
      otherwise nothing. */
  function SelectedDocument(bundles: seq<Bundle>, index: nat, section: string): (r: Option<Record>)
    ensures index >= |bundles| ==> r.None?
    ensures index < |bundles| ==>
      var b := bundles[index];
      var found := FindRelated(b.relatedDocuments, SelectedClassification(section));
      (found.Some? ==> r == found)
      && (found.None? && section == INITIAL_SECTION ==> r == Some(b.invoice))
      && (found.None? && section != INITIAL_SECTION ==> r.None?)
  {
    var current := BundleAt(bundles, index);
    var related := if current.Some?
      then FindRelated(current.value.relatedDocuments, SelectedClassification(section)) else None;
    if related.Some? then related
    else if section == INITIAL_SECTION && current.Some? then Some(current.value.invoice)
    else None
  }

  /** The 'Invoice' section always shows something for an existing bundle:
      a related document classified INVOICE (in any letter case) if there is
      one, else the invoice itself. */
  lemma InvoiceSectionFallsBack(bundles: seq<Bundle>, index: nat)
    requires index < |bundles|
    ensures SelectedDocument(bundles, index, INITIAL_SECTION).Some?
    ensures (forall d :: d in bundles[index].relatedDocuments ==> ToUpper(d.Classification) != INVOICE)
      ==> SelectedDocument(bundles, index, INITIAL_SECTION) == Some(bundles[index].invoice)
  {
    var docs := bundles[index].relatedDocuments;
    if forall d :: d in docs ==> ToUpper(d.Classification) != INVOICE {
      assert forall i :: 0 <= i < |docs| ==> docs[i] in docs;
    }
  }

  /** `documentImageUrl`: the signed URL of the selected document, or `''`
      when nothing is selected. None stands for the `null` of a failed signing. */
  function DocumentImageUrl(bundles: seq<Bundle>, index: nat, section: string, locate: Locator)
    : (url: Option<string>)
    ensures SelectedDocument(bundles, index, section).None? ==> url == Some("")
    ensures SelectedDocument(bundles, index, section).Some? ==>
      url == locate(SelectedDocument(bundles, index, section).value.DocumentID)
  {
    match SelectedDocument(bundles, index, section)
    case Some(doc) => locate(doc.DocumentID)
    case None => Some("")
  }

  /** The left column: a loading message, the document, or "Not Found". */
  datatype ImageArea = LoadingMessage | Document(url: string) | NotFound

  function ImageAreaFor(loading: bool, url: Option<string>): (a: ImageArea)
    ensures a == LoadingMessage <==> loading
    ensures a == NotFound <==> !loading && (url == None || url == Some(""))
    ensures !loading && url.Some? && url.value != "" ==> a == Document(url.value)
    ensures a.Document? ==> url == Some(a.url) && a.url != ""
  {
    if loading then LoadingMessage
    else if url.Some? && url.value != "" then Document(url.value)
    else NotFound
  }

  const FETCH_ERROR := "Failed to fetch invoices"

  class BinderPage {
    var selectedSection: string
    var invoicesData: seq<Bundle>
    var currentInvoiceIndex: nat
    var loading: bool
    var error: Option<string>

    constructor ()
      ensures selectedSection == INITIAL_SECTION && invoicesData == [] && currentInvoiceIndex == 0
      ensures !loading && error == None
    {
      selectedSection := INITIAL_SECTION;
      invoicesData := [];
      currentInvoiceIndex := 0;
      loading := false;
      error := None;
    }

    method HandleMenuClick(section: string)
      modifies this`selectedSection
      ensures selectedSection == section
    {
      selectedSection := section;
    }

    /** fetchInvoices: clear the error, load the bundles; on failure set the
        error message and keep the old bundles; stop loading in every case.
        The cursor is left where it was. */
    method FetchInvoices(s: Store)
      modifies this`loading, this`error, this`invoicesData
      ensures !loading
      ensures InvoicesAndRelatedDocuments(s).Success? ==>
        invoicesData == InvoicesAndRelatedDocuments(s).value && error == None
      ensures InvoicesAndRelatedDocuments(s).Failure? ==>
        invoicesData == old(invoicesData) && error == Some(FETCH_ERROR)
    {
      loading := true;
      error := None;
      var data, _ := GetInvoicesAndRelatedDocuments(s);
      match data {
        case Success(bundles) =>
          invoicesData := bundles;
        case Failure(_) =>
          error := Some(FETCH_ERROR);
      }
      loading := false;
    }

    method HandleNextInvoice()
      modifies this`currentInvoiceIndex
      ensures currentInvoiceIndex == Cursor.Next(old(currentInvoiceIndex), |invoicesData|)
    {
      if currentInvoiceIndex < |invoicesData| - 1 {
        currentInvoiceIndex := currentInvoiceIndex + 1;
      }
    }

    method HandlePreviousInvoice()
      modifies this`currentInvoiceIndex
      ensures currentInvoiceIndex == Cursor.Previous(old(currentInvoiceIndex))
    {
      if currentInvoiceIndex > 0 {
        currentInvoiceIndex := currentInvoiceIndex - 1;
      }
    }

    /** What the left column shows for the current state. */
    function DocumentImage(locate: Locator): (a: ImageArea)
      reads this
      ensures a == LoadingMessage <==> loading
      ensures var doc := SelectedDocument(invoicesData, currentInvoiceIndex, selectedSection);
        a == NotFound <==>
          (!loading && (doc.None? || locate(doc.value.DocumentID) == None || locate(doc.value.DocumentID) == Some("")))
      ensures var doc := SelectedDocument(invoicesData, currentInvoiceIndex, selectedSection);
        !loading && doc.Some? && locate(doc.value.DocumentID).Some? && locate(doc.value.DocumentID).value != ""
        ==> a == Document(locate(doc.value.DocumentID).value)
    {
      ImageAreaFor(loading, DocumentImageUrl(invoicesData, currentInvoiceIndex, selectedSection, locate))
    }
  }
}
