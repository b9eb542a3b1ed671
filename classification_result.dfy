/** The classification panel of src/components/ClassificationResult.js: the
    pending choice (`documentType`), the in-flight flag (`updating`) and the
    document it is shown for (`s3Path`). Submitting writes the choice to the
    store and, only once that write resolved, hands it to the review page. */
module ClassificationResult {
  import opened Wrappers
  import opened DocumentStore
  import opened AwsUtils
  import opened DocumentReview

  const NOT_SELECTED := "NOT_SELECTED"

  /** The values of the selection list, in display order. */
  const Choices: seq<string> := [
    NOT_SELECTED, "SALES_QUOTATION", "PO", "ORDER_CONFIRMATION", "SHIPPING_DOCUMENT",
    "PACKING_SLIP", "INVENTORY_RECEIPT", "INVOICE", "PAYMENT", "RMA", "CREDIT", NC]

  /** The "Classification:" line. */
  function ClassificationLabel(documentType: string): string
  {
    if documentType == NOT_SELECTED then "Not classified yet" else documentType
  }

  /** Every choice is displayed differently, and the sentinel reads "Not
      classified yet" while every other choice is shown as itself. */
  lemma LabelsTellChoicesApart()
    ensures ClassificationLabel(NOT_SELECTED) == "Not classified yet"
    ensures forall c :: c in Choices && c != NOT_SELECTED ==> ClassificationLabel(c) == c
    ensures forall c, d :: c in Choices && d in Choices && c != d ==>
      ClassificationLabel(c) != ClassificationLabel(d)
  {
    assert "Not classified yet" !in Choices;
  }

  /** The "Confidence:" line: a score, or "N/A" for a falsy one. */
  datatype ConfidenceText = NotAvailable | Shown(score: real)

  /** `confidence || "N/A"`: absent and zero scores are falsy. */
  function ConfidenceLabel(confidence: Option<real>): (t: ConfidenceText)
    ensures t == NotAvailable <==> confidence == None || confidence == Some(0.0)
    ensures t.Shown? ==> confidence == Some(t.score)
  {
    if confidence.None? || confidence.value == 0.0 then NotAvailable else Shown(confidence.value)
  }

  /** `!s3Path`: a missing or empty path. */
  predicate MissingPath(s3Path: Option<string>)
  {
    s3Path.None? || s3Path.value == ""
  }

  class ClassificationPanel {
    var s3Path: Option<string>
    var documentType: string
    var updating: bool

    constructor (s3Path: Option<string>)
      ensures this.s3Path == s3Path && documentType == NOT_SELECTED && !updating
    {
      this.s3Path := s3Path;
      documentType := NOT_SELECTED;
      updating := false;
    }

    /** A re-render with the `s3Path` prop: when the path changed, the effect
        resets the pending choice to the sentinel. */
    method ShowDocument(path: Option<string>)
      modifies this`s3Path, this`documentType
      ensures s3Path == path
      ensures path != old(s3Path) ==> documentType == NOT_SELECTED
      ensures path == old(s3Path) ==> documentType == old(documentType)
    {
      var changed := path != s3Path;
      s3Path := path;
      if changed {
        documentType := NOT_SELECTED;
      }
    }

    /** The select's onChange; the list is not disabled while updating. */
    method SelectType(value: string)
      requires value in Choices
      modifies this`documentType
      ensures documentType == value
    {
      documentType := value;
    }

    /** The button is disabled while an update is in flight. */
    predicate ButtonEnabled(): (enabled: bool)
      reads this
      ensures enabled <==> !updating
    {
      !updating
    }

    /** First half of handleUpdate, up to the await: raise `updating`, and
        either give up on a missing path (lowering it again) or return the key
        and the choice to write. Nothing checks the choice, so the sentinel
        itself is submitted when nothing was picked. */
    method BeginUpdate() returns (request: Option<(string, string)>)
      requires ButtonEnabled()
      modifies this`updating
      ensures request.None? <==> MissingPath(s3Path)
      ensures request.Some? ==> request.value == (s3Path.value, documentType)
      ensures updating <==> request.Some?
    {
      updating := true;
      if s3Path.None? || s3Path.value == "" {
        updating := false;
        return None;
      }
      request := Some((s3Path.value, documentType));
    }

    /** Second half of handleUpdate, after the await: on success call the
        review page's callback with the submitted choice; in every case lower
        `updating`. A rejected write leaves the page untouched. */
    method FinishUpdate(written: bool, chosen: string, page: ReviewPage) returns (notified: bool)
      requires updating
      requires page.Valid() && page.pdfFilesState != []
      modifies this`updating, page`pdfFilesState, page`currentPdfIndex
      ensures !updating && notified == written
      ensures page.Valid()
      ensures notified ==>
        page.pdfFilesState == RemoveAt(old(page.pdfFilesState), old(page.currentPdfIndex))
        && page.currentPdfIndex == CursorAfterRemoval(old(page.currentPdfIndex), |page.pdfFilesState|)
      ensures !notified ==>
        page.pdfFilesState == old(page.pdfFilesState) && page.currentPdfIndex == old(page.currentPdfIndex)
    {
      notified := false;
      if written {
        page.HandleClassificationUpdate(chosen);
        notified := true;
      }
      updating := false;
    }

    /** handleUpdate as one transition: no store call for a missing path;
        otherwise the update of `s3Path` with the pending choice, then the
        callback only if that update resolved. Returns the store afterwards. */
    method HandleUpdate(s: Store, page: ReviewPage) returns (s': Store, notified: bool)
      requires ButtonEnabled()
      requires page.Valid() && page.pdfFilesState != []
      modifies this`updating, page`pdfFilesState, page`currentPdfIndex
      ensures !updating && page.Valid()
      ensures MissingPath(s3Path) ==> s' == s && !notified
      ensures !MissingPath(s3Path) ==>
        var u := UpdateClassificationInDynamoDB(s, s3Path.value, documentType);
        notified == u.Success? && s' == (if u.Success? then u.value.0 else s)
      ensures notified ==>
        page.pdfFilesState == RemoveAt(old(page.pdfFilesState), old(page.currentPdfIndex))
        && page.currentPdfIndex == CursorAfterRemoval(old(page.currentPdfIndex), |page.pdfFilesState|)
      ensures !notified ==>
        page.pdfFilesState == old(page.pdfFilesState) && page.currentPdfIndex == old(page.currentPdfIndex)
    {
      s' := s;
      notified := false;
      var request := BeginUpdate();
      if request.None? {
        return;
      }
      var (documentID, chosen) := request.value;
      var outcome := UpdateClassificationInDynamoDB(s, documentID, chosen);
      if outcome.Success? {
        s' := outcome.value.0;
      }
      notified := FinishUpdate(outcome.Success?, chosen, page);
    }
  }
}
