/** How the pieces are wired together: the review page renders the panel
    for the entry under its cursor (src/pages/DocumentReview.js:86-91), and
    what a reviewer's choice means for the binder's menu. */
module Workflow {
  import opened Wrappers
  import opened JsText
  import opened DocumentStore
  import opened AwsUtils
  import opened DocumentReview
  import opened ClassificationResult
  import opened TransactionBinder

  /** Submit the panel's choice for the displayed entry, then re-render the
      panel for whatever entry the cursor is on afterwards. On success the
      store holds the new classification and stage for that document, the
      entry is gone from the list, and a panel now showing a different
      document has its choice reset. On failure nothing but the store call
      happened. */
  method ClassifyDisplayed(s: Store, page: ReviewPage, panel: ClassificationPanel) returns (s': Store, notified: bool)
    requires page.Valid() && page.pdfFilesState != [] && panel.ButtonEnabled()
    requires panel.s3Path == Some(page.pdfFilesState[page.currentPdfIndex].s3Path)
    modifies page`pdfFilesState, page`currentPdfIndex, panel
    ensures page.Valid() && !panel.updating
    ensures var id := old(page.pdfFilesState[page.currentPdfIndex].s3Path);
      notified <==> UpdateClassificationInDynamoDB(s, id, old(panel.documentType)).Success?
    ensures notified ==>
      var id := old(page.pdfFilesState[page.currentPdfIndex].s3Path);
      s' == UpdateClassificationInDynamoDB(s, id, old(panel.documentType)).value.0
      && page.pdfFilesState == RemoveAt(old(page.pdfFilesState), old(page.currentPdfIndex))
    ensures !notified ==>
      (s' == s && page.pdfFilesState == old(page.pdfFilesState)
       && page.currentPdfIndex == old(page.currentPdfIndex) && panel.documentType == old(panel.documentType))
    ensures page.pdfFilesState != [] ==> panel.s3Path == Some(page.pdfFilesState[page.currentPdfIndex].s3Path)
    ensures page.pdfFilesState != [] && panel.s3Path != old(panel.s3Path) ==> panel.documentType == NOT_SELECTED
  {
    s', notified := panel.HandleUpdate(s, page);
    if page.pdfFilesState != [] {
      panel.ShowDocument(Some(page.pdfFilesState[page.currentPdfIndex].s3Path));
    }
  }

  /** A reviewer can never write a classification the binder's "Quote" or
      "PO" sections look for: those map to QUOTE and PURCHASE_ORDER, while the
      panel offers SALES_QUOTATION and PO. */
  lemma ReviewedChoicesMissQuoteAndPo(d: Record)
    requires d.Classification in Choices
    ensures !MatchesSection(d, SelectedClassification("Quote"))
    ensures !MatchesSection(d, SelectedClassification("PO"))
  {
    var c := d.Classification;
    assert SelectedClassification("Quote") == Some("QUOTE");
    assert SelectedClassification("PO") == Some("PURCHASE_ORDER");
    assert |ToUpper(c)| == |c|;
    assert |c| != 5 && |c| != 14 by {
      assert c in Choices;
    }
  }

  /** A document the reviewer classified SALES_QUOTATION or PO matches no
      section of the binder's menu. */
  lemma QuoteAndPoChoicesMatchNoSection(d: Record, section: string)
    requires d.Classification == "SALES_QUOTATION" || d.Classification == "PO"
    ensures !MatchesSection(d, SelectedClassification(section))
  {
    assert ToUpper(d.Classification) == d.Classification by {
      assert forall i :: 0 <= i < |d.Classification| ==> !('a' <= d.Classification[i] <= 'z');
    }
    assert d.Classification !in MenuToClassification.Values;
  }

  /** One unclassified document in REVIEW, classified NC: the review fetch
      lists it, the update writes NC, score 1 and COMPLETED, and removing it
      empties the list. */
  lemma SingleDocumentReview()
    ensures
      var d1 := Record("d1", "UNCLASSIFIED", None, REVIEW, None);
      var s := Store([d1], map[], {});
      FetchPdfFilesAndClassificationFromDynamoDB(s) == [ReviewItem("d1", "UNCLASSIFIED", None)]
      && UpdateClassificationInDynamoDB(s, "d1", NC)
        == Success((Store([Record("d1", NC, Some(1.0), COMPLETED, None)], map[], {}),
                    UpdatedAttributes(NC, 1.0, COMPLETED)))
      && RemoveAt([ToReviewItem(d1)], 0) == []
  {
    var d1 := Record("d1", "UNCLASSIFIED", None, REVIEW, None);
    var s := Store([d1], map[], {});
    assert [d1][1..] == [];
    assert Select([d1], StageIs(REVIEW)) == [d1];
    assert HasKey([d1], "d1") by {
      assert [d1][0].DocumentID == "d1";
    }
    var t := Upsert([d1], UpdateParams("d1", NC));
    assert |t| == 1 && t[0] == Record("d1", NC, Some(1.0), COMPLETED, None);
    assert t == [Record("d1", NC, Some(1.0), COMPLETED, None)];
  }

  /** The same document through the pages: the review page loads it, the
      panel shown for it submits NC, the write succeeds, and the page is left
      with no current document and shows the "all documents updated" state. */
  method SingleDocumentReviewPage(locate: Locator) returns (page: ReviewPage, s': Store, notified: bool)
    ensures notified
    ensures s' == Store([Record("d1", NC, Some(1.0), COMPLETED, None)], map[], {})
    ensures page.Valid() && page.Current() == None && page.Render() == AllDocumentsUpdated
  {
    var d1 := Record("d1", "UNCLASSIFIED", None, REVIEW, None);
    var s := Store([d1], map[], {});
    SingleDocumentReview();
    page := new ReviewPage();
    page.FetchData(s, locate);
    assert |page.pdfFilesState| == 1 && page.pdfFilesState[0].s3Path == "d1";
    var panel := new ClassificationPanel(Some(page.pdfFilesState[0].s3Path));
    panel.SelectType(NC);
    s', notified := panel.HandleUpdate(s, page);
  }
}
