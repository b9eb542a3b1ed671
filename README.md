# AP document review front end — a Dafny model

This project models the logic core of a small accounts-payable front end.
The front end has three parts:

- a **review queue**: a list of incoming documents waiting for a person to
  classify them;
- a **classification panel**: it writes the chosen type to the document
  table;
- a **transaction binder**: it groups each invoice with the documents that
  carry the same purchase-order (PO) number.

The document table ("ap-document") is modelled as an in-memory store:

- a sequence of records `{DocumentID, Classification, Score, Stage, po_number}`;
- a map of injected scan faults: the call rejects, or it resolves without `Items`;
- a set of keys whose update rejects.

A scan with an equality filter keeps the matching records in table order.
An update without a condition sets three attributes on the keyed record, and
creates that record if it is absent.

Modules:

- `Wrappers`: Option and Result.
- `JsText`: the two string built-ins the code relies on, `trim` and `toUpperCase`.
- `DocumentStore`: the table, its scans and its update.
- `AwsUtils`: the helpers of `src/utils/aws-utils.js`.
- `Cursor`: the clamped Next/Previous used by both pages.
- `DocumentReview`: class `ReviewPage`, for `src/pages/DocumentReview.js`.
- `ClassificationResult`: class `ClassificationPanel`, for `src/components/ClassificationResult.js`.
- `TransactionBinder`: class `BinderPage` and the document selection, for `src/pages/TransactionBinder.js`.
- `Workflow`: how the review page and the panel are wired together, and what
  the panel's choices mean for the binder's menu.

Each React handler is one atomic transition of the page's class. The one
exception is `handleUpdate`, which is split at its `await`: `BeginUpdate`,
then the store call, then `FinishUpdate`. `HandleUpdate` composes the three.

The signed-URL helper `getSignedUrlForS3` is a parameter: a function from
object key to `Option<string>`. `None` stands for the `null` it returns when
signing throws.

Behaviour modelled as the code has it, where a cleaner design would differ:

- The update has no condition on `Stage = REVIEW` and no stale-target check.
  It rewrites a document in any stage, and creates a missing one.
- `NOT_SELECTED` is submitted like any other choice, and its stage resolves
  to `DATA_EXTRACT`.
- A failed or item-less review scan gives an empty list, not an error.
- The PO check upper-cases the raw string without trimming it first, so
  `" n/a"` counts as a usable PO number.
- The binder menu maps "Quote" to `QUOTE` and "PO" to `PURCHASE_ORDER`.
  The panel offers `SALES_QUOTATION` and `PO`. So a document classified
  through the panel as either one is never found by those two sections.
- The related-document scan matches every record with the invoice's PO
  number, and the invoice carries that number too. So an invoice whose PO
  number is usable, and whose related scan succeeds, appears in its own
  related list. With one such invoice and one shipping document on the same
  PO, the bundle lists two related documents, not one.

## Model

| member | source | states |
|---|---|---|
| AwsUtils.MapToReviewItems | src/utils/aws-utils.js:38-42 | each scanned record becomes `{s3Path = DocumentID, classification = Classification, confidence = Score}`, keeping count and order |
| AwsUtils.FetchPdfFilesAndClassificationFromDynamoDB | src/utils/aws-utils.js:25-47 | a rejected or item-less REVIEW scan yields the empty list; every item listed comes from a record of the table in stage REVIEW |
| AwsUtils.ReviewFetchComplete | src/utils/aws-utils.js:26-42 | without a fault, the review fetch is the mapping of the REVIEW records in table order, and every REVIEW record is listed |
| AwsUtils.ResolveStage | src/utils/aws-utils.js:81 | the stage is COMPLETED exactly when the classification is "NC", and DATA_EXTRACT exactly for every other value, NOT_SELECTED included |
| AwsUtils.UpdateParams | src/utils/aws-utils.js:83-95 | the request is keyed by the given DocumentID; it sets Classification to the given value, Score to 1 and Stage to the resolved stage, which is never REVIEW |
| AwsUtils.UpdateClassificationInDynamoDB | src/utils/aws-utils.js:76-107 | fails with 'Could not update classification' exactly when the store rejects the write; otherwise returns the updated store and the three attributes written |
| AwsUtils.UpdateIgnoresCurrentStage | src/utils/aws-utils.js:83-95 | the update succeeds whatever stage the keyed record is in, and rewrites that record's Classification and Stage in place |
| AwsUtils.UpdatedDocumentLeavesReview | src/utils/aws-utils.js:81-92 | after a successful update, a review fetch of the new store no longer lists the document |
| AwsUtils.FetchInvoicesFromDynamoDB | src/utils/aws-utils.js:110-129 | succeeds exactly when the INVOICE scan neither rejects nor lacks `Items`, with the INVOICE records in table order; otherwise fails with the matching error |
| AwsUtils.FetchRelatedDocuments | src/utils/aws-utils.js:132-151 | succeeds exactly when the PO scan neither rejects nor lacks `Items`, with the records whose po_number equals the given string, in table order |
| AwsUtils.UsablePoNumberIff | src/utils/aws-utils.js:163 | a PO number is usable exactly when it is present, has a non-whitespace character, and is not "N/A" in any letter case, compared untrimmed |
| AwsUtils.NACheckDoesNotTrim | src/utils/aws-utils.js:163 | " n/a" is usable; "n/A", a blank string and a missing PO number are not |
| AwsUtils.RelatedFor | src/utils/aws-utils.js:160-184 | an unusable PO number, or a related fetch that fails, gives an empty related list; otherwise the list is the records carrying that PO number |
| AwsUtils.InvoicesAndRelatedDocuments | src/utils/aws-utils.js:154-191 | fails exactly when the invoice fetch fails, with its error; otherwise one bundle per fetched invoice, in invoice order, each holding that invoice unchanged with its related list |
| AwsUtils.BundlesOfAt | src/utils/aws-utils.js:157-185 | the pushed bundles are one per invoice, and bundle k pairs invoice k with its related list |
| AwsUtils.BundlesShareInvoicePo | src/utils/aws-utils.js:163-169 | every related document is in the table and shares its invoice's PO number; with a usable PO number and a successful scan, the invoice is among its own related documents |
| AwsUtils.FailedJoinIsIsolated | src/utils/aws-utils.js:170-177 | when the related fetch for the first of two invoices rejects, the first invoice gets an empty list and the second invoice still gets its own related documents |
| AwsUtils.RelatedScansExactly | src/utils/aws-utils.js:163-165 | a related scan is issued for a PO number exactly when some invoice carries it and it is usable; no other kind of scan is issued |
| AwsUtils.BundleInvoice | src/utils/aws-utils.js:160-184 | one loop iteration pushes the invoice with its related list and issues at most the one scan for its PO number |
| AwsUtils.BundleAll | src/utils/aws-utils.js:157-186 | the loop builds exactly the bundles of the invoices, in order, and issues the related scans in invoice order |
| AwsUtils.GetInvoicesAndRelatedDocuments | src/utils/aws-utils.js:154-191 | the result is `InvoicesAndRelatedDocuments(s)`; the invoice scan comes first, then one related scan per invoice with a usable PO number |
| DocumentStore.SelectMembers | src/utils/aws-utils.js:133-142 | a filtered scan holds exactly the table records that match the filter |
| DocumentStore.SelectAppend | src/utils/aws-utils.js:142 | a filtered scan distributes over concatenation, so it keeps table order |
| DocumentStore.Scan | src/utils/aws-utils.js:36 | a scan rejects exactly when a throwing fault is injected for its filter, resolves without `Items` exactly when an item-less fault is, and otherwise resolves with the matching records in table order |
| DocumentStore.CreatedRecordScansLast | src/utils/aws-utils.js:83-100 | an update that creates a record leaves every scan it does not match as it was, and (in the model, which appends) puts it after every existing record in each scan it matches |
| DocumentStore.ScanSound | src/utils/aws-utils.js:111-120 | a scan with no injected fault resolves with `Items`, holding exactly the matching records |
| DocumentStore.Upsert | src/utils/aws-utils.js:85-92 | the keyed record gets the three new attributes and keeps its DocumentID and po_number; every other record is unchanged; a missing key is appended as a record holding only the key and the three attributes |
| DocumentStore.Update | src/utils/aws-utils.js:100 | rejects exactly for an empty key or an injected fault; otherwise the table is upserted |
| DocumentStore.UpsertKeepsKeysUnique | src/utils/aws-utils.js:85-86 | an update never creates a second record with the same DocumentID |
| JsText.TrimStart | src/utils/aws-utils.js:163 | removes exactly the leading whitespace, leaving a suffix that starts with a non-whitespace character |
| JsText.TrimEnd | src/utils/aws-utils.js:163 | removes exactly the trailing whitespace, leaving a prefix that ends with a non-whitespace character |
| JsText.TrimEmptyIffBlank | src/utils/aws-utils.js:163 | `trim()` gives the empty string exactly when every character is whitespace |
| JsText.UpperIsNAIff | src/utils/aws-utils.js:163 | `toUpperCase()` gives "N/A" exactly for "n/a", "N/a", "n/A" and "N/A" |
| Cursor.Next | src/pages/DocumentReview.js:38-42 | the cursor moves forward by one exactly when it is below length-1; otherwise it stays; an in-range cursor stays in range |
| Cursor.Previous | src/pages/DocumentReview.js:44-48 | the cursor moves back by one exactly when it is above 0; otherwise it stays; it never goes negative |
| Cursor.NextTimesStopsAtLast | src/pages/DocumentReview.js:38-42 | repeated Next walks forward one entry per press and then stays on the last entry |
| Cursor.NextPreviousUndo | src/pages/DocumentReview.js:38-48 | Previous undoes a Next that moved, and Next undoes a Previous that moved |
| DocumentReview.AttachUrls | src/pages/DocumentReview.js:22-25 | each loaded item keeps its fields and gets `url = locator(s3Path)`, with count and order preserved |
| DocumentReview.KeepOthersDropsOne | src/pages/DocumentReview.js:56 | the index filter drops exactly the entry at the cursor and keeps the others in order |
| DocumentReview.KeepOthersKeepsAll | src/pages/DocumentReview.js:56 | the index filter with an index outside the list (negative, or at or past its end) keeps every entry |
| DocumentReview.RemoveAt | src/pages/DocumentReview.js:52-59 | the new list is one shorter, keeps the other entries in their relative order, and as a multiset is the old list minus the removed entry |
| DocumentReview.CursorAfterRemoval | src/pages/DocumentReview.js:62-64 | after removal the cursor is below the new length, or 0 for an empty list; it moves, back by one, only when the removed entry was last and the cursor was above 0 |
| DocumentReview.ReviewPage.constructor | src/pages/DocumentReview.js:9-11 | the page starts with the cursor at 0, an empty list, and loading raised |
| DocumentReview.ReviewPage.FetchData | src/pages/DocumentReview.js:14-36 | the list becomes the review fetch with URLs attached, and loading is false afterwards |
| DocumentReview.ReviewPage.HandleNext | src/pages/DocumentReview.js:38-42 | the cursor becomes Next of the old cursor; the page stays valid |
| DocumentReview.ReviewPage.HandlePrevious | src/pages/DocumentReview.js:44-48 | the cursor becomes Previous of the old cursor; the page stays valid |
| DocumentReview.ReviewPage.HandleClassificationUpdate | src/pages/DocumentReview.js:51-65 | the list loses exactly the entry under the cursor; the cursor is repaired; the page stays valid |
| DocumentReview.ReviewPage.Current | src/pages/DocumentReview.js:71-75 | no current document exactly when the list is empty; otherwise the entry under the cursor |
| DocumentReview.ReviewPage.Render | src/pages/DocumentReview.js:67-101 | the loading message exactly while loading; the "all documents updated" state exactly for an empty list once loaded, reading no entry; otherwise the entry under the cursor, the count, and buttons disabled exactly where the cursor cannot move |
| ClassificationResult.LabelsTellChoicesApart | src/components/ClassificationResult.js:47-72 | NOT_SELECTED reads "Not classified yet"; every other choice is shown as itself; no two choices read the same |
| ClassificationResult.ConfidenceLabel | src/components/ClassificationResult.js:51 | "N/A" exactly for a missing or zero confidence; otherwise the score itself |
| ClassificationResult.ClassificationPanel.constructor | src/components/ClassificationResult.js:5-6 | the pending choice starts as NOT_SELECTED and nothing is in flight |
| ClassificationResult.ClassificationPanel.ShowDocument | src/components/ClassificationResult.js:9-11 | the pending choice resets to NOT_SELECTED exactly when the displayed s3Path changes |
| ClassificationResult.ClassificationPanel.SelectType | src/components/ClassificationResult.js:57-60 | the pending choice becomes the selected value |
| ClassificationResult.ClassificationPanel.ButtonEnabled | src/components/ClassificationResult.js:74 | the update button is enabled exactly when no update is in flight |
| ClassificationResult.ClassificationPanel.BeginUpdate | src/components/ClassificationResult.js:14-24 | a missing s3Path issues no request and clears `updating`; otherwise `updating` stays raised and the request is the path with the pending choice, NOT_SELECTED included |
| ClassificationResult.ClassificationPanel.FinishUpdate | src/components/ClassificationResult.js:27-38 | the callback runs exactly when the write succeeded; a failed write leaves the review page unchanged; `updating` is cleared either way |
| ClassificationResult.ClassificationPanel.HandleUpdate | src/components/ClassificationResult.js:13-39 | a missing s3Path changes no store and calls nothing back; otherwise the store is updated with the pending choice, and the review page drops its entry only if that update succeeded; `updating` ends false |
| TransactionBinder.SelectedClassification | src/pages/TransactionBinder.js:69 | a section on the menu gets its mapped classification; any other section gets none |
| TransactionBinder.MenuTable | src/pages/TransactionBinder.js:7-20 | nine distinct sections, all mapped; the initial section 'Invoice' maps to INVOICE |
| TransactionBinder.FindRelated | src/pages/TransactionBinder.js:72-74 | the result is the first related document whose upper-cased Classification equals the mapped one; none exactly when no document matches |
| TransactionBinder.SelectedDocument | src/pages/TransactionBinder.js:68-81 | the shown document is the first match; failing that, for 'Invoice', the bundle's invoice; otherwise nothing, and nothing past the last bundle |
| TransactionBinder.InvoiceSectionFallsBack | src/pages/TransactionBinder.js:77-80 | the 'Invoice' section always shows a document for an existing bundle, and shows the invoice itself when no related document is an invoice |
| TransactionBinder.DocumentImageUrl | src/pages/TransactionBinder.js:77-81 | the URL is the signed URL of the selected document, or '' when nothing is selected |
| TransactionBinder.ImageAreaFor | src/pages/TransactionBinder.js:112-118 | the loading message exactly while loading; once loaded, "Not Found" exactly for an empty or null URL, and the document at that URL for any other |
| TransactionBinder.BinderPage.constructor | src/pages/TransactionBinder.js:20-24 | starts on 'Invoice' with no bundles, cursor 0, not loading and no error |
| TransactionBinder.BinderPage.HandleMenuClick | src/pages/TransactionBinder.js:27-29 | the selected section becomes the clicked one |
| TransactionBinder.BinderPage.FetchInvoices | src/pages/TransactionBinder.js:37-51 | on success the bundles are replaced and the error cleared; on failure the error message is set and the bundles kept; loading ends false |
| TransactionBinder.BinderPage.HandleNextInvoice | src/pages/TransactionBinder.js:54-58 | the bundle cursor becomes Next of the old cursor |
| TransactionBinder.BinderPage.HandlePreviousInvoice | src/pages/TransactionBinder.js:61-65 | the bundle cursor becomes Previous of the old cursor |
| TransactionBinder.BinderPage.DocumentImage | src/pages/TransactionBinder.js:112-118 | the loading message exactly while loading; once loaded, "Not Found" exactly when no document is selected or its signed URL is null or empty, and otherwise the selected document at that URL |
| Workflow.ClassifyDisplayed | src/pages/DocumentReview.js:86-91 | submitting the displayed entry drops it only after a successful write of its id; the panel then shows the new current entry, with its choice reset when the document changed |
| Workflow.ReviewedChoicesMissQuoteAndPo | src/pages/TransactionBinder.js:8-9 | no classification the panel offers is found by the binder's "Quote" or "PO" section |
| Workflow.QuoteAndPoChoicesMatchNoSection | src/components/ClassificationResult.js:62-63 | a document classified SALES_QUOTATION or PO matches no section of the binder's menu |
| Workflow.SingleDocumentReview | src/utils/aws-utils.js:25-107 | one document in REVIEW classified "NC": it is listed, written with NC, score 1 and COMPLETED, and removing it empties the list |
| Workflow.SingleDocumentReviewPage | src/components/ClassificationResult.js:13-39 | the review page loads the one REVIEW document, the panel submits NC for it, the write succeeds with NC, score 1 and COMPLETED, and the page then has no current document and shows the "all documents updated" state |

## Left out

- AWS SDK configuration and the logging of credentials (src/utils/aws-utils.js:6-19): environment input and console output.
- The real DynamoDB and S3 calls: replaced by the in-memory store with injected faults and by the locator parameter. The bucket name, the 15-minute expiry and the signing time are folded into the locator, so two calls for the same key give the same URL in the model; no contract relies on that.
- DocumentStore.CreatedRecordScansLast: where a created record appears in a scan is a modelling choice. The model appends it to the table; DynamoDB returns a scan in key-hash order, so the record could appear anywhere among the matches. Only the half saying that other scans are unchanged follows from the source.
- Scan pagination: a scan is taken to return all matching records at once; `LastEvaluatedKey` is not modelled.
- A `po_number` that is not a string (which would make `trim` throw outside the inner try and fail the whole grouping): `po_number` is an optional string.
- A `Classification` that is not a string (which would make `toUpperCase` throw while the binder renders, src/pages/TransactionBinder.js:73): `Classification` is always a string.
- JsText.ToUpper: maps only the ASCII letters. Full Unicode case mapping is not modelled. It decides the comparison with "N/A" exactly, since only "n" and "a" upper-case to "N" and "A" among the characters that can reach it. For the binder's menu match it can differ: JavaScript upper-cases non-ASCII characters such as U+0131 (dotless i), U+017F (long s) and the ligature U+FB01 to ASCII letters, so a Classification such as "ınvoıce" matches the 'Invoice' section in the page but not in TransactionBinder.MatchesSection and TransactionBinder.FindRelated.
- Scan faults are keyed by filter, so every scan with the same filter has the same outcome. The page makes one related-document call per invoice (src/utils/aws-utils.js:164-177), so two invoices sharing a PO number could see one call fail and the other succeed; the model gives both the same outcome.
- ClassificationResult.ConfidenceLabel: a NaN score is not modelled. Scores are reals, and the falsy ones are the missing score and 0.
- Asynchrony and React scheduling: each handler is one atomic transition. A second click during an update, and renders between state updates, are not modelled.
- DocumentReview.ReviewPage.HandleClassificationUpdate: the in-place assignment of the new classification to the shared entry object is not modelled as aliasing. That entry is removed at once, so the list afterwards is the same either way.
- DocumentReview.ReviewPage.HandleClassificationUpdate, ClassificationResult.ClassificationPanel.HandleUpdate: require a non-empty list, because the panel is rendered only while a document is displayed.
- DocumentReview.ReviewPage.FetchData: requires cursor 0, because the mount effect runs once, before any navigation.
- The rendered markup (JSX), `alert` and `console` calls. The binder's details column and its footer buttons are presentational.
- src/App.js, src/pages/404.js, src/components/DocumentImage.js and src/components/FooterNavigation.js are not part of this model: routing, a static page, and presentational components with no logic.
