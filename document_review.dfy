/** The review page of src/pages/DocumentReview.js: the list of documents
    awaiting review, the cursor over it, and the loading flag. Classifying the
    displayed document drops it from the list and repairs the cursor. */
module DocumentReview {
  import opened Wrappers
  import opened DocumentStore
  import opened AwsUtils
  import Cursor

  /** One entry of the list: a review item with its signed URL attached. */
  datatype PdfFile = PdfFile(s3Path: string, classification: string, confidence: Option<real>, url: Option<string>)

  /** `items.map(item => ({ ...item, url: getSignedUrlForS3(item.s3Path) }))`. */
  function AttachUrls(items: seq<ReviewItem>, locate: Locator): (files: seq<PdfFile>)
    ensures |files| == |items|
    ensures forall i :: 0 <= i < |items| ==>
      files[i].s3Path == items[i].s3Path && files[i].classification == items[i].classification
      && files[i].confidence == items[i].confidence && files[i].url == locate(items[i].s3Path)
  {
    seq(|items|, i requires 0 <= i < |items| =>
      PdfFile(items[i].s3Path, items[i].classification, items[i].confidence, locate(items[i].s3Path)))
  }

  /** `files.filter((_, index) => index !== skip)`: every element whose
      position differs from `skip`. */
  function KeepOthers<T>(files: seq<T>, skip: int): (r: seq<T>)
    decreases |files|
  {
    if files == [] then []
    else (if skip == 0 then [] else [files[0]]) + KeepOthers(files[1..], skip - 1)
  }

  /** The filter drops exactly the element at `skip` and keeps the rest in order. */
  lemma {:induction false} KeepOthersDropsOne<T>(files: seq<T>, skip: int)
    requires 0 <= skip < |files|
    ensures KeepOthers(files, skip) == files[..skip] + files[skip + 1..]
    decreases |files|
  {
    if skip == 0 {
      KeepOthersKeepsAll(files[1..], -1);
    } else {
      KeepOthersDropsOne(files[1..], skip - 1);
      assert files[1..][..skip - 1] == files[1..skip];
      assert files[1..][skip..] == files[skip + 1..];
      assert files[..skip] == [files[0]] + files[1..skip];
    }
  }

  /** With a position outside the list the filter keeps everything. */
  lemma {:induction false} KeepOthersKeepsAll<T>(files: seq<T>, skip: int)
    requires skip < 0 || skip >= |files|
    ensures KeepOthers(files, skip) == files
    decreases |files|
  {
    if files != [] {
      KeepOthersKeepsAll(files[1..], skip - 1);
    }
  }

  /** The list without its entry at `index`: one shorter, the other entries in
      their original relative order, and the same entries counted with
      multiplicity except for the one removed. */
  function RemoveAt<T>(files: seq<T>, index: nat): (r: seq<T>)
    requires index < |files|
    ensures |r| == |files| - 1
    ensures forall k :: 0 <= k < index ==> r[k] == files[k]
    ensures forall k :: index <= k < |r| ==> r[k] == files[k + 1]
    ensures multiset(r) + multiset{files[index]} == multiset(files)
  {
    assert files == files[..index] + [files[index]] + files[index + 1..];
    files[..index] + files[index + 1..]
  }

  /** The cursor after the entry under it was removed from a list that now
      has `newLength` entries: it stays in bounds (0 for an empty list), and it
      moves, back by one, only when the removed entry was the last one. */
  function CursorAfterRemoval(index: nat, newLength: nat): (r: nat)
    requires index <= newLength
    ensures newLength > 0 ==> r < newLength
    ensures newLength == 0 ==> r == 0
    ensures r != index <==> index == newLength && index > 0
    ensures r != index ==> r == index - 1
  {
    if index >= newLength && index > 0 then index - 1 else index
  }

  /** What the page renders. */
  datatype View =
    | LoadingFiles
    | AllDocumentsUpdated
    | Reviewing(current: PdfFile, count: nat, disablePrevious: bool, disableNext: bool)

  class ReviewPage {
    var currentPdfIndex: nat
    var pdfFilesState: seq<PdfFile>
    var loading: bool

    /** The cursor is on an entry, or 0 when the list is empty. */
    ghost predicate Valid()
      reads this
    {
      if pdfFilesState == [] then currentPdfIndex == 0 else currentPdfIndex < |pdfFilesState|
    }

    constructor ()
      ensures Valid()
      ensures currentPdfIndex == 0 && pdfFilesState == [] && loading
    {
      currentPdfIndex := 0;
      pdfFilesState := [];
      loading := true;
    }

    /** The mount effect: fetch the REVIEW documents, attach a signed URL to
        each, store the list and stop loading. The fetch never rejects (a failed
        scan gives an empty list), so the list is always replaced. It runs once,
        while the cursor is still 0. */
    method FetchData(s: Store, locate: Locator)
      requires Valid() && currentPdfIndex == 0
      modifies this
      ensures Valid() && !loading && currentPdfIndex == 0
      ensures pdfFilesState == AttachUrls(FetchPdfFilesAndClassificationFromDynamoDB(s), locate)
    {
      loading := true;
      var pdfFilesWithClassification := FetchPdfFilesAndClassificationFromDynamoDB(s);
      var pdfDataWithUrls := AttachUrls(pdfFilesWithClassification, locate);
      pdfFilesState := pdfDataWithUrls;
      loading := false;
    }

    method HandleNext()
      requires Valid()
      modifies this`currentPdfIndex
      ensures Valid()
      ensures currentPdfIndex == Cursor.Next(old(currentPdfIndex), |pdfFilesState|)
    {
      if currentPdfIndex < |pdfFilesState| - 1 {
        currentPdfIndex := currentPdfIndex + 1;
      }
    }

    method HandlePrevious()
      requires Valid()
      modifies this`currentPdfIndex
      ensures Valid()
      ensures currentPdfIndex == Cursor.Previous(old(currentPdfIndex))
    {
      if currentPdfIndex > 0 {
        currentPdfIndex := currentPdfIndex - 1;
      }
    }

    /** The callback run after the store write succeeded: record the new
        classification on the entry, drop the entry under the cursor, and step
        the cursor back if it fell off the end. Only reachable while a
        document is displayed, so the list is not empty. */
    method HandleClassificationUpdate(newClassification: string)
      requires Valid() && pdfFilesState != []
      modifies this`pdfFilesState, this`currentPdfIndex
      ensures Valid()
      ensures pdfFilesState == RemoveAt(old(pdfFilesState), old(currentPdfIndex))
      ensures currentPdfIndex == CursorAfterRemoval(old(currentPdfIndex), |pdfFilesState|)
    {
      var updatedPdfFiles := pdfFilesState;
      updatedPdfFiles := updatedPdfFiles[currentPdfIndex :=
        updatedPdfFiles[currentPdfIndex].(classification := newClassification)];
      var filteredPdfFiles := KeepOthers(updatedPdfFiles, currentPdfIndex);
      KeepOthersDropsOne(updatedPdfFiles, currentPdfIndex);
      assert filteredPdfFiles == RemoveAt(pdfFilesState, currentPdfIndex);
      pdfFilesState := filteredPdfFiles;
      if currentPdfIndex >= |filteredPdfFiles| && currentPdfIndex > 0 {
        currentPdfIndex := currentPdfIndex - 1;
      }
    }

    /** The entry under the cursor, or None for an empty list. */
    function Current(): (r: Option<PdfFile>)
      reads this
      requires Valid()
      ensures r.None? <==> pdfFilesState == []
      ensures r.Some? ==> r.value in pdfFilesState && r.value == pdfFilesState[currentPdfIndex]
    {
      if pdfFilesState == [] then None else Some(pdfFilesState[currentPdfIndex])
    }

    /** The rendered page: a loading message, the "all documents updated"
        message for an empty list (no entry is read), or the entry under the
        cursor with the list size and which navigation buttons are disabled. */
    function Render(): (v: View)
      reads this
      requires Valid()
      ensures v == LoadingFiles <==> loading
      ensures v == AllDocumentsUpdated <==> !loading && pdfFilesState == []
      ensures v.Reviewing? <==> !loading && pdfFilesState != []
      ensures v.Reviewing? ==>
        v.current == pdfFilesState[currentPdfIndex] && v.count == |pdfFilesState|
        && (v.disablePrevious <==> Cursor.Previous(currentPdfIndex) == currentPdfIndex)
        && (v.disableNext <==> Cursor.Next(currentPdfIndex, |pdfFilesState|) == currentPdfIndex)
    {
      if loading then LoadingFiles
      else if pdfFilesState == [] then AllDocumentsUpdated
      else Reviewing(pdfFilesState[currentPdfIndex], |pdfFilesState|,
                     currentPdfIndex == 0, currentPdfIndex == |pdfFilesState| - 1)
    }
  }
}
