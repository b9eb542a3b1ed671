/** The document table the front end reads and writes ("ap-document"), as an
    in-memory sequence of records plus a set of injected faults. A scan with an
    equality filter keeps the matching records in table order; an update sets
    three attributes of the record with the given key, creating it if absent. */
module DocumentStore {
  import opened Wrappers

  /** One stored item. `Score` is absent on some items; `po_number` is the
      free-text purchase-order number, absent on most items. */
  datatype Record = Record(
    DocumentID: string,
    Classification: string,
    Score: Option<real>,
    Stage: string,
    po_number: Option<string>)

  /** The three equality filters the front end scans with. */
  datatype Filter =
    | StageIs(stage: string)
    | ClassificationIs(classification: string)
    | PoNumberIs(poNumber: string)

  predicate Matches(r: Record, f: Filter)
  {
    match f
    case StageIs(s) => r.Stage == s
    case ClassificationIs(c) => r.Classification == c
    case PoNumberIs(p) => r.po_number == Some(p)
  }

  /** How a scan can be made to misbehave: the call rejects, or it resolves
      with a response that has no `Items`. */
  datatype Fault = Throws | OmitsItems

  /** The table, the scans that misbehave, and the keys whose update rejects. */
  datatype Store = Store(table: seq<Record>, scanFaults: map<Filter, Fault>, updateFaults: set<string>)

  /** What `scan(...).promise()` settles to: a rejection, or a response whose
      `Items` may be missing. */
  datatype ScanOutcome = Rejected | Resolved(items: Option<seq<Record>>)

  /** The records of `table` that match `f`, in table order. */
  function Select(table: seq<Record>, f: Filter): (r: seq<Record>)
    ensures |r| <= |table|
  {
    if table == [] then []
    else (if Matches(table[0], f) then [table[0]] else []) + Select(table[1..], f)
  }

  /** A selection holds exactly the matching records of the table. */
  lemma {:induction false} SelectMembers(table: seq<Record>, f: Filter)
    ensures forall x :: x in Select(table, f) <==> x in table && Matches(x, f)
  {
    if table != [] {
      SelectMembers(table[1..], f);
      assert table == [table[0]] + table[1..];
    }
  }

  /** Selection distributes over concatenation, so a scan keeps table order. */
  lemma {:induction false} SelectAppend(a: seq<Record>, b: seq<Record>, f: Filter)
    ensures Select(a + b, f) == Select(a, f) + Select(b, f)
  {
    if a == [] {
      assert a + b == b;
    } else {
      var ab := a + b;
      assert ab[0] == a[0] && ab[1..] == a[1..] + b;
      SelectAppend(a[1..], b, f);
      var head := if Matches(a[0], f) then [a[0]] else [];
      assert Select(ab, f) == head + Select(ab[1..], f);
      assert Select(a, f) == head + Select(a[1..], f);
    }
  }

  /** `scan(params).promise()`: rejects or resolves without `Items` as the
      injected fault says; otherwise resolves with the matching records. */
  function Scan(s: Store, f: Filter): (o: ScanOutcome)
    ensures o.Rejected? <==> f in s.scanFaults && s.scanFaults[f] == Throws
    ensures o.Resolved? && o.items.None? <==> f in s.scanFaults && s.scanFaults[f] == OmitsItems
    ensures f !in s.scanFaults ==> o == Resolved(Some(Select(s.table, f)))
  {
    if f in s.scanFaults then
      (match s.scanFaults[f]
       case Throws => Rejected
       case OmitsItems => Resolved(None))
    else Resolved(Some(Select(s.table, f)))
  }

  /** A scan that is not made to fail returns exactly the matching records. */
  lemma ScanSound(s: Store, f: Filter)
    requires f !in s.scanFaults
    ensures Scan(s, f).Resolved? && Scan(s, f).items.Some?
    ensures forall x :: x in Scan(s, f).items.value <==> x in s.table && Matches(x, f)
  {
    SelectMembers(s.table, f);
  }

  /** `set Classification = :c, Score = :score, Stage = :stage` on one key.
      There is no condition expression. */
  datatype UpdateRequest = UpdateRequest(key: string, classification: string, score: real, stage: string)

  function Patch(r: Record, req: UpdateRequest): Record
  {
    if r.DocumentID == req.key
    then r.(Classification := req.classification, Score := Some(req.score), Stage := req.stage)
    else r
  }

  predicate HasKey(table: seq<Record>, key: string)
  {
    exists i :: 0 <= i < |table| && table[i].DocumentID == key
  }

  /** The table after an update: the record with the key gets the three new
      attributes; if no record has the key, a new one is appended (an update
      without a condition creates the item). */
  function Upsert(table: seq<Record>, req: UpdateRequest): (r: seq<Record>)
    ensures HasKey(table, req.key) ==> |r| == |table|
    ensures !HasKey(table, req.key) ==> |r| == |table| + 1
    ensures forall i :: 0 <= i < |table| && table[i].DocumentID != req.key ==> r[i] == table[i]
    ensures forall i :: 0 <= i < |r| && r[i].DocumentID == req.key ==>
      r[i].Classification == req.classification && r[i].Score == Some(req.score) && r[i].Stage == req.stage
    ensures forall i :: 0 <= i < |table| && table[i].DocumentID == req.key ==>
      r[i] == table[i].(Classification := req.classification, Score := Some(req.score), Stage := req.stage)
    ensures !HasKey(table, req.key) ==>
      r[|table|] == Record(req.key, req.classification, Some(req.score), req.stage, None)
    ensures HasKey(r, req.key)
  {
    if HasKey(table, req.key) then
      var r := seq(|table|, i requires 0 <= i < |table| => Patch(table[i], req));
      assert forall i :: 0 <= i < |table| ==> r[i].DocumentID == table[i].DocumentID;
      r
    else
      var r := table + [Record(req.key, req.classification, Some(req.score), req.stage, None)];
      assert r[|table|].DocumentID == req.key;
      r
  }

  /** A record that an update creates comes after every existing record in
      each scan it matches, and it changes no other scan. */
  lemma CreatedRecordScansLast(table: seq<Record>, req: UpdateRequest, f: Filter)
    requires !HasKey(table, req.key)
    ensures var created := Record(req.key, req.classification, Some(req.score), req.stage, None);
      Select(Upsert(table, req), f) == Select(table, f) + (if Matches(created, f) then [created] else [])
  {
    var created := Record(req.key, req.classification, Some(req.score), req.stage, None);
    assert Upsert(table, req) == table + [created];
    SelectAppend(table, [created], f);
    assert [created][1..] == [];
  }

  /** `update(...).promise()`: rejects for an empty key (a key attribute may
      not be empty) or an injected fault, otherwise resolves with the new store. */
  function Update(s: Store, req: UpdateRequest): (r: Option<Store>)
    ensures r.None? <==> req.key == "" || req.key in s.updateFaults
    ensures r.Some? ==> r.value == s.(table := Upsert(s.table, req))
  {
    if req.key == "" || req.key in s.updateFaults then None
    else Some(s.(table := Upsert(s.table, req)))
  }

  predicate UniqueKeys(table: seq<Record>)
  {
    forall i, j :: 0 <= i < j < |table| ==> table[i].DocumentID != table[j].DocumentID
  }

  /** An update never introduces a second record with the same key. */
  lemma UpsertKeepsKeysUnique(table: seq<Record>, req: UpdateRequest)
    requires UniqueKeys(table)
    ensures UniqueKeys(Upsert(table, req))
  {
    var r := Upsert(table, req);
    if HasKey(table, req.key) {
      assert forall i :: 0 <= i < |table| ==> r[i].DocumentID == table[i].DocumentID;
    } else {
      assert forall i :: 0 <= i < |table| ==> r[i] == table[i] && table[i].DocumentID != req.key;
    }
  }
}
