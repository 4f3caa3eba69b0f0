/** The document service on document objects whose flags, type and version are assigned in place.
    A call that raises rolls back: every object gets its old columns again. */
module DocumentServices {
  import opened Wrappers
  import opened Documents

  class Document {
    const id: nat
    const subId: nat
    const phaseId: nat
    const stepId: Option<nat>
    var docType: string
    var version: nat
    var isLatest: bool
    var isDeleted: bool

    constructor (id: nat, g: Group, stepId: Option<nat>, version: nat)
      ensures Row() == Doc(id, g.subId, g.phaseId, stepId, g.docType, version, true, false)
    {
      this.id, this.subId, this.phaseId, this.stepId := id, g.subId, g.phaseId, stepId;
      this.docType, this.version, this.isLatest, this.isDeleted := g.docType, version, true, false;
    }

    function Row(): Doc
      reads this
    {
      Doc(id, subId, phaseId, stepId, docType, version, isLatest, isDeleted)
    }
  }

  function RowsOf(ds: seq<Document>): (rows: seq<Doc>)
    reads ds
    ensures |rows| == |ds| && forall k :: 0 <= k < |ds| ==> rows[k] == ds[k].Row()
  {
    if ds == [] then [] else [ds[0].Row()] + RowsOf(ds[1..])
  }

  /** The columns no call assigns. */
  predicate SameKeys(d: Doc, e: Doc) {
    d.id == e.id && d.subId == e.subId && d.phaseId == e.phaseId && d.stepId == e.stepId
  }

  predicate SameKeysAll(rows: seq<Doc>, others: seq<Doc>) {
    |rows| == |others| && forall k :: 0 <= k < |rows| ==> SameKeys(rows[k], others[k])
  }

  predicate DistinctObjects(ds: seq<Document>) {
    forall i, j :: 0 <= i < j < |ds| ==> ds[i] != ds[j]
  }

  /** The members of a group, highest version first. */
  ghost predicate ListsGroup(group: seq<Document>, ds: seq<Document>, g: Group)
    reads ds, group
  {
    && (forall k :: 0 <= k < |group| ==> group[k] in ds && GroupOf(group[k].Row()) == g)
    && (forall k :: 0 <= k < |ds| && GroupOf(ds[k].Row()) == g ==> ds[k] in group)
    && DistinctObjects(group)
    && Descending(group)
  }

  predicate Descending(group: seq<Document>)
    reads group
  {
    forall i, j :: 0 <= i < j < |group| ==> group[i].version >= group[j].version
  }

  /** What `delete_document` answers; `at` is the document's row, the flags are the outcomes of the
      checks in the order in which they are made. */
  function DeleteOutcome(row: Option<Doc>, visible: bool, scopeKnown: bool, scopeOpen: bool, mayDelete: bool, commits: bool): Result<bool> {
    if row.None? then Failure(NotFound)
    else if !visible then Failure(PermissionDenied)
    else if row.value.isDeleted then Success(false)
    else if !scopeKnown then Failure(NotFound)
    else if !scopeOpen then Failure(Business(3003))
    else if !mayDelete then Failure(PermissionDenied)
    else if !commits then Failure(Fault)
    else Success(true)
  }

  /** What `confirm_document_type` answers: whether the document was moved, or an error. */
  function ConfirmOutcome(row: Option<Doc>, visible: bool, docType: string, commits: bool): Result<bool> {
    if row.None? then Failure(NotFound)
    else if !visible then Failure(PermissionDenied)
    else if row.value.isDeleted || !row.value.isLatest then Failure(ValidationFailed)
    else if row.value.docType == docType then Success(false)
    else if !commits then Failure(Fault)
    else Success(true)
  }

  function IsDocument(id: nat): Doc -> bool {
    (d: Doc) => d.id == id
  }

  function Located(rows: seq<Doc>, id: nat): Option<nat> {
    FirstIndex(rows, IsDocument(id))
  }

  function RowAt(rows: seq<Doc>, at: Option<nat>): Option<Doc>
    requires at.Some? ==> at.value < |rows|
  {
    if at.None? then None else Some(rows[at.value])
  }

  lemma LocatedMeans(rows: seq<Doc>, id: nat)
    requires Keyed(rows)
    ensures forall k :: 0 <= k < |rows| && rows[k].id == id ==> Located(rows, id) == Some(k)
  {
    forall k | 0 <= k < |rows| && rows[k].id == id
      ensures Located(rows, id) == Some(k)
    {
      assert IsDocument(id)(rows[k]);
    }
  }

  /** A delete succeeds exactly for a live document when everything else passes, and then does just that. */
  ghost predicate DeletesOne(rows: seq<Doc>, after: seq<Doc>, id: nat, passes: bool, r: Result<bool>) {
    && (r == Success(true) <==> passes && exists k :: 0 <= k < |rows| && rows[k].id == id && !rows[k].isDeleted)
    && if r == Success(true) then forall k :: 0 <= k < |rows| && rows[k].id == id ==> Deletes(rows, after, k) else after == rows
  }

  lemma DeleteMeans(rows: seq<Doc>, id: nat, visible: bool, scopeKnown: bool, scopeOpen: bool, mayDelete: bool, commits: bool)
    requires Keyed(rows)
    ensures var at := Located(rows, id);
      var r := DeleteOutcome(RowAt(rows, at), visible, scopeKnown, scopeOpen, mayDelete, commits);
      DeletesOne(rows, if r == Success(true) then Deleted(rows, at.value) else rows, id,
                 visible && scopeKnown && scopeOpen && mayDelete && commits, r)
  {
    LocatedMeans(rows, id);
    hide Keyed, Deleted, Deletes, DistinctVersions;
    if Located(rows, id).Some? {
      DeletedMeans(rows, Located(rows, id).value);
    }
  }

  /** A reclassification succeeds exactly for a live latest document of another type when everything else passes. */
  ghost predicate MovesOne(rows: seq<Doc>, after: seq<Doc>, id: nat, docType: string, passes: bool, r: Result<bool>) {
    && (r == Success(true) <==>
        passes && exists k :: 0 <= k < |rows| && rows[k].id == id && !rows[k].isDeleted && rows[k].isLatest && rows[k].docType != docType)
    && if r == Success(true) then forall k :: 0 <= k < |rows| && rows[k].id == id ==> Moves(rows, after, k, docType) else after == rows
  }

  lemma ConfirmMeans(rows: seq<Doc>, id: nat, visible: bool, docType: string, commits: bool)
    requires Keyed(rows)
    ensures var at := Located(rows, id);
      var r := ConfirmOutcome(RowAt(rows, at), visible, docType, commits);
      MovesOne(rows, if r == Success(true) then Moved(rows, at.value, docType) else rows, id, docType, visible && commits, r)
  {
    LocatedMeans(rows, id);
    hide Keyed, Moved, Moves, DistinctVersions;
    if Located(rows, id).Some? && rows[Located(rows, id).value].docType != docType {
      MovedMeans(rows, Located(rows, id).value, docType);
    }
  }

  class DocumentStore {
    var documents: seq<Document>
    var files: set<nat>
    var nextKey: nat
    /** The storage keys whose delete raises. */
    const undeletable: set<nat>

    constructor (undeletable: set<nat>)
      ensures documents == [] && Valid() && Rows() == [] && files == {} && this.undeletable == undeletable
    {
      documents, files, nextKey, this.undeletable := [], {}, 0, undeletable;
    }

    function Rows(): (rows: seq<Doc>)
      reads this, documents
      ensures |rows| == |documents| && forall k :: 0 <= k < |documents| ==> rows[k] == documents[k].Row()
    {
      RowsOf(documents)
    }

    /** Versions are unique within a group, as the table's unique constraint demands. */
    ghost predicate Valid()
      reads this, documents
    {
      DistinctObjects(documents) && Documents.Valid(Rows())
    }

    /** `storage.save`: stores the content under a new key, or raises. */
    method SaveContent(raises: bool) returns (key: nat, ok: bool)
      modifies this`files, this`nextKey
      ensures key == old(nextKey) && ok == !raises
      ensures files == if ok then old(files) + {key} else old(files)
    {
      key, ok := nextKey, !raises;
      nextKey := nextKey + 1;
      if ok {
        files := files + {key};
      }
    }

    /** `_delete_saved_content`: a delete that raises is passed over. */
    method DeleteSavedContent(key: nat)
      modifies this`files
      ensures files == if key in undeletable then old(files) else old(files) - {key}
    {
      if key !in undeletable {
        files := files - {key};
      }
    }

    /** One insertion of the stable descending sort. */
    method Insert(group: seq<Document>, d: Document) returns (r: seq<Document>)
      requires d !in group && DistinctObjects(group) && Descending(group)
      ensures DistinctObjects(r) && Descending(r)
      ensures forall x :: x in r <==> x in group || x == d
    {
      hide DistinctObjects, Descending;
      var at := 0;
      while at < |group| && group[at].version >= d.version
        invariant at <= |group|
        invariant forall k :: 0 <= k < at ==> group[k].version >= d.version
      {
        at := at + 1;
      }
      r := group[..at] + [d] + group[at..];
      InsertDistinct(group, at, d);
      InsertDescending(group, at, d);
    }

    lemma InsertDistinct(group: seq<Document>, at: nat, d: Document)
      requires at <= |group| && d !in group && DistinctObjects(group)
      ensures DistinctObjects(group[..at] + [d] + group[at..])
      ensures forall x :: x in group[..at] + [d] + group[at..] <==> x in group || x == d
    {
      assert group == group[..at] + group[at..];
    }

    lemma InsertDescending(group: seq<Document>, at: nat, d: Document)
      requires at <= |group| && Descending(group)
      requires forall k :: 0 <= k < at ==> group[k].version >= d.version
      requires at < |group| ==> group[at].version < d.version
      ensures Descending(group[..at] + [d] + group[at..])
    {
    }

    /** `list_group_documents_for_update`. */
    method ListGroup(g: Group) returns (group: seq<Document>)
      requires DistinctObjects(documents)
      ensures ListsGroup(group, documents, g)
    {
      group := [];
      for i := 0 to |documents|
        invariant forall x :: x in group ==> x in documents[..i] && GroupOf(x.Row()) == g
        invariant forall k :: 0 <= k < i && GroupOf(documents[k].Row()) == g ==> documents[k] in group
        invariant DistinctObjects(group) && Descending(group)
      {
        assert documents[..i + 1] == documents[..i] + [documents[i]];
        if GroupOf(documents[i].Row()) == g {
          group := Insert(group, documents[i]);
        }
      }
      forall k | 0 <= k < |group|
        ensures group[k] in documents && GroupOf(group[k].Row()) == g
      {
        assert group[k] in group;
      }
    }

    /** The first entry of a descending listing that is live and not `document`. */
    method FirstLiveOther(group: seq<Document>, document: Document) returns (found: Document?)
      ensures found == null ==> forall d :: d in group && d.id != document.id ==> d.isDeleted
      ensures found != null ==> found in group && found.id != document.id && !found.isDeleted
      ensures found != null && Descending(group) ==>
                forall d :: d in group && d.id != document.id && !d.isDeleted ==> d.version <= found.version
    {
      for i := 0 to |group|
        invariant forall k :: 0 <= k < i ==> group[k].id == document.id || group[k].isDeleted
      {
        if group[i].id != document.id && !group[i].isDeleted {
          return group[i];
        }
      }
      found := null;
    }

    method MaxVersionOf(group: seq<Document>) returns (m: nat)
      ensures forall k :: 0 <= k < |group| ==> group[k].version <= m
      ensures m == 0 || exists k :: 0 <= k < |group| && group[k].version == m
    {
      m := 0;
      for i := 0 to |group|
        invariant forall k :: 0 <= k < i ==> group[k].version <= m
        invariant m == 0 || exists k :: 0 <= k < i && group[k].version == m
      {
        if group[i].version > m {
          m := group[i].version;
        }
      }
    }

    /** Clears the latest flag of every listed document. */
    method ClearLatest(group: seq<Document>)
      modifies group
      ensures forall d :: d in group ==> d.Row() == old(d.Row()).(isLatest := false)
    {
      for i := 0 to |group|
        invariant forall d :: d in group ==>
                    d.Row() == if d in group[..i] then old(d.Row()).(isLatest := false) else old(d.Row())
      {
        if group[i].isLatest {
          group[i].isLatest := false;
        }
      }
    }

    /** Gives every object its old columns again. */
    method RestoreRows(rows: seq<Doc>)
      requires DistinctObjects(documents) && SameKeysAll(Rows(), rows)
      modifies documents
      ensures Rows() == rows
    {
      ghost var before := Rows();
      hide RowsOf, DistinctObjects;
      for i := 0 to |rows|
        invariant forall k :: 0 <= k < |rows| ==> Rows()[k] == if k < i then rows[k] else before[k]
      {
        assert SameKeys(before[i], rows[i]);
        Assign(i, rows[i].docType, rows[i].version, rows[i].isLatest, rows[i].isDeleted);
      }
    }

    /** Also drops objects that were added. */
    method Rollback(rows: seq<Doc>)
      requires DistinctObjects(documents)
      requires |rows| <= |documents| && SameKeysAll(Rows()[..|rows|], rows)
      modifies this`documents, documents
      ensures documents == old(documents)[..|rows|] && Rows() == rows
    {
      documents := documents[..|rows|];
      RestoreRows(rows);
    }

    /** The highest version of a listed group is the table's. */
    lemma ListedMax(group: seq<Document>, g: Group, m: nat)
      requires ListsGroup(group, documents, g)
      requires forall k :: 0 <= k < |group| ==> group[k].version <= m
      requires m == 0 || exists k :: 0 <= k < |group| && group[k].version == m
      ensures m == MaxVersion(Rows(), g)
    {
      var rows := Rows();
      forall i | 0 <= i < |rows| && GroupOf(rows[i]) == g
        ensures rows[i].version <= m
      {
        assert documents[i] in group;
      }
      if m > 0 {
        var k :| 0 <= k < |group| && group[k].version == m;
        var i :| 0 <= i < |documents| && documents[i] == group[k];
        assert rows[i] == documents[i].Row();
      }
    }

    lemma InGroup(group: seq<Document>, g: Group)
      requires ListsGroup(group, documents, g)
      ensures forall k :: 0 <= k < |documents| ==> (documents[k] in group <==> GroupOf(Rows()[k]) == g)
      ensures forall d :: d in group ==> d in documents
    {
    }

    lemma DemotedRows(before: seq<Doc>, after: seq<Doc>, g: Group)
      requires |after| == |before|
      requires forall k :: 0 <= k < |before| ==> after[k] == if GroupOf(before[k]) == g then before[k].(isLatest := false) else before[k]
      ensures after == Demoted(before, g)
    {
    }

    /** Clears the latest flags of a listed group. */
    method ClearGroup(group: seq<Document>, g: Group)
      requires ListsGroup(group, documents, g)
      modifies group
      ensures Rows() == Demoted(old(Rows()), g)
    {
      ghost var before := Rows();
      InGroup(group, g);
      hide RowsOf, ListsGroup, Demoted;
      ClearLatest(group);
      DemotedRows(before, Rows(), g);
    }

    /** Lists the group, takes its highest version, and clears its latest flags if asked to. */
    method OpenGroup(g: Group, clear: bool) returns (highest: nat)
      requires DistinctObjects(documents)
      modifies documents
      ensures highest == MaxVersion(old(Rows()), g)
      ensures Rows() == if clear then Demoted(old(Rows()), g) else old(Rows())
    {
      hide RowsOf, MaxVersion, Demoted, DistinctObjects;
      var group;
      group, highest := ListWithHighest(g);
      InGroup(group, g);
      hide ListsGroup;
      if clear {
        ClearGroup(group, g);
      }
    }

    method ListWithHighest(g: Group) returns (group: seq<Document>, highest: nat)
      requires DistinctObjects(documents)
      ensures ListsGroup(group, documents, g) && highest == MaxVersion(Rows(), g)
    {
      hide RowsOf, MaxVersion, DistinctObjects, ListsGroup;
      group := ListGroup(g);
      highest := MaxVersionOf(group);
      ListedMax(group, g, highest);
    }

    method SetLatest(document: Document, ghost at: nat)
      requires at < |documents| && documents[at] == document && DistinctObjects(documents)
      modifies document
      ensures Rows() == old(Rows())[at := old(Rows())[at].(isLatest := true)]
    {
      hide RowsOf;
      document.isLatest := true;
    }

    /** Gives the latest flag to the first live document of the listing other than `documents[at]`. */
    method PromoteSibling(group: seq<Document>, at: nat)
      requires at < |documents| && DistinctObjects(documents)
      requires Keyed(Rows())
      requires ListsGroup(group, documents, GroupOf(documents[at].Row()))
      modifies documents
      ensures Rows() == Promoted(old(Rows()), TopSibling(old(Rows()), at, |documents|))
    {
      hide RowsOf;
      var found := FirstLiveOther(group, documents[at]);
      if found != null {
        ghost var k :| 0 <= k < |documents| && documents[k] == found;
        FoundIsTop(group, at, found, k);
        hide TopSibling, Keyed, ListsGroup, LiveSibling;
        SetLatest(found, k);
      } else {
        NoneFound(group, at);
      }
    }

    lemma FoundIsTop(group: seq<Document>, at: nat, found: Document, k: nat)
      requires at < |documents| && k < |documents| && documents[k] == found
      requires Keyed(Rows())
      requires ListsGroup(group, documents, GroupOf(documents[at].Row()))
      requires found in group && found.id != documents[at].id && !found.isDeleted
      requires forall d :: d in group && d.id != documents[at].id && !d.isDeleted ==> d.version <= found.version
      ensures TopSibling(Rows(), at, |documents|) == Some(k)
    {
      hide RowsOf;
      var rows := Rows();
      var top := TopSibling(rows, at, |rows|);
      assert LiveSibling(rows, at, k);
      assert documents[top.value] in group;
    }

    lemma NoneFound(group: seq<Document>, at: nat)
      requires at < |documents| && Keyed(Rows())
      requires ListsGroup(group, documents, GroupOf(documents[at].Row()))
      requires forall d :: d in group && d.id != documents[at].id ==> d.isDeleted
      ensures TopSibling(Rows(), at, |documents|) == None
    {
      hide RowsOf;
      var rows := Rows();
      forall k | 0 <= k < |rows|
        ensures !LiveSibling(rows, at, k)
      {
        if GroupOf(rows[k]) == GroupOf(rows[at]) {
          assert documents[k] in group;
        }
      }
    }

    /** `upload_document`, once the checks on the caller, the file and the scope have passed. A failed
        upload leaves the rows as they were, and no file unless its delete raises too. */
    method Upload(id: nat, g: Group, stepId: Option<nat>, saves: bool, commits: bool) returns (r: Result<Document>)
      requires Valid() && Enabled(Rows(), Call.Upload(id, g, stepId)) && nextKey !in files
      modifies this, documents
      ensures Valid()
      ensures r.Success? <==> saves && commits
      ensures r.Failure? ==> r.error == Fault && Rows() == old(Rows())
      ensures r.Failure? ==> files == if saves && old(nextKey) in undeletable then old(files) + {old(nextKey)} else old(files)
      ensures r.Success? ==> Rows() == Uploaded(old(Rows()), id, g, stepId) && r.value == documents[|documents| - 1]
      ensures r.Success? ==> files == old(files) + {old(nextKey)}
      ensures r.Success? ==> Uploads(old(Rows()), Rows(), id, g, stepId)
    {
      ghost var before := Rows();
      UploadValid(before, id, g, stepId);
      UploadedMeans(before, id, g, stepId);
      hide Uploaded, Documents.Valid, RowsOf, Enabled, Uploads;
      r := Place(id, g, stepId, saves, commits);
    }

    /** The transaction of an upload; when it raises, the rows are rolled back. */
    method Place(id: nat, g: Group, stepId: Option<nat>, saves: bool, commits: bool) returns (r: Result<Document>)
      requires DistinctObjects(documents) && nextKey !in files
      modifies this, documents
      ensures DistinctObjects(documents)
      ensures r.Success? <==> saves && commits
      ensures files == if saves && (commits || old(nextKey) in undeletable) then old(files) + {old(nextKey)} else old(files)
      ensures r.Failure? ==> r.error == Fault && Rows() == old(Rows())
      ensures r.Success? ==> Rows() == Uploaded(old(Rows()), id, g, stepId)
      ensures r.Success? ==> |documents| > 0 && r.value == documents[|documents| - 1]
    {
      var before := Rows();
      UploadedInSteps(before, id, g, stepId);
      hide Uploaded, MaxVersion, Demoted, RowsOf, IsMultiInstance, SameKeysAll, DistinctObjects;
      var highest := OpenGroup(g, !IsMultiInstance(g.docType, stepId));
      r := SaveAndAdd(id, g, stepId, highest + 1, before, saves, commits);
    }

    /** The rest of the transaction, once the group is open; `before` is what a rollback restores. */
    method SaveAndAdd(id: nat, g: Group, stepId: Option<nat>, version: nat, before: seq<Doc>, saves: bool, commits: bool) returns (r: Result<Document>)
      requires DistinctObjects(documents) && nextKey !in files && SameKeysAll(Rows(), before) && |before| == |documents|
      modifies this, documents
      ensures DistinctObjects(documents)
      ensures r.Success? <==> saves && commits
      ensures files == if saves && (commits || old(nextKey) in undeletable) then old(files) + {old(nextKey)} else old(files)
      ensures r.Failure? ==> r.error == Fault && Rows() == before
      ensures r.Success? ==> Rows() == old(Rows()) + [Doc(id, g.subId, g.phaseId, stepId, g.docType, version, true, false)]
      ensures r.Success? ==> |documents| > 0 && r.value == documents[|documents| - 1]
    {
      hide RowsOf, SameKeysAll, DistinctObjects;
      ghost var start := Rows();
      var key, saved := SaveContent(!saves);
      if !saved {
        RestoreRows(before);
        return Failure(Fault);
      }
      var document := Add(id, g, stepId, version);
      assert Rows()[..|before|] == start;
      if !commits {
        UndoUpload(key, before);
        return Failure(Fault);
      }
      r := Success(document);
    }

    /** Deletes the saved content, then rolls back. */
    method UndoUpload(key: nat, rows: seq<Doc>)
      requires DistinctObjects(documents)
      requires |rows| <= |documents| && SameKeysAll(Rows()[..|rows|], rows)
      modifies this`files, this`documents, documents
      ensures documents == old(documents)[..|rows|] && Rows() == rows
      ensures files == if key in undeletable then old(files) else old(files) - {key}
    {
      hide SameKeysAll, RowsOf;
      DeleteSavedContent(key);
      Rollback(rows);
    }

    lemma UploadedInSteps(before: seq<Doc>, id: nat, g: Group, stepId: Option<nat>)
      ensures var open := if IsMultiInstance(g.docType, stepId) then before else Demoted(before, g);
        && Uploaded(before, id, g, stepId) == open + [Doc(id, g.subId, g.phaseId, stepId, g.docType, MaxVersion(before, g) + 1, true, false)]
        && SameKeysAll(open, before) && |open| == |before|
    {
    }

    method Add(id: nat, g: Group, stepId: Option<nat>, version: nat) returns (document: Document)
      requires DistinctObjects(documents)
      modifies this`documents
      ensures fresh(document) && documents == old(documents) + [document] && DistinctObjects(documents)
      ensures Rows() == old(Rows()) + [Doc(id, g.subId, g.phaseId, stepId, g.docType, version, true, false)]
    {
      hide RowsOf;
      document := new Document(id, g, stepId, version);
      documents := documents + [document];
    }

    /** `delete_document`. */
    method DeleteDocument(id: nat, visible: bool, scopeKnown: bool, scopeOpen: bool, mayDelete: bool, commits: bool) returns (r: Result<bool>)
      requires Valid()
      modifies documents
      ensures Valid()
      ensures var at := Located(old(Rows()), id);
        && r == DeleteOutcome(RowAt(old(Rows()), at), visible, scopeKnown, scopeOpen, mayDelete, commits)
        && Rows() == if r == Success(true) then Deleted(old(Rows()), at.value) else old(Rows())
      ensures DeletesOne(old(Rows()), Rows(), id, visible && scopeKnown && scopeOpen && mayDelete && commits, r)
    {
      DeleteMeans(Rows(), id, visible, scopeKnown, scopeOpen, mayDelete, commits);
      hide RowsOf, Deleted, DeletesOne, Located, RowAt, DeleteOutcome, DistinctObjects, Documents.Valid;
      r := DeleteInSteps(id, visible, scopeKnown, scopeOpen, mayDelete, commits);
    }

    method DeleteInSteps(id: nat, visible: bool, scopeKnown: bool, scopeOpen: bool, mayDelete: bool, commits: bool) returns (r: Result<bool>)
      requires Valid()
      modifies documents
      ensures Valid()
      ensures var at := Located(old(Rows()), id);
        && r == DeleteOutcome(RowAt(old(Rows()), at), visible, scopeKnown, scopeOpen, mayDelete, commits)
        && Rows() == if r == Success(true) then Deleted(old(Rows()), at.value) else old(Rows())
    {
      hide RowsOf, Deleted, Moved, FirstIndex, Keyed, LatestIsHighest;
      var before := Rows();
      var found := Located(before, id);
      if found.None? {
        return Failure(NotFound);
      }
      if !visible {
        return Failure(PermissionDenied);
      }
      var document := documents[found.value];
      if document.isDeleted {
        return Success(false);
      }
      if !scopeKnown {
        return Failure(NotFound);
      }
      if !scopeOpen {
        return Failure(Business(3003));
      }
      if !mayDelete {
        return Failure(PermissionDenied);
      }
      DeleteValid(before, found.value);
      DeleteAt(found.value);
      if !commits {
        RestoreRows(before);
        return Failure(Fault);
      }
      r := Success(true);
    }

    /** Assigns every changeable column of one document. */
    method Assign(at: nat, docType: string, version: nat, isLatest: bool, isDeleted: bool)
      requires at < |documents| && DistinctObjects(documents)
      modifies documents[at]
      ensures Rows() == old(Rows())[at := old(Rows())[at].(docType := docType, version := version, isLatest := isLatest, isDeleted := isDeleted)]
    {
      hide RowsOf;
      var document := documents[at];
      document.docType, document.version := docType, version;
      document.isLatest, document.isDeleted := isLatest, isDeleted;
    }

    /** Marks a document deleted; a listing made before stays one. */
    method MarkDeleted(at: nat, group: seq<Document>)
      requires at < |documents| && DistinctObjects(documents)
      requires ListsGroup(group, documents, GroupOf(documents[at].Row()))
      modifies documents[at]
      ensures Rows() == old(Rows())[at := old(Rows())[at].(isDeleted := true, isLatest := false)]
      ensures ListsGroup(group, documents, GroupOf(documents[at].Row()))
    {
      hide RowsOf;
      var document := documents[at];
      document.isDeleted, document.isLatest := true, false;
    }

    method DeleteAt(at: nat)
      requires DistinctObjects(documents) && Keyed(Rows()) && at < |documents|
      modifies documents
      ensures Rows() == Deleted(old(Rows()), at)
    {
      hide RowsOf, TopSibling, Keyed, ListsGroup, DistinctObjects, LiveSibling;
      ghost var before := Rows();
      var group := ListGroup(GroupOf(documents[at].Row()));
      MarkDeleted(at, group);
      ghost var marked := before[at := before[at].(isDeleted := true, isLatest := false)];
      MarkKeyed(before, at, marked[at]);
      SiblingsIgnoreSelf(before, at, marked[at], |before|);
      if !IsMultiInstance(documents[at].docType, documents[at].stepId) {
        PromoteSibling(group, at);
      }
    }

    /** `confirm_document_type`: only a live latest document, and only into another type, is moved. */
    method ConfirmDocumentType(id: nat, visible: bool, docType: string, commits: bool) returns (r: Result<bool>)
      requires Valid()
      modifies documents
      ensures Valid()
      ensures var at := Located(old(Rows()), id);
        && r == ConfirmOutcome(RowAt(old(Rows()), at), visible, docType, commits)
        && (r == Success(true) ==> Enabled(old(Rows()), Reclassify(at.value, docType)))
        && Rows() == if r == Success(true) then Moved(old(Rows()), at.value, docType) else old(Rows())
      ensures MovesOne(old(Rows()), Rows(), id, docType, visible && commits, r)
    {
      ConfirmMeans(Rows(), id, visible, docType, commits);
      hide RowsOf, Moved, MovesOne, Located, RowAt, ConfirmOutcome, DistinctObjects, Documents.Valid, Enabled;
      r := ConfirmInSteps(id, visible, docType, commits);
    }

    method ConfirmInSteps(id: nat, visible: bool, docType: string, commits: bool) returns (r: Result<bool>)
      requires Valid()
      modifies documents
      ensures Valid()
      ensures var at := Located(old(Rows()), id);
        && r == ConfirmOutcome(RowAt(old(Rows()), at), visible, docType, commits)
        && (r == Success(true) ==> Enabled(old(Rows()), Reclassify(at.value, docType)))
        && Rows() == if r == Success(true) then Moved(old(Rows()), at.value, docType) else old(Rows())
    {
      hide RowsOf, Deleted, Moved, FirstIndex, Keyed, LatestIsHighest;
      var before := Rows();
      var found := Located(before, id);
      if found.None? {
        return Failure(NotFound);
      }
      if !visible {
        return Failure(PermissionDenied);
      }
      var document := documents[found.value];
      if document.isDeleted || !document.isLatest {
        return Failure(ValidationFailed);
      }
      if document.docType == docType {
        return Success(false);
      }
      MoveValid(before, found.value, docType);
      MoveAt(found.value, docType);
      if !commits {
        RestoreRows(before);
        return Failure(Fault);
      }
      r := Success(true);
    }

    /** Lists the group of `documents[at]` and promotes its highest live sibling. */
    method PromoteInGroup(at: nat)
      requires DistinctObjects(documents) && Keyed(Rows()) && at < |documents|
      modifies documents
      ensures Rows() == Promoted(old(Rows()), TopSibling(old(Rows()), at, |documents|))
    {
      hide RowsOf, TopSibling, Keyed, ListsGroup, DistinctObjects, LiveSibling, Promoted;
      var group := ListGroup(GroupOf(documents[at].Row()));
      PromoteSibling(group, at);
    }

    /** `_move_document_to_doc_type`. */
    method MoveAt(at: nat, docType: string)
      requires DistinctObjects(documents) && Keyed(Rows()) && at < |documents| && documents[at].docType != docType
      modifies documents
      ensures Rows() == Moved(old(Rows()), at, docType)
    {
      hide RowsOf, TopSibling, MaxVersion, Keyed, ListsGroup, Demoted, Moved, DistinctObjects, LiveSibling;
      ghost var before := Rows();
      var g := GroupOf(documents[at].Row()).(docType := docType);
      PromoteInGroup(at);
      MovedInSteps(before, at, docType);
      hide Promoted, GroupOf;
      OpenAndAssign(g, at, docType);
    }

    /** Opens a group and makes a document its only latest one, with the next version. */
    method OpenAndAssign(g: Group, at: nat, docType: string)
      requires DistinctObjects(documents) && at < |documents|
      modifies documents
      ensures var open := Demoted(old(Rows()), g);
        Rows() == open[at := open[at].(docType := docType, version := MaxVersion(old(Rows()), g) + 1, isLatest := true)]
    {
      hide RowsOf, MaxVersion, Demoted, DistinctObjects, GroupOf;
      var highest := OpenGroup(g, true);
      Assign(at, docType, highest + 1, true, documents[at].isDeleted);
    }

    /** `list_latest_phase_documents_for_update`, deleted documents included. */
    method ListLatest(phaseId: nat) returns (selected: seq<Document>)
      ensures forall k :: 0 <= k < |selected| ==> selected[k] in documents
      ensures forall d :: d in documents ==> (d in selected <==> d.phaseId == phaseId && d.isLatest)
    {
      selected := [];
      for i := 0 to |documents|
        invariant forall k :: 0 <= k < |selected| ==> selected[k] in documents && selected[k].phaseId == phaseId && selected[k].isLatest
        invariant forall k :: 0 <= k < i && documents[k].phaseId == phaseId && documents[k].isLatest ==> documents[k] in selected
      {
        if documents[i].phaseId == phaseId && documents[i].isLatest {
          selected := selected + [documents[i]];
        }
      }
    }

    method MarkAllDeleted(selected: seq<Document>)
      modifies selected
      ensures forall d :: d in selected ==> d.Row() == old(d.Row()).(isDeleted := true)
    {
      for i := 0 to |selected|
        invariant forall d :: d in selected ==>
                    d.Row() == if d in selected[..i] then old(d.Row()).(isDeleted := true) else old(d.Row())
      {
        selected[i].isDeleted := true;
      }
    }

    method MarkPhase(phaseId: nat) returns (selected: seq<Document>)
      modifies documents
      ensures Rows() == SoftDeleted(old(Rows()), phaseId)
      ensures forall d :: d in documents ==> (d in selected <==> d.phaseId == phaseId && d.isLatest)
    {
      hide RowsOf;
      selected := ListLatest(phaseId);
      MarkAllDeleted(selected);
      assert forall d :: d in documents ==>
          d.Row() == if d in selected then old(d.Row()).(isDeleted := true) else old(d.Row());
    }

    lemma KeysAgree(before: seq<Doc>, phaseId: nat)
      ensures SameKeysAll(SoftDeleted(before, phaseId), before)
    {
    }

    /** `soft_delete_phase_documents`; `known` says that the phase exists. */
    method SoftDeletePhaseDocuments(phaseId: nat, known: bool, commits: bool) returns (r: Result<seq<Document>>)
      requires Valid()
      modifies documents
      ensures Valid()
      ensures r.Success? <==> known && commits
      ensures r.Failure? ==> Rows() == old(Rows()) && r.error == if known then Fault else NotFound
      ensures r.Success? ==> Rows() == SoftDeleted(old(Rows()), phaseId)
      ensures r.Success? ==> forall k :: 0 <= k < |documents| ==>
                Rows()[k] == if documents[k].phaseId == phaseId && documents[k].isLatest then old(Rows())[k].(isDeleted := true) else old(Rows())[k]
      ensures r.Success? ==> forall d :: d in documents ==> (d in r.value <==> d.phaseId == phaseId && d.isLatest)
    {
      if !known {
        return Failure(NotFound);
      }
      var before := Rows();
      SoftDeleteValid(before, phaseId);
      KeysAgree(before, phaseId);
      hide RowsOf, Documents.Valid, SoftDeleted, DistinctObjects, SameKeysAll;
      var selected := MarkPhase(phaseId);
      if !commits {
        RestoreRows(before);
        return Failure(Fault);
      }
      r := Success(selected);
    }
  }
}
