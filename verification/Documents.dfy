/** The document table as a value: groups keyed by sub-project, phase and type, the effect of each
    call on `version`, `is_latest` and `is_deleted`, and what every run of calls keeps. */
module Documents {
  import opened Wrappers

  datatype Doc = Doc(id: nat, subId: nat, phaseId: nat, stepId: Option<nat>, docType: string,
                     version: nat, isLatest: bool, isDeleted: bool)

  datatype Group = Group(subId: nat, phaseId: nat, docType: string)

  function GroupOf(d: Doc): Group {
    Group(d.subId, d.phaseId, d.docType)
  }

  predicate Live(d: Doc) {
    !d.isDeleted
  }

  predicate IsMultiInstance(docType: string, stepId: Option<nat>) {
    docType == "payment_voucher" || docType == "supplier_quote" || (docType == "acceptance_report" && stepId.Some?)
  }

  /** Types whose groups keep a single latest document, whatever acceptance step a document names. */
  predicate SingleInstance(docType: string) {
    docType != "payment_voucher" && docType != "supplier_quote" && docType != "acceptance_report"
  }

  function MaxVersion(rows: seq<Doc>, g: Group): (m: nat)
    ensures forall i :: 0 <= i < |rows| && GroupOf(rows[i]) == g ==> rows[i].version <= m
    ensures m > 0 ==> exists i :: 0 <= i < |rows| && GroupOf(rows[i]) == g && rows[i].version == m
  {
    if rows == [] then 0
    else
      var before, last := MaxVersion(rows[..|rows| - 1], g), rows[|rows| - 1];
      if GroupOf(last) == g && last.version > before then last.version else before
  }

  /** A live document of `rows[i]`'s group, other than `rows[i]`. */
  predicate LiveSibling(rows: seq<Doc>, i: nat, k: int)
    requires i < |rows|
  {
    0 <= k < |rows| && k != i && GroupOf(rows[k]) == GroupOf(rows[i]) && Live(rows[k])
  }

  /** The sibling the source takes from its version-descending listing: the highest live one. */
  function TopSibling(rows: seq<Doc>, i: nat, n: nat): (r: Option<nat>)
    requires i < |rows| && n <= |rows|
    ensures r.Some? ==> r.value < n && LiveSibling(rows, i, r.value)
    ensures r.Some? ==> forall k :: 0 <= k < n && LiveSibling(rows, i, k) ==> rows[k].version <= rows[r.value].version
    ensures r.None? ==> forall k :: 0 <= k < n ==> !LiveSibling(rows, i, k)
  {
    if n == 0 then None
    else
      var before := TopSibling(rows, i, n - 1);
      if !LiveSibling(rows, i, n - 1) then before
      else if before.Some? && rows[n - 1].version <= rows[before.value].version then before
      else Some(n - 1)
  }

  lemma {:induction false} SiblingsIgnoreSelf(rows: seq<Doc>, i: nat, d: Doc, n: nat)
    requires i < |rows| && n <= |rows| && GroupOf(d) == GroupOf(rows[i])
    ensures TopSibling(rows[i := d], i, n) == TopSibling(rows, i, n)
  {
    if n > 0 {
      SiblingsIgnoreSelf(rows, i, d, n - 1);
      assert LiveSibling(rows[i := d], i, n - 1) <==> LiveSibling(rows, i, n - 1);
    }
  }

  // ---------------------------------------------------------------- effects

  function Demoted(rows: seq<Doc>, g: Group): (r: seq<Doc>)
    ensures |r| == |rows|
    ensures forall k :: 0 <= k < |rows| ==>
              r[k] == if GroupOf(rows[k]) == g then rows[k].(isLatest := false) else rows[k]
  {
    seq(|rows|, k requires 0 <= k < |rows| => if GroupOf(rows[k]) == g then rows[k].(isLatest := false) else rows[k])
  }

  /** `upload_document`, and each document a payment adds to the voucher group. */
  function Uploaded(rows: seq<Doc>, id: nat, g: Group, stepId: Option<nat>): seq<Doc> {
    (if IsMultiInstance(g.docType, stepId) then rows else Demoted(rows, g))
    + [Doc(id, g.subId, g.phaseId, stepId, g.docType, MaxVersion(rows, g) + 1, true, false)]
  }

  function Promoted(rows: seq<Doc>, k: Option<nat>): seq<Doc>
    requires k.Some? ==> k.value < |rows|
  {
    if k.None? then rows else rows[k.value := rows[k.value].(isLatest := true)]
  }

  /** `delete_document`. */
  function Deleted(rows: seq<Doc>, i: nat): seq<Doc>
    requires i < |rows|
  {
    var marked := rows[i := rows[i].(isDeleted := true, isLatest := false)];
    if IsMultiInstance(rows[i].docType, rows[i].stepId) then marked
    else Promoted(marked, TopSibling(rows, i, |rows|))
  }

  lemma PromotionKeepsVersions(rows: seq<Doc>, k: Option<nat>, g: Group)
    requires k.Some? ==> k.value < |rows|
    ensures MaxVersion(Promoted(rows, k), g) == MaxVersion(rows, g)
  {
    var after := Promoted(rows, k);
    assert forall i :: 0 <= i < |rows| ==> GroupOf(after[i]) == GroupOf(rows[i]) && after[i].version == rows[i].version;
  }

  lemma PromotionSparesSelf(rows: seq<Doc>, at: nat)
    requires at < |rows|
    ensures Promoted(rows, TopSibling(rows, at, |rows|))[at] == rows[at]
  {
  }

  /** `_move_document_to_doc_type`. */
  function Moved(rows: seq<Doc>, i: nat, docType: string): seq<Doc>
    requires i < |rows|
  {
    var g := GroupOf(rows[i]).(docType := docType);
    Demoted(Promoted(rows, TopSibling(rows, i, |rows|)), g)
      [i := rows[i].(docType := docType, version := MaxVersion(rows, g) + 1, isLatest := true)]
  }

  /** A move, told step by step: promote a sibling, clear the new group, change the document. */
  lemma MovedInSteps(rows: seq<Doc>, at: nat, docType: string)
    requires at < |rows| && rows[at].docType != docType
    ensures var g := GroupOf(rows[at]).(docType := docType);
      var promoted := Promoted(rows, TopSibling(rows, at, |rows|));
      var open := Demoted(promoted, g);
      && open[at] == rows[at]
      && Moved(rows, at, docType) == open[at := open[at].(docType := docType, version := MaxVersion(promoted, g) + 1, isLatest := true)]
  {
    hide TopSibling, MaxVersion, Demoted;
    PromotionKeepsVersions(rows, TopSibling(rows, at, |rows|), GroupOf(rows[at]).(docType := docType));
    PromotionSparesSelf(rows, at);
  }

  /** `soft_delete_phase_documents`: the latest flag stays set. */
  function SoftDeleted(rows: seq<Doc>, phaseId: nat): (r: seq<Doc>)
    ensures |r| == |rows|
    ensures forall k :: 0 <= k < |rows| ==>
              r[k] == if rows[k].phaseId == phaseId && rows[k].isLatest then rows[k].(isDeleted := true) else rows[k]
  {
    seq(|rows|, k requires 0 <= k < |rows| =>
      if rows[k].phaseId == phaseId && rows[k].isLatest then rows[k].(isDeleted := true) else rows[k])
  }

  datatype Call =
    | Upload(id: nat, group: Group, stepId: Option<nat>)
    | Delete(at: nat)
    | Reclassify(at: nat, docType: string)
    | SoftDelete(phaseId: nat)

  predicate Enabled(rows: seq<Doc>, c: Call) {
    match c
    case Upload(id, _, _) => forall k :: 0 <= k < |rows| ==> rows[k].id != id
    case Delete(at) => at < |rows| && Live(rows[at])
    case Reclassify(at, docType) => at < |rows| && Live(rows[at]) && rows[at].isLatest && docType != rows[at].docType
    case SoftDelete(_) => true
  }

  function Apply(rows: seq<Doc>, c: Call): seq<Doc>
    requires Enabled(rows, c)
  {
    match c
    case Upload(id, g, stepId) => Uploaded(rows, id, g, stepId)
    case Delete(at) => Deleted(rows, at)
    case Reclassify(at, docType) => Moved(rows, at, docType)
    case SoftDelete(phaseId) => SoftDeleted(rows, phaseId)
  }

  predicate IsRun(rows: seq<Doc>, calls: seq<Call>)
    decreases |calls|
  {
    calls == [] || (Enabled(rows, calls[0]) && IsRun(Apply(rows, calls[0]), calls[1..]))
  }

  function Final(rows: seq<Doc>, calls: seq<Call>): seq<Doc>
    requires IsRun(rows, calls)
    decreases |calls|
  {
    if calls == [] then rows else Final(Apply(rows, calls[0]), calls[1..])
  }

  // ---------------------------------------------------------------- invariants

  predicate DistinctIds(rows: seq<Doc>) {
    forall i, j :: 0 <= i < j < |rows| ==> rows[i].id != rows[j].id
  }

  predicate DistinctVersions(rows: seq<Doc>) {
    && (forall i :: 0 <= i < |rows| ==> rows[i].version >= 1)
    && (forall i, j :: 0 <= i < j < |rows| && GroupOf(rows[i]) == GroupOf(rows[j]) ==> rows[i].version != rows[j].version)
  }

  /** In a single-instance group a live latest document has the highest live version. */
  predicate LatestIsHighest(rows: seq<Doc>) {
    forall i, j :: 0 <= i < |rows| && 0 <= j < |rows| && GroupOf(rows[i]) == GroupOf(rows[j])
      && SingleInstance(rows[i].docType) && Live(rows[i]) && rows[i].isLatest && Live(rows[j])
      ==> rows[j].version <= rows[i].version
  }

  /** Primary keys and the unique constraint on versions. */
  predicate Keyed(rows: seq<Doc>) {
    DistinctIds(rows) && DistinctVersions(rows)
  }

  predicate Valid(rows: seq<Doc>) {
    Keyed(rows) && LatestIsHighest(rows)
  }

  predicate HasLatest(rows: seq<Doc>, g: Group) {
    exists k :: 0 <= k < |rows| && GroupOf(rows[k]) == g && Live(rows[k]) && rows[k].isLatest
  }

  /** Every single-instance group with a live document has a live latest one. */
  predicate Covered(rows: seq<Doc>) {
    forall i :: 0 <= i < |rows| && SingleInstance(rows[i].docType) && Live(rows[i]) ==> HasLatest(rows, GroupOf(rows[i]))
  }

  // ---------------------------------------------------------------- each call keeps them

  /** Rows that keep their identity, group, version and liveness. */
  predicate SameBut(d: Doc, before: Doc) {
    d == before.(isLatest := d.isLatest, isDeleted := d.isDeleted)
  }

  lemma UploadedRows(rows: seq<Doc>, id: nat, g: Group, stepId: Option<nat>)
    ensures var after := Uploaded(rows, id, g, stepId);
      && |after| == |rows| + 1
      && after[|rows|] == Doc(id, g.subId, g.phaseId, stepId, g.docType, MaxVersion(rows, g) + 1, true, false)
      && (forall k :: 0 <= k < |rows| ==>
            after[k] == if GroupOf(rows[k]) == g && !IsMultiInstance(g.docType, stepId)
                        then rows[k].(isLatest := false) else rows[k])
  {
  }

  lemma UploadValid(rows: seq<Doc>, id: nat, g: Group, stepId: Option<nat>)
    requires Valid(rows) && Enabled(rows, Upload(id, g, stepId))
    ensures Valid(Uploaded(rows, id, g, stepId))
  {
    UploadedRows(rows, id, g, stepId);
    hide Uploaded, MaxVersion;
    var after := Uploaded(rows, id, g, stepId);
    assert forall k :: 0 <= k < |rows| ==> SameBut(after[k], rows[k]) && after[k].isDeleted == rows[k].isDeleted;
    assert DistinctIds(after) && DistinctVersions(after);
    forall i, j | 0 <= i < |after| && 0 <= j < |after| && GroupOf(after[i]) == GroupOf(after[j])
      && SingleInstance(after[i].docType) && Live(after[i]) && after[i].isLatest && Live(after[j])
      ensures after[j].version <= after[i].version
    {
      if i < |rows| && j < |rows| {
        assert SameBut(after[i], rows[i]) && SameBut(after[j], rows[j]);
      }
    }
  }

  lemma UploadCovered(rows: seq<Doc>, id: nat, g: Group, stepId: Option<nat>)
    requires Covered(rows)
    ensures Covered(Uploaded(rows, id, g, stepId))
  {
    UploadedRows(rows, id, g, stepId);
    hide Uploaded, MaxVersion;
    var after := Uploaded(rows, id, g, stepId);
    assert GroupOf(after[|rows|]) == g && Live(after[|rows|]) && after[|rows|].isLatest;
    forall i | 0 <= i < |after| && SingleInstance(after[i].docType) && Live(after[i])
      ensures HasLatest(after, GroupOf(after[i]))
    {
      if GroupOf(after[i]) != g {
        OtherGroupCovered(rows, i, after);
      }
    }
  }

  /** A group whose rows did not change stays covered. */
  lemma OtherGroupCovered(rows: seq<Doc>, i: nat, after: seq<Doc>)
    requires Covered(rows) && i < |rows| <= |after| && SingleInstance(rows[i].docType) && Live(rows[i])
    requires forall k :: 0 <= k < |rows| && GroupOf(rows[k]) == GroupOf(rows[i]) ==> after[k] == rows[k]
    ensures HasLatest(after, GroupOf(rows[i]))
  {
    assert HasLatest(rows, GroupOf(rows[i]));
    var k :| 0 <= k < |rows| && GroupOf(rows[k]) == GroupOf(rows[i]) && Live(rows[k]) && rows[k].isLatest;
    assert after[k] == rows[k];
  }

  lemma DeletedRows(rows: seq<Doc>, at: nat)
    requires at < |rows|
    ensures var after, top := Deleted(rows, at), TopSibling(rows, at, |rows|);
      && |after| == |rows|
      && after[at] == rows[at].(isDeleted := true, isLatest := false)
      && (forall k :: 0 <= k < |rows| && k != at ==>
            after[k] == if Some(k) == top && !IsMultiInstance(rows[at].docType, rows[at].stepId)
                        then rows[k].(isLatest := true) else rows[k])
  {
  }

  lemma DeleteKeyed(rows: seq<Doc>, at: nat)
    requires Keyed(rows) && at < |rows|
    ensures Keyed(Deleted(rows, at))
  {
    DeletedRows(rows, at);
    hide Deleted, TopSibling;
    var after := Deleted(rows, at);
    assert forall k :: 0 <= k < |rows| ==> SameBut(after[k], rows[k]);
  }

  lemma DeleteHighest(rows: seq<Doc>, at: nat)
    requires LatestIsHighest(rows) && Enabled(rows, Delete(at))
    ensures LatestIsHighest(Deleted(rows, at))
  {
    DeletedRows(rows, at);
    hide Deleted, TopSibling;
    var after, top := Deleted(rows, at), TopSibling(rows, at, |rows|);
    forall i, j | 0 <= i < |after| && 0 <= j < |after| && GroupOf(after[i]) == GroupOf(after[j])
      && SingleInstance(after[i].docType) && Live(after[i]) && after[i].isLatest && Live(after[j])
      ensures after[j].version <= after[i].version
    {
      assert SameBut(after[i], rows[i]) && SameBut(after[j], rows[j]);
      if Some(i) == top {
        assert LiveSibling(rows, at, j);
      }
    }
  }

  lemma DeleteValid(rows: seq<Doc>, at: nat)
    requires Valid(rows) && Enabled(rows, Delete(at))
    ensures Valid(Deleted(rows, at))
  {
    DeleteKeyed(rows, at);
    DeleteHighest(rows, at);
  }

  lemma MarkKeyed(rows: seq<Doc>, at: nat, d: Doc)
    requires Keyed(rows) && at < |rows| && SameBut(d, rows[at])
    ensures Keyed(rows[at := d])
  {
  }

  lemma DeleteCovered(rows: seq<Doc>, at: nat)
    requires Covered(rows) && Enabled(rows, Delete(at))
    ensures Covered(Deleted(rows, at))
  {
    DeletedRows(rows, at);
    hide Deleted, TopSibling;
    var after, top := Deleted(rows, at), TopSibling(rows, at, |rows|);
    forall i | 0 <= i < |after| && SingleInstance(after[i].docType) && Live(after[i])
      ensures HasLatest(after, GroupOf(after[i]))
    {
      if GroupOf(rows[i]) == GroupOf(rows[at]) {
        assert LiveSibling(rows, at, i);
        assert Live(after[top.value]) && after[top.value].isLatest && GroupOf(after[top.value]) == GroupOf(after[i]);
      } else {
        OtherGroupCovered(rows, i, after);
      }
    }
  }

  lemma MovedRows(rows: seq<Doc>, at: nat, docType: string)
    requires at < |rows| && docType != rows[at].docType
    ensures var after, g, top := Moved(rows, at, docType), GroupOf(rows[at]).(docType := docType), TopSibling(rows, at, |rows|);
      && |after| == |rows|
      && after[at] == rows[at].(docType := docType, version := MaxVersion(rows, g) + 1, isLatest := true)
      && (forall k :: 0 <= k < |rows| && k != at ==>
            after[k] == if GroupOf(rows[k]) == g then rows[k].(isLatest := false)
                        else if Some(k) == top then rows[k].(isLatest := true) else rows[k])
  {
  }

  lemma MoveIds(rows: seq<Doc>, at: nat, docType: string)
    requires DistinctIds(rows) && at < |rows| && docType != rows[at].docType
    ensures DistinctIds(Moved(rows, at, docType))
  {
    MovedRows(rows, at, docType);
    hide Moved, MaxVersion, TopSibling;
    var after := Moved(rows, at, docType);
    assert forall k :: 0 <= k < |rows| ==> after[k].id == rows[k].id;
  }

  lemma MovedPlaces(rows: seq<Doc>, at: nat, docType: string)
    requires at < |rows| && docType != rows[at].docType
    ensures var after := Moved(rows, at, docType);
      && |after| == |rows|
      && (forall k :: 0 <= k < |rows| && k != at ==> GroupOf(after[k]) == GroupOf(rows[k]) && after[k].version == rows[k].version)
      && after[at].version >= 1
      && (forall k :: 0 <= k < |rows| && GroupOf(rows[k]) == GroupOf(after[at]) ==> rows[k].version < after[at].version)
  {
    MovedRows(rows, at, docType);
    hide Moved, TopSibling;
  }

  lemma MoveVersions(rows: seq<Doc>, at: nat, docType: string)
    requires DistinctVersions(rows) && at < |rows| && docType != rows[at].docType
    ensures DistinctVersions(Moved(rows, at, docType))
  {
    hide Moved, GroupOf;
    MovedPlaces(rows, at, docType);
  }

  lemma MoveHighest(rows: seq<Doc>, at: nat, docType: string)
    requires LatestIsHighest(rows) && at < |rows| && Live(rows[at]) && docType != rows[at].docType
    ensures LatestIsHighest(Moved(rows, at, docType))
  {
    MovedRows(rows, at, docType);
    hide Moved, MaxVersion, TopSibling;
    var after, top := Moved(rows, at, docType), TopSibling(rows, at, |rows|);
    forall i, j | 0 <= i < |after| && 0 <= j < |after| && GroupOf(after[i]) == GroupOf(after[j])
      && SingleInstance(after[i].docType) && Live(after[i]) && after[i].isLatest && Live(after[j])
      ensures after[j].version <= after[i].version
    {
      if i != at && j != at {
        assert SameBut(after[i], rows[i]) && SameBut(after[j], rows[j]);
        if Some(i) == top {
          assert LiveSibling(rows, at, j);
        }
      }
    }
  }

  lemma MoveValid(rows: seq<Doc>, at: nat, docType: string)
    requires Valid(rows) && at < |rows| && Live(rows[at]) && docType != rows[at].docType
    ensures Valid(Moved(rows, at, docType))
  {
    MoveIds(rows, at, docType);
    MoveVersions(rows, at, docType);
    MoveHighest(rows, at, docType);
  }

  lemma MoveCovered(rows: seq<Doc>, at: nat, docType: string)
    requires Covered(rows) && at < |rows| && Live(rows[at]) && docType != rows[at].docType
    ensures Covered(Moved(rows, at, docType))
  {
    MovedRows(rows, at, docType);
    hide Moved, MaxVersion, TopSibling;
    var after, g, top := Moved(rows, at, docType), GroupOf(rows[at]).(docType := docType), TopSibling(rows, at, |rows|);
    assert GroupOf(after[at]) == g && Live(after[at]) && after[at].isLatest;
    forall i | 0 <= i < |after| && SingleInstance(after[i].docType) && Live(after[i])
      ensures HasLatest(after, GroupOf(after[i]))
    {
      if GroupOf(after[i]) != g {
        if GroupOf(rows[i]) == GroupOf(rows[at]) {
          assert LiveSibling(rows, at, i);
          assert Live(after[top.value]) && after[top.value].isLatest && GroupOf(after[top.value]) == GroupOf(after[i]);
        } else {
          OtherGroupCovered(rows, i, after);
        }
      }
    }
  }

  lemma SoftDeleteValid(rows: seq<Doc>, phaseId: nat)
    requires Valid(rows)
    ensures Valid(SoftDeleted(rows, phaseId))
  {
    var after := SoftDeleted(rows, phaseId);
    assert forall k :: 0 <= k < |rows| ==> SameBut(after[k], rows[k]);
  }

  lemma ApplyValid(rows: seq<Doc>, c: Call)
    requires Valid(rows) && Enabled(rows, c)
    ensures Valid(Apply(rows, c))
    ensures Covered(rows) && !c.SoftDelete? ==> Covered(Apply(rows, c))
  {
    hide Covered, Uploaded, Deleted, Moved;
    match c
    case Upload(id, g, stepId) =>
      UploadValid(rows, id, g, stepId);
      if Covered(rows) { UploadCovered(rows, id, g, stepId); }
    case Delete(at) =>
      DeleteValid(rows, at);
      if Covered(rows) { DeleteCovered(rows, at); }
    case Reclassify(at, docType) =>
      MoveValid(rows, at, docType);
      if Covered(rows) { MoveCovered(rows, at, docType); }
    case SoftDelete(phaseId) => SoftDeleteValid(rows, phaseId);
  }

  lemma {:induction false} RunValid(rows: seq<Doc>, calls: seq<Call>)
    requires Valid(rows) && IsRun(rows, calls)
    ensures Valid(Final(rows, calls))
    ensures Covered(rows) && (forall k :: 0 <= k < |calls| ==> !calls[k].SoftDelete?) ==> Covered(Final(rows, calls))
    decreases |calls|
  {
    if calls != [] {
      ApplyValid(rows, calls[0]);
      RunValid(Apply(rows, calls[0]), calls[1..]);
    }
  }

  /** After every run of uploads, deletes, reclassifications and soft deletes, versions in a group
      are positive and distinct, and a single-instance group has at most one live latest document,
      which has the highest live version. Without soft deletes, a single-instance group with a live
      document has exactly one. */
  lemma RunLatest(calls: seq<Call>)
    requires IsRun([], calls)
    ensures
      var after := Final([], calls);
      && DistinctVersions(after)
      && (forall i, j :: 0 <= i < |after| && 0 <= j < |after| && GroupOf(after[i]) == GroupOf(after[j])
            && SingleInstance(after[i].docType) && Live(after[i]) && after[i].isLatest && Live(after[j])
            ==> (after[j].isLatest ==> i == j) && (i != j ==> after[j].version < after[i].version))
      && ((forall k :: 0 <= k < |calls| ==> !calls[k].SoftDelete?) ==> Covered(after))
  {
    var after := Final([], calls);
    RunValid([], calls);
    forall i, j | 0 <= i < |after| && 0 <= j < |after| && GroupOf(after[i]) == GroupOf(after[j])
      && SingleInstance(after[i].docType) && Live(after[i]) && after[i].isLatest && Live(after[j])
      ensures (after[j].isLatest ==> i == j) && (i != j ==> after[j].version < after[i].version)
    {
      assert i != j ==> after[i].version != after[j].version;
    }
  }

  // ---------------------------------------------------------------- what one call does

  /** One more than the highest version of the group, or the first. */
  ghost predicate IsNextVersion(rows: seq<Doc>, g: Group, v: nat) {
    && v >= 1 && (forall k :: 0 <= k < |rows| && GroupOf(rows[k]) == g ==> rows[k].version < v)
    && (v == 1 || exists k :: 0 <= k < |rows| && GroupOf(rows[k]) == g && rows[k].version == v - 1)
  }

  /** The live document of the group of `rows[i]`, other than itself, with the highest version. */
  ghost predicate IsTop(rows: seq<Doc>, i: nat, k: nat)
    requires i < |rows|
  {
    && k < |rows| && k != i && GroupOf(rows[k]) == GroupOf(rows[i]) && !rows[k].isDeleted
    && forall j :: 0 <= j < |rows| && j != i && GroupOf(rows[j]) == GroupOf(rows[i]) && !rows[j].isDeleted ==> rows[j].version <= rows[k].version
  }

  /** An upload adds one live latest document with the next version of its group. It takes the latest flag from
      the rest of the group, but changes no other document at all when it is a payment voucher, a supplier
      quote, or an acceptance report of a step. */
  ghost predicate Uploads(rows: seq<Doc>, after: seq<Doc>, id: nat, g: Group, stepId: Option<nat>) {
    && |after| == |rows| + 1
    && (exists v :: IsNextVersion(rows, g, v) && after[|rows|] == Doc(id, g.subId, g.phaseId, stepId, g.docType, v, true, false))
    && if g.docType == "payment_voucher" || g.docType == "supplier_quote" || (g.docType == "acceptance_report" && stepId != None)
       then after[..|rows|] == rows
       else forall k :: 0 <= k < |rows| ==> after[k] == if GroupOf(rows[k]) == g then rows[k].(isLatest := false) else rows[k]
  }

  lemma UploadedMeans(rows: seq<Doc>, id: nat, g: Group, stepId: Option<nat>)
    ensures Uploads(rows, Uploaded(rows, id, g, stepId), id, g, stepId)
  {
    UploadedRows(rows, id, g, stepId);
    hide Uploaded;
    assert IsNextVersion(rows, g, MaxVersion(rows, g) + 1);
    assert Uploaded(rows, id, g, stepId)[..|rows|] == rows <== IsMultiInstance(g.docType, stepId);
  }

  /** A delete marks one document and hands its latest flag to the highest live one of the group, except for
      the types that keep several. */
  ghost predicate Deletes(rows: seq<Doc>, after: seq<Doc>, i: nat)
    requires i < |rows|
  {
    && |after| == |rows| && after[i] == rows[i].(isDeleted := true, isLatest := false)
    && if rows[i].docType == "payment_voucher" || rows[i].docType == "supplier_quote" || (rows[i].docType == "acceptance_report" && rows[i].stepId != None)
       then forall k :: 0 <= k < |rows| && k != i ==> after[k] == rows[k]
       else forall k :: 0 <= k < |rows| && k != i ==> after[k] == if IsTop(rows, i, k) then rows[k].(isLatest := true) else rows[k]
  }

  lemma TopMeans(rows: seq<Doc>, i: nat)
    requires Keyed(rows) && i < |rows|
    ensures forall k :: 0 <= k < |rows| ==> (TopSibling(rows, i, |rows|) == Some(k) <==> IsTop(rows, i, k))
  {
    var top := TopSibling(rows, i, |rows|);
    forall k | 0 <= k < |rows|
      ensures top == Some(k) <==> IsTop(rows, i, k)
    {
      if IsTop(rows, i, k) {
        assert LiveSibling(rows, i, k);
      }
      if top.Some? {
        assert LiveSibling(rows, i, top.value);
        assert forall j :: 0 <= j < |rows| && j != i && GroupOf(rows[j]) == GroupOf(rows[i]) && !rows[j].isDeleted ==> LiveSibling(rows, i, j);
      }
    }
  }

  lemma DeletedMeans(rows: seq<Doc>, i: nat)
    requires Keyed(rows) && i < |rows|
    ensures Deletes(rows, Deleted(rows, i), i)
  {
    hide TopSibling, Keyed, IsTop;
    TopMeans(rows, i);
  }

  /** A move gives one document its type and the next version there, as the only latest one of the new group, and
      hands the latest flag of the old group to its highest live document. */
  ghost predicate Moves(rows: seq<Doc>, after: seq<Doc>, i: nat, docType: string)
    requires i < |rows|
  {
    && |after| == |rows|
    && var g := Group(rows[i].subId, rows[i].phaseId, docType);
    && (exists v :: IsNextVersion(rows, g, v) && after[i] == rows[i].(docType := docType, version := v, isLatest := true))
    && forall k :: 0 <= k < |rows| && k != i ==>
      after[k] == if GroupOf(rows[k]) == g then rows[k].(isLatest := false)
                  else if IsTop(rows, i, k) then rows[k].(isLatest := true) else rows[k]
  }

  lemma MovedMeans(rows: seq<Doc>, i: nat, docType: string)
    requires Keyed(rows) && i < |rows| && docType != rows[i].docType
    ensures Moves(rows, Moved(rows, i, docType), i, docType)
  {
    hide TopSibling, Keyed;
    TopMeans(rows, i);
    var g := GroupOf(rows[i]).(docType := docType);
    assert IsNextVersion(rows, g, MaxVersion(rows, g) + 1);
    hide IsTop, MaxVersion;
  }

  // ---------------------------------------------------------------- where the flags give way

  /** A soft delete leaves a single-instance group of its phase with live documents but no latest
      one exactly when the group had a live document that was not latest. */
  lemma SoftDeleteUncovers(rows: seq<Doc>, phaseId: nat, g: Group)
    requires Valid(rows) && Covered(rows) && SingleInstance(g.docType)
    ensures
      var after := SoftDeleted(rows, phaseId);
      ((exists i :: 0 <= i < |after| && GroupOf(after[i]) == g && Live(after[i])) && !HasLatest(after, g))
      <==> g.phaseId == phaseId && exists i :: 0 <= i < |rows| && GroupOf(rows[i]) == g && Live(rows[i]) && !rows[i].isLatest
  {
    var after := SoftDeleted(rows, phaseId);
    if g.phaseId == phaseId {
      forall k | 0 <= k < |after| && GroupOf(after[k]) == g && Live(after[k])
        ensures !after[k].isLatest && after[k] == rows[k]
      {
      }
      if i :| 0 <= i < |rows| && GroupOf(rows[i]) == g && Live(rows[i]) && !rows[i].isLatest {
        assert after[i] == rows[i];
      }
    } else if i :| 0 <= i < |after| && GroupOf(after[i]) == g && Live(after[i]) {
      assert after[i] == rows[i];
      var k :| 0 <= k < |rows| && GroupOf(rows[k]) == g && Live(rows[k]) && rows[k].isLatest;
      assert after[k] == rows[k];
    }
  }

  /** It happens: two uploads into any single-instance group, then a soft delete of the phase, leave the
      older document live with no latest one. */
  lemma SoftDeleteUncoversRun(g: Group, a: nat, b: nat)
    requires SingleInstance(g.docType) && a != b
    ensures var calls := [Call.Upload(a, g, None), Call.Upload(b, g, None), SoftDelete(g.phaseId)];
      && IsRun([], calls) && !Covered(Final([], calls))
      && Final([], calls) == [Doc(a, g.subId, g.phaseId, None, g.docType, 1, false, false), Doc(b, g.subId, g.phaseId, None, g.docType, 2, true, true)]
  {
    var calls := [Call.Upload(a, g, None), Call.Upload(b, g, None), SoftDelete(g.phaseId)];
    var first := Doc(a, g.subId, g.phaseId, None, g.docType, 1, true, false);
    var second := Doc(b, g.subId, g.phaseId, None, g.docType, 2, true, false);
    TwoUploads(g, a, b);
    var twice, after := [first.(isLatest := false), second], [first.(isLatest := false), second.(isDeleted := true)];
    assert SoftDeleted(twice, g.phaseId) == after;
    hide SoftDeleted, Uploaded;
    assert calls[1..][1..] == calls[2..] && calls[2..][1..] == [];
    assert IsRun(after, []) && IsRun(twice, calls[2..]) && IsRun([first], calls[1..]);
    assert Final([], calls) == Final([first], calls[1..]) == Final(twice, calls[2..]) == Final(after, []);
    assert SingleInstance(after[0].docType) && Live(after[0]) && !HasLatest(after, GroupOf(after[0]));
  }

  lemma TwoUploads(g: Group, a: nat, b: nat)
    requires SingleInstance(g.docType)
    ensures var first := Doc(a, g.subId, g.phaseId, None, g.docType, 1, true, false);
      && Uploaded([], a, g, None) == [first]
      && Uploaded([first], b, g, None) == [first.(isLatest := false), Doc(b, g.subId, g.phaseId, None, g.docType, 2, true, false)]
  {
    var first := Doc(a, g.subId, g.phaseId, None, g.docType, 1, true, false);
    assert MaxVersion([], g) == 0;
    assert [first][..0] == [];
    assert MaxVersion([first], g) == 1;
    assert Demoted([first], g) == [first.(isLatest := false)];
  }

  /** Reclassifying into any type takes the latest flag from every document already there, also in
      a multi-instance group, where uploads leave it alone: afterwards the moved document is the
      only latest one of its new group. */
  lemma MoveDemotesSiblings(rows: seq<Doc>, at: nat, docType: string, k: nat)
    requires at < |rows| && k < |rows| && k != at && docType != rows[at].docType
    requires GroupOf(rows[k]) == GroupOf(rows[at]).(docType := docType)
    ensures !Moved(rows, at, docType)[k].isLatest && Moved(rows, at, docType)[at].isLatest
    ensures forall id, stepId :: IsMultiInstance(docType, stepId) ==>
              Uploaded(rows, id, GroupOf(rows[k]), stepId)[k] == rows[k]
  {
    MovedRows(rows, at, docType);
  }
}
