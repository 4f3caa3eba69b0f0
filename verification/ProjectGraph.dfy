/** Deleting archived projects row by row in a store with foreign keys. RESTRICT is taken in its
    strictest reading: a referencing row blocks the delete even if the same statement removes it. */
module ProjectGraph {
  import opened Wrappers

  datatype Kind =
    | Main | Sub | Phase | PhaseHistory | Task | TaskExecutor | Payment | Voucher | Document | SearchEntry
    | RevokeRequest | AcceptanceStep | HandoverLink | Handover | Member | Review | NoCounter | Template

  datatype Column = ToMain | ToSub | ToPhase | ToTask | ToPayment | Reverses | ToDocument | ToStep

  datatype Rule = Restrict | Cascade | SetNull

  datatype ForeignKey = ForeignKey(target: Kind, rule: Rule)

  datatype Key = Key(kind: Kind, id: nat)

  /** The references of a row; an absent column is null. */
  type Refs = map<Column, nat>

  type Rows = map<Key, Refs>

  /** The foreign keys between these tables. A phase names its sub-project without one. */
  function Reference(kind: Kind, c: Column): Option<ForeignKey> {
    match kind
    case Sub => if c == ToMain then Some(ForeignKey(Main, Restrict)) else None
    case PhaseHistory => if c == ToPhase then Some(ForeignKey(Phase, Cascade)) else None
    case Task => if c == ToSub then Some(ForeignKey(Sub, Restrict)) else if c == ToPhase then Some(ForeignKey(Phase, Restrict)) else None
    case TaskExecutor => if c == ToTask then Some(ForeignKey(Task, Cascade)) else None
    case Payment => if c == ToSub then Some(ForeignKey(Sub, Restrict)) else if c == Reverses then Some(ForeignKey(Payment, Restrict)) else None
    case Voucher => if c == ToPayment then Some(ForeignKey(Payment, Cascade)) else if c == ToDocument then Some(ForeignKey(Document, Restrict)) else None
    case Document => if c == ToSub then Some(ForeignKey(Sub, Restrict)) else if c == ToPhase then Some(ForeignKey(Phase, Restrict)) else if c == ToStep then Some(ForeignKey(AcceptanceStep, SetNull)) else None
    case SearchEntry => if c == ToDocument then Some(ForeignKey(Document, Cascade)) else if c == ToSub then Some(ForeignKey(Sub, Cascade)) else if c == ToPhase then Some(ForeignKey(Phase, Cascade)) else None
    case RevokeRequest => if c == ToPhase then Some(ForeignKey(Phase, Restrict)) else if c == ToSub then Some(ForeignKey(Sub, Restrict)) else None
    case AcceptanceStep => if c == ToPhase then Some(ForeignKey(Phase, Cascade)) else None
    case HandoverLink => if c == ToSub then Some(ForeignKey(Sub, Restrict)) else None
    case Handover => if c == ToSub then Some(ForeignKey(Sub, Restrict)) else None
    case Member => if c == ToSub then Some(ForeignKey(Sub, Cascade)) else None
    case Review => if c == ToMain then Some(ForeignKey(Main, Cascade)) else if c == ToSub then Some(ForeignKey(Sub, Cascade)) else None
    case NoCounter => if c == ToMain then Some(ForeignKey(Main, Cascade)) else None
    case Template => if c == ToMain then Some(ForeignKey(Main, SetNull)) else None
    case _ => None
  }

  // ---------------------------------------------------------------- one DELETE statement

  predicate Refers(kind: Kind, refs: Refs, v: Key, rule: Rule) {
    exists c :: c in refs && Reference(kind, c) == Some(ForeignKey(v.kind, rule)) && refs[c] == v.id
  }

  function Cascades(rows: Rows, victims: set<Key>): set<Key> {
    set k | k in rows && exists v :: v in victims && Refers(k.kind, rows[k], v, Cascade)
  }

  predicate Blocked(rows: Rows, victims: set<Key>) {
    exists k, v :: k in rows && v in victims + Cascades(rows, victims) && Refers(k.kind, rows[k], v, Restrict)
  }

  function Cleared(kind: Kind, refs: Refs, gone: set<Key>): Refs {
    map c | c in refs && !(exists v :: v in gone && Reference(kind, c) == Some(ForeignKey(v.kind, SetNull)) && refs[c] == v.id) :: refs[c]
  }

  /** The store without the rows in `gone`. */
  function Without(rows: Rows, gone: set<Key>): Rows {
    map k | k in rows && k !in gone :: Cleared(k.kind, rows[k], gone)
  }

  function Deleted(rows: Rows, victims: set<Key>): Rows {
    Without(rows, victims + Cascades(rows, victims))
  }

  /** One level of cascading is all there is: no cascaded row is itself the target of a cascade or a restriction. */
  lemma CascadeStops(rows: Rows, victims: set<Key>)
    ensures Cascades(rows, Cascades(rows, victims)) == {}
    ensures Blocked(rows, victims) <==> exists k, v :: k in rows && v in victims && Refers(k.kind, rows[k], v, Restrict)
  {
    forall k, w | k in Cascades(rows, victims) && w in rows
      ensures !Refers(w.kind, rows[w], k, Cascade) && !Refers(w.kind, rows[w], k, Restrict)
    {
      CascadedIsLeaf(rows, victims, k, w);
    }
    assert forall v :: v in victims ==> v in victims + Cascades(rows, victims);
  }

  predicate Leaf(kind: Kind) {
    kind in {PhaseHistory, TaskExecutor, Voucher, SearchEntry, AcceptanceStep, Member, Review, NoCounter}
  }

  lemma CascadedIsLeaf(rows: Rows, victims: set<Key>, k: Key, w: Key)
    requires k in Cascades(rows, victims) && w in rows
    ensures Leaf(k.kind)
    ensures !Refers(w.kind, rows[w], k, Cascade) && !Refers(w.kind, rows[w], k, Restrict)
  {
    var v :| v in victims && Refers(k.kind, rows[k], v, Cascade);
  }

  // ---------------------------------------------------------------- what has to go

  predicate Has(refs: Refs, c: Column, ids: set<nat>) {
    c in refs && refs[c] in ids
  }

  function Select(rows: Rows, kind: Kind, c: Column, ids: set<nat>): set<Key> {
    set k | k in rows && k.kind == kind && Has(rows[k], c, ids)
  }

  function SelectIds(rows: Rows, kind: Kind, ids: set<nat>): set<Key> {
    set k | k in rows && k.kind == kind && k.id in ids
  }

  function Ids(keys: set<Key>): set<nat> {
    set k | k in keys :: k.id
  }

  function SubIds(rows: Rows, mains: set<nat>): set<nat> {
    Ids(Select(rows, Sub, ToMain, mains))
  }

  /** The identifiers of the rows of a table that name one of the sub-projects. */
  function OwnedIds(rows: Rows, kind: Kind, mains: set<nat>): set<nat> {
    Ids(Select(rows, kind, ToSub, SubIds(rows, mains)))
  }

  predicate IsDoomed(rows: Rows, mains: set<nat>, k: Key)
    requires k in rows
  {
    var refs := rows[k];
    match k.kind
    case Main => k.id in mains
    case Sub => Has(refs, ToMain, mains)
    case Phase => Has(refs, ToSub, SubIds(rows, mains))
    case Task => Has(refs, ToSub, SubIds(rows, mains))
    case Payment => Has(refs, ToSub, SubIds(rows, mains))
    case Document => Has(refs, ToSub, SubIds(rows, mains))
    case HandoverLink => Has(refs, ToSub, SubIds(rows, mains))
    case Handover => Has(refs, ToSub, SubIds(rows, mains))
    case Member => Has(refs, ToSub, SubIds(rows, mains))
    case Voucher => Has(refs, ToPayment, OwnedIds(rows, Payment, mains)) || Has(refs, ToDocument, OwnedIds(rows, Document, mains))
    case RevokeRequest => Has(refs, ToPhase, OwnedIds(rows, Phase, mains)) || Has(refs, ToSub, SubIds(rows, mains))
    case AcceptanceStep => Has(refs, ToPhase, OwnedIds(rows, Phase, mains))
    case PhaseHistory => Has(refs, ToPhase, OwnedIds(rows, Phase, mains))
    case TaskExecutor => Has(refs, ToTask, OwnedIds(rows, Task, mains))
    case Review => Has(refs, ToMain, mains) || Has(refs, ToSub, SubIds(rows, mains))
    case NoCounter => Has(refs, ToMain, mains)
    case SearchEntry => Has(refs, ToDocument, OwnedIds(rows, Document, mains))
    case Template => false
  }

  /** The rows to remove, restricted to some tables. */
  function Doomed(rows: Rows, mains: set<nat>, kinds: set<Kind>): set<Key> {
    set k | k in rows && k.kind in kinds && IsDoomed(rows, mains, k)
  }

  function AllDoomed(rows: Rows, mains: set<nat>): set<Key> {
    set k | k in rows && IsDoomed(rows, mains, k)
  }

  function Purged(rows: Rows, mains: set<nat>): Rows {
    Without(rows, AllDoomed(rows, mains))
  }

  // ---------------------------------------------------------------- consistent stores

  function RefersTo(kind: Kind, c: Column): Option<Kind> {
    if kind == Phase && c == ToSub then Some(Sub)
    else match Reference(kind, c)
      case Some(fk) => Some(fk.target)
      case None => None
  }

  /** The row names a phase of its own sub-project. */
  predicate OwnPhase(rows: Rows, refs: Refs) {
    && ToSub in refs && ToPhase in refs && Key(Phase, refs[ToPhase]) in rows
    && ToSub in rows[Key(Phase, refs[ToPhase])] && rows[Key(Phase, refs[ToPhase])][ToSub] == refs[ToSub]
  }

  predicate OwnDocument(rows: Rows, refs: Refs) {
    && ToSub in refs && ToPhase in refs && ToDocument in refs && Key(Document, refs[ToDocument]) in rows
    && var d := rows[Key(Document, refs[ToDocument])];
      ToSub in d && ToPhase in d && d[ToSub] == refs[ToSub] && d[ToPhase] == refs[ToPhase]
  }

  /** A reversal targets a payment of the same sub-project that is not itself a reversal. */
  predicate ProperReversal(rows: Rows, refs: Refs) {
    && ToSub in refs
    && (Reverses in refs ==>
      && Key(Payment, refs[Reverses]) in rows
      && var target := rows[Key(Payment, refs[Reverses])];
        Reverses !in target && ToSub in target && target[ToSub] == refs[ToSub])
  }

  predicate RowConsistent(rows: Rows, k: Key)
    requires k in rows
  {
    && (forall c :: c in rows[k] && Reference(k.kind, c).Some? ==> Key(Reference(k.kind, c).value.target, rows[k][c]) in rows)
    && (k.kind in {Task, Document, SearchEntry} ==> OwnPhase(rows, rows[k]))
    && (k.kind == SearchEntry ==> OwnDocument(rows, rows[k]))
    && (k.kind == Payment ==> ProperReversal(rows, rows[k]))
  }

  predicate Consistent(rows: Rows) {
    forall k :: k in rows ==> RowConsistent(rows, k)
  }

  // ---------------------------------------------------------------- removing what depends on removed rows

  lemma InIds(keys: set<Key>, kind: Kind, id: nat)
    requires forall k :: k in keys ==> k.kind == kind
    ensures id in Ids(keys) <==> Key(kind, id) in keys
  {
    if id in Ids(keys) {
      var k :| k in keys && k.id == id;
      assert k == Key(kind, id);
    }
  }

  lemma SubIdsMean(rows: Rows, mains: set<nat>, id: nat)
    ensures id in SubIds(rows, mains) <==> Key(Sub, id) in AllDoomed(rows, mains)
  {
    InIds(Select(rows, Sub, ToMain, mains), Sub, id);
  }

  lemma OwnedIdsMean(rows: Rows, mains: set<nat>, kind: Kind, id: nat)
    requires kind in {Phase, Task, Payment, Document}
    ensures id in OwnedIds(rows, kind, mains) <==> Key(kind, id) in AllDoomed(rows, mains)
  {
    InIds(Select(rows, kind, ToSub, SubIds(rows, mains)), kind, id);
  }

  /** A reference that a delete cannot simply clear. */
  predicate Binding(kind: Kind, c: Column) {
    RefersTo(kind, c).Some? && (Reference(kind, c).Some? ==> Reference(kind, c).value.rule != SetNull)
  }

  lemma DoomedBySub(rows: Rows, mains: set<nat>, k: Key, c: Column)
    requires k in rows && c in rows[k] && RefersTo(k.kind, c) == Some(Sub) && k.kind != SearchEntry
    requires Key(Sub, rows[k][c]) in AllDoomed(rows, mains)
    ensures k in AllDoomed(rows, mains)
  {
    hide SubIds, OwnedIds;
    SubIdsMean(rows, mains, rows[k][c]);
  }

  lemma DoomedByPhase(rows: Rows, mains: set<nat>, k: Key, c: Column)
    requires k in rows && c in rows[k] && RefersTo(k.kind, c) == Some(Phase) && k.kind in {RevokeRequest, AcceptanceStep, PhaseHistory}
    requires Key(Phase, rows[k][c]) in AllDoomed(rows, mains)
    ensures k in AllDoomed(rows, mains)
  {
    hide SubIds, OwnedIds;
    OwnedIdsMean(rows, mains, Phase, rows[k][c]);
  }

  /** A document or task that names a removed phase belongs to the removed sub-project of that phase. */
  lemma DoomedByOwnPhase(rows: Rows, mains: set<nat>, k: Key)
    requires k in rows && k.kind in {Task, Document} && OwnPhase(rows, rows[k])
    requires Key(Phase, rows[k][ToPhase]) in AllDoomed(rows, mains)
    ensures k in AllDoomed(rows, mains)
  {
    hide SubIds;
  }

  /** A search entry goes with its document, whichever of its three references is followed. */
  lemma DoomedSearch(rows: Rows, mains: set<nat>, k: Key, c: Column)
    requires k in rows && k.kind == SearchEntry && OwnDocument(rows, rows[k]) && OwnPhase(rows, rows[k])
    requires c in rows[k] && RefersTo(SearchEntry, c).Some?
    requires Key(RefersTo(k.kind, c).value, rows[k][c]) in AllDoomed(rows, mains)
    ensures k in AllDoomed(rows, mains)
  {
    hide SubIds, OwnedIds;
    var d := Key(Document, rows[k][ToDocument]);
    OwnedIdsMean(rows, mains, Document, d.id);
    SubIdsMean(rows, mains, rows[k][ToSub]);
    assert c == ToDocument || c == ToSub || c == ToPhase;
    if c == ToPhase {
      assert Key(Phase, rows[k][c]) in AllDoomed(rows, mains);
      assert Has(rows[Key(Phase, rows[k][c])], ToSub, SubIds(rows, mains));
    }
  }

  lemma DoomedByOther(rows: Rows, mains: set<nat>, k: Key, c: Column)
    requires k in rows && c in rows[k] && k.kind != Template && k.kind != Payment && k.kind != SearchEntry
    requires RefersTo(k.kind, c).Some? && RefersTo(k.kind, c).value in {Main, Task, Payment, Document}
    requires Key(RefersTo(k.kind, c).value, rows[k][c]) in AllDoomed(rows, mains)
    ensures k in AllDoomed(rows, mains)
  {
    hide SubIds, OwnedIds;
    var target := RefersTo(k.kind, c).value;
    if target != Main {
      OwnedIdsMean(rows, mains, target, rows[k][c]);
    }
  }

  lemma DoomedByReversal(rows: Rows, mains: set<nat>, k: Key)
    requires k in rows && k.kind == Payment && ProperReversal(rows, rows[k]) && Reverses in rows[k]
    requires Key(Payment, rows[k][Reverses]) in AllDoomed(rows, mains)
    ensures k in AllDoomed(rows, mains)
  {
    hide SubIds;
  }

  /** A row that is bound to a removed row is removed too. */
  lemma DoomedIsClosed(rows: Rows, mains: set<nat>, k: Key, c: Column)
    requires Consistent(rows) && k in rows && c in rows[k] && Binding(k.kind, c)
    requires Key(RefersTo(k.kind, c).value, rows[k][c]) in AllDoomed(rows, mains)
    ensures k in AllDoomed(rows, mains)
  {
    hide AllDoomed;
    BindingTargets(k.kind, c);
    hide Reference, OwnPhase, OwnDocument, ProperReversal;
    assert RowConsistent(rows, k);
    if k.kind == SearchEntry {
      DoomedSearch(rows, mains, k, c);
    } else if RefersTo(k.kind, c) == Some(Sub) {
      DoomedBySub(rows, mains, k, c);
    } else if RefersTo(k.kind, c) == Some(Phase) && k.kind in {Task, Document} {
      DoomedByOwnPhase(rows, mains, k);
    } else if RefersTo(k.kind, c) == Some(Phase) {
      DoomedByPhase(rows, mains, k, c);
    } else if k.kind == Payment {
      DoomedByReversal(rows, mains, k);
    } else {
      DoomedByOther(rows, mains, k, c);
    }
  }

  lemma BindingTargets(kind: Kind, c: Column)
    requires Binding(kind, c)
    ensures RefersTo(kind, c).value in {Main, Sub, Phase, Task, Payment, Document}
    ensures RefersTo(kind, c) == Some(Phase) ==> c == ToPhase && kind in {Task, Document, SearchEntry, RevokeRequest, AcceptanceStep, PhaseHistory}
    ensures kind == Payment && RefersTo(kind, c) != Some(Sub) ==> c == Reverses && RefersTo(kind, c) == Some(Payment)
    ensures kind != Template
  {
  }

  /** `gone` contains the main projects and everything bound to what it contains. */
  ghost predicate Closed(rows: Rows, mains: set<nat>, gone: set<Key>) {
    && (forall id :: id in mains && Key(Main, id) in rows ==> Key(Main, id) in gone)
    && (forall k, c :: k in rows && c in rows[k] && Binding(k.kind, c) && Key(RefersTo(k.kind, c).value, rows[k][c]) in gone ==> k in gone)
  }

  function Rank(kind: Kind): nat {
    match kind
    case Main => 0
    case Sub => 1
    case Phase => 2
    case Task => 2
    case Payment => 2
    case Document => 2
    case _ => 3
  }

  lemma BecauseOfSub(rows: Rows, mains: set<nat>, k: Key)
    requires k in rows && Has(rows[k], ToSub, SubIds(rows, mains))
    requires k.kind in {Phase, Task, Payment, Document, HandoverLink, Handover, Member, RevokeRequest, Review}
    ensures Binding(k.kind, ToSub) && RefersTo(k.kind, ToSub) == Some(Sub) && Key(Sub, rows[k][ToSub]) in AllDoomed(rows, mains)
  {
    hide IsDoomed, SubIds;
    SubIdsMean(rows, mains, rows[k][ToSub]);
  }

  lemma BecauseOfPhase(rows: Rows, mains: set<nat>, k: Key)
    requires k in rows && Has(rows[k], ToPhase, OwnedIds(rows, Phase, mains))
    requires k.kind in {RevokeRequest, AcceptanceStep, PhaseHistory}
    ensures Binding(k.kind, ToPhase) && RefersTo(k.kind, ToPhase) == Some(Phase) && Key(Phase, rows[k][ToPhase]) in AllDoomed(rows, mains)
  {
    hide IsDoomed, OwnedIds;
    OwnedIdsMean(rows, mains, Phase, rows[k][ToPhase]);
  }

  lemma BecauseOfOther(rows: Rows, mains: set<nat>, k: Key, c: Column, target: Kind)
    requires k in rows && Has(rows[k], c, OwnedIds(rows, target, mains))
    requires (k.kind, c, target) in {(TaskExecutor, ToTask, Task), (Voucher, ToPayment, Payment), (Voucher, ToDocument, Document),
      (SearchEntry, ToDocument, Document)}
    ensures Binding(k.kind, c) && RefersTo(k.kind, c) == Some(target) && Key(target, rows[k][c]) in AllDoomed(rows, mains)
  {
    hide IsDoomed, OwnedIds;
    OwnedIdsMean(rows, mains, target, rows[k][c]);
  }

  lemma BecauseOfMain(rows: Rows, mains: set<nat>, k: Key)
    requires Consistent(rows) && k in rows && Has(rows[k], ToMain, mains) && k.kind in {Sub, Review, NoCounter}
    ensures Binding(k.kind, ToMain) && RefersTo(k.kind, ToMain) == Some(Main) && Key(Main, rows[k][ToMain]) in AllDoomed(rows, mains)
  {
    assert RowConsistent(rows, k);
    assert Reference(k.kind, ToMain).Some?;
  }

  /** The reference that makes a row go leads to a row that goes, closer to the main projects. */
  lemma DoomedBecause(rows: Rows, mains: set<nat>, k: Key) returns (c: Column)
    requires Consistent(rows) && k in AllDoomed(rows, mains) && k.kind != Main
    ensures c in rows[k] && Binding(k.kind, c)
    ensures Key(RefersTo(k.kind, c).value, rows[k][c]) in AllDoomed(rows, mains)
    ensures Rank(RefersTo(k.kind, c).value) < Rank(k.kind)
  {
    hide SubIds, OwnedIds, Reference, Consistent;
    var refs := rows[k];
    if Has(refs, ToMain, mains) && k.kind in {Sub, Review, NoCounter} {
      BecauseOfMain(rows, mains, k);
      c := ToMain;
    } else if Has(refs, ToSub, SubIds(rows, mains)) && k.kind in {Phase, Task, Payment, Document, HandoverLink, Handover, Member, RevokeRequest, Review} {
      BecauseOfSub(rows, mains, k);
      c := ToSub;
    } else if k.kind in {RevokeRequest, AcceptanceStep, PhaseHistory} {
      BecauseOfPhase(rows, mains, k);
      c := ToPhase;
    } else if k.kind == TaskExecutor {
      c := ToTask;
      BecauseOfOther(rows, mains, k, c, Task);
    } else if k.kind == Voucher && Has(refs, ToPayment, OwnedIds(rows, Payment, mains)) {
      c := ToPayment;
      BecauseOfOther(rows, mains, k, c, Payment);
    } else {
      c := ToDocument;
      BecauseOfOther(rows, mains, k, c, Document);
    }
  }

  lemma {:induction false} DoomedInClosed(rows: Rows, mains: set<nat>, gone: set<Key>, k: Key)
    requires Consistent(rows) && Closed(rows, mains, gone) && k in AllDoomed(rows, mains)
    ensures k in gone
    decreases Rank(k.kind)
  {
    hide Reference, Consistent;
    if k.kind == Main {
      assert k == Key(Main, k.id);
    } else {
      var c := DoomedBecause(rows, mains, k);
      DoomedInClosed(rows, mains, gone, Key(RefersTo(k.kind, c).value, rows[k][c]));
    }
  }

  /** What goes is exactly what depends on the main projects through any chain of binding references. */
  lemma DoomedIsLeast(rows: Rows, mains: set<nat>, gone: set<Key>)
    requires Consistent(rows)
    ensures Closed(rows, mains, AllDoomed(rows, mains))
    ensures Closed(rows, mains, gone) ==> AllDoomed(rows, mains) <= gone
  {
    hide Reference, Consistent;
    forall k, c | k in rows && c in rows[k] && Binding(k.kind, c) && Key(RefersTo(k.kind, c).value, rows[k][c]) in AllDoomed(rows, mains)
      ensures k in AllDoomed(rows, mains)
    {
      DoomedIsClosed(rows, mains, k, c);
    }
    if Closed(rows, mains, gone) {
      forall k | k in AllDoomed(rows, mains)
        ensures k in gone
      {
        DoomedInClosed(rows, mains, gone, k);
      }
    }
  }

  // ---------------------------------------------------------------- one statement of the sequence

  lemma ClearedRefers(kind: Kind, refs: Refs, gone: set<Key>, v: Key, rule: Rule)
    requires rule != SetNull
    ensures Refers(kind, Cleared(kind, refs, gone), v, rule) <==> Refers(kind, refs, v, rule)
  {
    if Refers(kind, refs, v, rule) {
      var c :| c in refs && Reference(kind, c) == Some(ForeignKey(v.kind, rule)) && refs[c] == v.id;
      assert c in Cleared(kind, refs, gone);
    }
  }

  lemma ClearedTwice(kind: Kind, refs: Refs, gone: set<Key>, more: set<Key>)
    ensures Cleared(kind, Cleared(kind, refs, gone), more) == Cleared(kind, refs, gone + more)
  {
    hide Reference;
    var once, both := Cleared(kind, Cleared(kind, refs, gone), more), Cleared(kind, refs, gone + more);
    forall c | c in refs
      ensures c in once <==> c in both
    {
      if c !in both {
        var v :| v in gone + more && Reference(kind, c) == Some(ForeignKey(v.kind, SetNull)) && refs[c] == v.id;
        assert v in gone || v in more;
      }
    }
  }

  lemma WithoutTwice(rows: Rows, gone: set<Key>, more: set<Key>)
    ensures Without(Without(rows, gone), more) == Without(rows, gone + more)
  {
    hide Cleared;
    var twice, once := Without(Without(rows, gone), more), Without(rows, gone + more);
    forall k | k in once
      ensures twice[k] == once[k]
    {
      ClearedTwice(k.kind, rows[k], gone, more);
    }
  }

  /** A DELETE on a store from which `gone` was removed, told in terms of the store before. */
  lemma DeleteStep(rows: Rows, gone: set<Key>, victims: set<Key>, cascaded: set<Key>)
    requires forall k, v :: k in rows && k !in gone && v in victims ==> !Refers(k.kind, rows[k], v, Restrict)
    requires cascaded == set k | k in rows && k !in gone && exists v :: v in victims && Refers(k.kind, rows[k], v, Cascade)
    ensures !Blocked(Without(rows, gone), victims)
    ensures Deleted(Without(rows, gone), victims) == Without(rows, gone + (victims + cascaded))
  {
    hide Reference, Cleared;
    var now := Without(rows, gone);
    CascadeStops(now, victims);
    forall k, v | k in now && v in victims
      ensures !Refers(k.kind, now[k], v, Restrict)
      ensures Refers(k.kind, now[k], v, Cascade) <==> Refers(k.kind, rows[k], v, Cascade)
    {
      ClearedRefers(k.kind, rows[k], gone, v, Restrict);
      ClearedRefers(k.kind, rows[k], gone, v, Cascade);
    }
    assert Cascades(now, victims) == cascaded;
    WithoutTwice(rows, gone, victims + cascaded);
  }

  /** Every table that refers to `kind`, except by SET NULL, has been dealt with. */
  predicate Ready(kind: Kind, done: set<Kind>) {
    forall other, c :: Reference(other, c).Some? && Reference(other, c).value.target == kind && Reference(other, c).value.rule != SetNull
      ==> other in done
  }

  lemma ReferrersGone(rows: Rows, mains: set<nat>, done: set<Kind>, kind: Kind, k: Key, v: Key, rule: Rule)
    requires Consistent(rows) && Ready(kind, done) && rule != SetNull
    requires k in rows && k !in Doomed(rows, mains, done)
    requires v in Doomed(rows, mains, {kind})
    ensures !Refers(k.kind, rows[k], v, rule)
  {
    hide IsDoomed, RowConsistent;
    if Refers(k.kind, rows[k], v, rule) {
      var c :| c in rows[k] && Reference(k.kind, c) == Some(ForeignKey(v.kind, rule)) && rows[k][c] == v.id;
      DoomedIsClosed(rows, mains, k, c);
      assert false;
    }
  }

  /** Deleting one table's rows once all tables that refer to it are done. */
  lemma KindStep(rows: Rows, mains: set<nat>, done: set<Kind>, kind: Kind)
    requires Consistent(rows) && Ready(kind, done)
    ensures !Blocked(Without(rows, Doomed(rows, mains, done)), Doomed(rows, mains, {kind}))
    ensures Deleted(Without(rows, Doomed(rows, mains, done)), Doomed(rows, mains, {kind})) == Without(rows, Doomed(rows, mains, done + {kind}))
  {
    hide Refers, IsDoomed, RowConsistent, Ready;
    var gone, victims := Doomed(rows, mains, done), Doomed(rows, mains, {kind});
    forall k, v | k in rows && k !in gone && v in victims
      ensures !Refers(k.kind, rows[k], v, Restrict) && !Refers(k.kind, rows[k], v, Cascade)
    {
      ReferrersGone(rows, mains, done, kind, k, v, Restrict);
      ReferrersGone(rows, mains, done, kind, k, v, Cascade);
    }
    DeleteStep(rows, gone, victims, {});
    assert gone + (victims + {}) == Doomed(rows, mains, done + {kind});
  }

  lemma NothingToDo(rows: Rows, mains: set<nat>, done: set<Kind>, kind: Kind)
    requires Doomed(rows, mains, {kind}) == {}
    ensures Doomed(rows, mains, done + {kind}) == Doomed(rows, mains, done)
  {
    hide IsDoomed;
    assert forall k :: k in Doomed(rows, mains, done + {kind}) ==> k.kind != kind || k in Doomed(rows, mains, {kind});
  }

  /** Documents take their search entries with them. */
  lemma DocumentStep(rows: Rows, mains: set<nat>, done: set<Kind>)
    requires Consistent(rows) && Voucher in done && SearchEntry !in done
    ensures !Blocked(Without(rows, Doomed(rows, mains, done)), Doomed(rows, mains, {Document}))
    ensures Deleted(Without(rows, Doomed(rows, mains, done)), Doomed(rows, mains, {Document}))
      == Without(rows, Doomed(rows, mains, done + {Document, SearchEntry}))
  {
    hide IsDoomed, RowConsistent, Reference;
    var gone, victims := Doomed(rows, mains, done), Doomed(rows, mains, {Document});
    var cascaded := set k | k in rows && k !in gone && exists v :: v in victims && Refers(k.kind, rows[k], v, Cascade);
    forall k, v | k in rows && k !in gone && v in victims
      ensures !Refers(k.kind, rows[k], v, Restrict)
    {
      DocumentReferrers(rows, mains, done, k, v);
    }
    SearchEntriesFollow(rows, mains, gone, cascaded);
    DeleteStep(rows, gone, victims, cascaded);
    DocumentsAndEntries(rows, mains, done);
  }

  lemma SearchEntriesFollow(rows: Rows, mains: set<nat>, gone: set<Key>, cascaded: set<Key>)
    requires Consistent(rows)
    requires cascaded == set k | k in rows && k !in gone && exists v :: v in Doomed(rows, mains, {Document}) && Refers(k.kind, rows[k], v, Cascade)
    ensures cascaded == Doomed(rows, mains, {SearchEntry}) - gone
  {
    hide IsDoomed, RowConsistent, Reference;
    forall k | k in rows && k !in gone
      ensures k in cascaded <==> k in Doomed(rows, mains, {SearchEntry})
    {
      SearchFollowsDocument(rows, mains, k);
    }
  }

  lemma DocumentsAndEntries(rows: Rows, mains: set<nat>, done: set<Kind>)
    ensures var gone := Doomed(rows, mains, done);
      gone + (Doomed(rows, mains, {Document}) + (Doomed(rows, mains, {SearchEntry}) - gone)) == Doomed(rows, mains, done + {Document, SearchEntry})
  {
    hide IsDoomed;
  }

  lemma DocumentReferrers(rows: Rows, mains: set<nat>, done: set<Kind>, k: Key, v: Key)
    requires Consistent(rows) && Voucher in done
    requires k in rows && k !in Doomed(rows, mains, done)
    requires v in Doomed(rows, mains, {Document})
    ensures !Refers(k.kind, rows[k], v, Restrict)
  {
    hide IsDoomed, RowConsistent;
    if Refers(k.kind, rows[k], v, Restrict) {
      var c :| c in rows[k] && Reference(k.kind, c) == Some(ForeignKey(v.kind, Restrict)) && rows[k][c] == v.id;
      DoomedIsClosed(rows, mains, k, c);
      assert false;
    }
  }

  lemma OnlySearchCascades(kind: Kind, refs: Refs, v: Key)
    requires v.kind == Document
    ensures Refers(kind, refs, v, Cascade) <==> kind == SearchEntry && ToDocument in refs && refs[ToDocument] == v.id
  {
    assert Reference(SearchEntry, ToDocument) == Some(ForeignKey(Document, Cascade));
  }

  lemma SearchFollowsDocument(rows: Rows, mains: set<nat>, k: Key)
    requires Consistent(rows) && k in rows
    ensures k in Doomed(rows, mains, {SearchEntry}) <==>
      exists v :: v in Doomed(rows, mains, {Document}) && Refers(k.kind, rows[k], v, Cascade)
  {
    hide SubIds, OwnedIds, Refers, Reference;
    assert RowConsistent(rows, k);
    forall v | v in Doomed(rows, mains, {Document})
      ensures Refers(k.kind, rows[k], v, Cascade) <==> k.kind == SearchEntry && rows[k][ToDocument] == v.id
    {
      OnlySearchCascades(k.kind, rows[k], v);
    }
    if k.kind == SearchEntry {
      var d := Key(Document, rows[k][ToDocument]);
      OwnedIdsMean(rows, mains, Document, d.id);
      assert d in Doomed(rows, mains, {Document}) <==> d in AllDoomed(rows, mains);
    }
  }

  predicate IsReversal(rows: Rows, k: Key)
    requires k in rows
  {
    k.kind == Payment && Reverses in rows[k]
  }

  /** The reversals among the payments to remove. */
  function Reversals(rows: Rows, mains: set<nat>): set<Key> {
    set k | k in Doomed(rows, mains, {Payment}) && IsReversal(rows, k)
  }

  lemma PaymentReferrers(rows: Rows, k: Key, v: Key, c: Column)
    requires Consistent(rows) && k in rows && c in rows[k] && rows[k][c] == v.id && v.kind == Payment
    requires Reference(k.kind, c) == Some(ForeignKey(Payment, Restrict))
    ensures IsReversal(rows, k) && v in rows && !IsReversal(rows, v)
  {
    assert RowConsistent(rows, k);
  }

  /** First pass: nothing refers to a reversal. */
  lemma ReversalStep(rows: Rows, mains: set<nat>, done: set<Kind>)
    requires Consistent(rows) && Voucher in done
    ensures !Blocked(Without(rows, Doomed(rows, mains, done)), Reversals(rows, mains))
    ensures Deleted(Without(rows, Doomed(rows, mains, done)), Reversals(rows, mains))
      == Without(rows, Doomed(rows, mains, done) + Reversals(rows, mains))
  {
    hide IsDoomed, RowConsistent, Reference;
    var gone, victims := Doomed(rows, mains, done), Reversals(rows, mains);
    forall k, v | k in rows && k !in gone && v in victims
      ensures !Refers(k.kind, rows[k], v, Restrict) && !Refers(k.kind, rows[k], v, Cascade)
    {
      VoucherReferrers(rows, mains, done, k, v);
      if Refers(k.kind, rows[k], v, Restrict) {
        var c :| c in rows[k] && Reference(k.kind, c) == Some(ForeignKey(v.kind, Restrict)) && rows[k][c] == v.id;
        PaymentReferrers(rows, k, v, c);
        assert false;
      }
    }
    DeleteStep(rows, gone, victims, {});
    assert gone + (victims + {}) == gone + Reversals(rows, mains);
  }

  lemma VoucherReferrers(rows: Rows, mains: set<nat>, done: set<Kind>, k: Key, v: Key)
    requires Consistent(rows) && Voucher in done
    requires k in rows && k !in Doomed(rows, mains, done)
    requires v in Doomed(rows, mains, {Payment})
    ensures !Refers(k.kind, rows[k], v, Cascade)
  {
    hide IsDoomed, RowConsistent;
    if Refers(k.kind, rows[k], v, Cascade) {
      var c :| c in rows[k] && Reference(k.kind, c) == Some(ForeignKey(v.kind, Cascade)) && rows[k][c] == v.id;
      DoomedIsClosed(rows, mains, k, c);
      assert false;
    }
  }

  /** Second pass: with the reversals gone, nothing refers to the payments that are left. */
  lemma PaymentStep(rows: Rows, mains: set<nat>, done: set<Kind>)
    requires Consistent(rows) && Voucher in done
    ensures var left := Doomed(rows, mains, {Payment}) - Reversals(rows, mains);
      var now := Without(rows, Doomed(rows, mains, done) + Reversals(rows, mains));
      !Blocked(now, left) && Deleted(now, left) == Without(rows, Doomed(rows, mains, done + {Payment}))
  {
    hide IsDoomed, RowConsistent, Reference;
    var gone, victims := Doomed(rows, mains, done) + Reversals(rows, mains), Doomed(rows, mains, {Payment}) - Reversals(rows, mains);
    forall k, v | k in rows && k !in gone && v in victims
      ensures !Refers(k.kind, rows[k], v, Restrict) && !Refers(k.kind, rows[k], v, Cascade)
    {
      VoucherReferrers(rows, mains, done, k, v);
      if Refers(k.kind, rows[k], v, Restrict) {
        var c :| c in rows[k] && Reference(k.kind, c) == Some(ForeignKey(v.kind, Restrict)) && rows[k][c] == v.id;
        PaymentReferrers(rows, k, v, c);
        ReversesDoomed(rows, mains, k, v, c);
        assert false;
      }
    }
    DeleteStep(rows, gone, victims, {});
    assert gone + (victims + {}) == Doomed(rows, mains, done + {Payment});
  }

  lemma ReversesDoomed(rows: Rows, mains: set<nat>, k: Key, v: Key, c: Column)
    requires Consistent(rows) && k in rows && c in rows[k] && rows[k][c] == v.id && v in Doomed(rows, mains, {Payment})
    requires Reference(k.kind, c) == Some(ForeignKey(Payment, Restrict))
    ensures k in Reversals(rows, mains)
  {
    hide IsDoomed, RowConsistent;
    DoomedIsClosed(rows, mains, k, c);
    PaymentReferrers(rows, k, v, c);
  }

  /** One pass over the payments is blocked exactly when a payment to remove has been reversed. */
  lemma OnePassBlocked(rows: Rows, mains: set<nat>, done: set<Kind>)
    requires Consistent(rows) && Voucher in done && Payment !in done
    ensures Blocked(Without(rows, Doomed(rows, mains, done)), Doomed(rows, mains, {Payment})) <==> Reversals(rows, mains) != {}
  {
    hide IsDoomed, Reference;
    var gone, victims := Doomed(rows, mains, done), Doomed(rows, mains, {Payment});
    var now := Without(rows, gone);
    CascadeStops(now, victims);
    if k :| k in Reversals(rows, mains) {
      assert RowConsistent(rows, k);
      var v := Key(Payment, rows[k][Reverses]);
      ReversalRefers(rows, mains, k);
      ClearedRefers(Payment, rows[k], gone, v, Restrict);
    } else if Blocked(now, victims) {
      var k, v :| k in now && v in victims && Refers(k.kind, now[k], v, Restrict);
      ClearedRefers(k.kind, rows[k], gone, v, Restrict);
      var c :| c in rows[k] && Reference(k.kind, c) == Some(ForeignKey(v.kind, Restrict)) && rows[k][c] == v.id;
      ReversesDoomed(rows, mains, k, v, c);
      assert false;
    }
  }

  lemma ReversalRefers(rows: Rows, mains: set<nat>, k: Key)
    requires Consistent(rows) && k in Reversals(rows, mains)
    ensures var v := Key(Payment, rows[k][Reverses]);
      v in Doomed(rows, mains, {Payment}) && Refers(Payment, rows[k], v, Restrict)
  {
    assert RowConsistent(rows, k);
    assert Reference(Payment, Reverses) == Some(ForeignKey(Payment, Restrict));
  }

  /** The main projects go last; with no sub-project left, their reviews and counters may still be there and cascade. */
  lemma MainStep(rows: Rows, mains: set<nat>, done: set<Kind>)
    requires Consistent(rows) && Sub in done && Main !in done && (Review in done <==> NoCounter in done)
    requires forall k :: k in AllDoomed(rows, mains) ==> k.kind in {Main, Review, NoCounter} || k.kind in done
    requires Review !in done ==> SubIds(rows, mains) == {}
    ensures !Blocked(Without(rows, Doomed(rows, mains, done)), Doomed(rows, mains, {Main}))
    ensures Deleted(Without(rows, Doomed(rows, mains, done)), Doomed(rows, mains, {Main})) == Purged(rows, mains)
  {
    hide IsDoomed, RowConsistent, Refers, SubIds, Reference;
    var gone, victims := Doomed(rows, mains, done), Doomed(rows, mains, {Main});
    var cascaded := set k | k in rows && k !in gone && exists v :: v in victims && Refers(k.kind, rows[k], v, Cascade);
    forall k, v | k in rows && k !in gone && v in victims
      ensures !Refers(k.kind, rows[k], v, Restrict)
      ensures Refers(k.kind, rows[k], v, Cascade) ==> k in AllDoomed(rows, mains)
    {
      MainReferrers(rows, mains, done, k, v);
    }
    forall k | k in Doomed(rows, mains, {Review, NoCounter}) && k !in gone
      ensures k in cascaded
    {
      ReviewCascades(rows, mains, k);
    }
    DeleteStep(rows, gone, victims, cascaded);
    assert gone + (victims + cascaded) == AllDoomed(rows, mains);
  }

  lemma MainReferrers(rows: Rows, mains: set<nat>, done: set<Kind>, k: Key, v: Key)
    requires Consistent(rows) && Sub in done
    requires k in rows && k !in Doomed(rows, mains, done)
    requires v in Doomed(rows, mains, {Main})
    ensures !Refers(k.kind, rows[k], v, Restrict)
    ensures Refers(k.kind, rows[k], v, Cascade) ==> k in AllDoomed(rows, mains)
  {
    hide IsDoomed, RowConsistent;
    if Refers(k.kind, rows[k], v, Cascade) {
      var c :| c in rows[k] && Reference(k.kind, c) == Some(ForeignKey(v.kind, Cascade)) && rows[k][c] == v.id;
      DoomedIsClosed(rows, mains, k, c);
    }
    if Refers(k.kind, rows[k], v, Restrict) {
      MainRestrictsSubs(rows, mains, done, k, v);
    }
  }

  /** Only sub-projects block the delete of a main project, and those are gone. */
  lemma MainRestrictsSubs(rows: Rows, mains: set<nat>, done: set<Kind>, k: Key, v: Key)
    requires Consistent(rows) && Sub in done && v in Doomed(rows, mains, {Main})
    requires k in rows && Refers(k.kind, rows[k], v, Restrict)
    ensures k in Doomed(rows, mains, done)
  {
    hide IsDoomed, RowConsistent;
    var c :| c in rows[k] && Reference(k.kind, c) == Some(ForeignKey(v.kind, Restrict)) && rows[k][c] == v.id;
    DoomedIsClosed(rows, mains, k, c);
  }

  lemma ReviewCascades(rows: Rows, mains: set<nat>, k: Key)
    requires Consistent(rows) && SubIds(rows, mains) == {} && k in Doomed(rows, mains, {Review, NoCounter})
    ensures exists v :: v in Doomed(rows, mains, {Main}) && Refers(k.kind, rows[k], v, Cascade)
  {
    hide SubIds;
    assert RowConsistent(rows, k);
    assert Reference(k.kind, ToMain) == Some(ForeignKey(Main, Cascade));
    var v := Key(Main, rows[k][ToMain]);
    assert v in Doomed(rows, mains, {Main}) && Refers(k.kind, rows[k], v, Cascade);
  }

  // ---------------------------------------------------------------- what is left

  lemma ClearedKeeps(kind: Kind, refs: Refs, gone: set<Key>, c: Column)
    requires c in refs && (Reference(kind, c).Some? ==> Reference(kind, c).value.rule != SetNull)
    ensures c in Cleared(kind, refs, gone) && Cleared(kind, refs, gone)[c] == refs[c]
  {
  }

  /** No row that is left refers to a removed row in any way. */
  lemma PurgedRefersToNoneGone(rows: Rows, mains: set<nat>, k: Key, c: Column)
    requires Consistent(rows) && k in Purged(rows, mains) && c in Purged(rows, mains)[k] && RefersTo(k.kind, c).Some?
    ensures Key(RefersTo(k.kind, c).value, Purged(rows, mains)[k][c]) !in AllDoomed(rows, mains)
  {
    hide IsDoomed, RowConsistent;
    if Key(RefersTo(k.kind, c).value, rows[k][c]) in AllDoomed(rows, mains) && Binding(k.kind, c) {
      DoomedIsClosed(rows, mains, k, c);
    }
  }

  lemma PurgedRow(rows: Rows, mains: set<nat>, k: Key)
    requires k in rows && k !in AllDoomed(rows, mains)
    ensures k in Purged(rows, mains) && forall c :: Binding(k.kind, c) || Reference(k.kind, c).None? ==>
      (c in Purged(rows, mains)[k] <==> c in rows[k]) && (c in rows[k] ==> Purged(rows, mains)[k][c] == rows[k][c])
  {
    hide IsDoomed;
    forall c | (Binding(k.kind, c) || Reference(k.kind, c).None?) && c in rows[k]
      ensures c in Purged(rows, mains)[k] && Purged(rows, mains)[k][c] == rows[k][c]
    {
      ClearedKeeps(k.kind, rows[k], AllDoomed(rows, mains), c);
    }
  }

  lemma PurgedReferences(rows: Rows, mains: set<nat>, k: Key, c: Column)
    requires Consistent(rows) && k in Purged(rows, mains) && c in Purged(rows, mains)[k] && Reference(k.kind, c).Some?
    ensures Key(Reference(k.kind, c).value.target, Purged(rows, mains)[k][c]) in Purged(rows, mains)
  {
    hide IsDoomed;
    PurgedRefersToNoneGone(rows, mains, k, c);
    assert RowConsistent(rows, k);
  }

  lemma PurgedFrom(rows: Rows, mains: set<nat>, k: Key)
    requires k in Purged(rows, mains)
    ensures k in rows && k !in AllDoomed(rows, mains)
  {
  }

  lemma OwnColumnsBind(kind: Kind)
    requires kind in {Task, Document, SearchEntry}
    ensures Binding(kind, ToSub) && Binding(kind, ToPhase) && Binding(Phase, ToSub)
    ensures Reference(kind, ToPhase) == Some(ForeignKey(Phase, Reference(kind, ToPhase).value.rule))
    ensures kind == SearchEntry ==> Binding(kind, ToDocument) && Reference(kind, ToDocument) == Some(ForeignKey(Document, Cascade))
  {
  }

  lemma PurgedOwnPhase(rows: Rows, mains: set<nat>, k: Key)
    requires Consistent(rows) && k in Purged(rows, mains)
    ensures k.kind in {Task, Document, SearchEntry} ==> OwnPhase(Purged(rows, mains), Purged(rows, mains)[k])
  {
    hide IsDoomed, Reference, Purged;
    PurgedFrom(rows, mains, k);
    assert RowConsistent(rows, k);
    if k.kind in {Task, Document, SearchEntry} {
      OwnColumnsBind(k.kind);
      PurgedRow(rows, mains, k);
      PurgedReferences(rows, mains, k, ToPhase);
      PurgedFrom(rows, mains, Key(Phase, rows[k][ToPhase]));
      PurgedRow(rows, mains, Key(Phase, rows[k][ToPhase]));
    }
  }

  lemma PurgedOwnDocument(rows: Rows, mains: set<nat>, k: Key)
    requires Consistent(rows) && k in Purged(rows, mains)
    ensures k.kind == SearchEntry ==> OwnDocument(Purged(rows, mains), Purged(rows, mains)[k])
  {
    hide IsDoomed, Reference, Purged;
    PurgedFrom(rows, mains, k);
    assert RowConsistent(rows, k);
    if k.kind == SearchEntry {
      OwnColumnsBind(SearchEntry);
      OwnColumnsBind(Document);
      PurgedRow(rows, mains, k);
      PurgedReferences(rows, mains, k, ToDocument);
      PurgedFrom(rows, mains, Key(Document, rows[k][ToDocument]));
      PurgedRow(rows, mains, Key(Document, rows[k][ToDocument]));
    }
  }

  lemma PurgedReversal(rows: Rows, mains: set<nat>, k: Key)
    requires Consistent(rows) && k in Purged(rows, mains)
    ensures k.kind == Payment ==> ProperReversal(Purged(rows, mains), Purged(rows, mains)[k])
  {
    hide IsDoomed;
    assert RowConsistent(rows, k);
    if k.kind == Payment {
      PurgedRow(rows, mains, k);
      assert Binding(Payment, ToSub) && Binding(Payment, Reverses);
      if Reverses in rows[k] {
        PurgedReferences(rows, mains, k, Reverses);
        PurgedRow(rows, mains, Key(Payment, rows[k][Reverses]));
      }
    }
  }

  /** Removing projects keeps the store consistent. */
  lemma PurgedConsistent(rows: Rows, mains: set<nat>)
    requires Consistent(rows)
    ensures Consistent(Purged(rows, mains))
  {
    hide Reference, Purged, OwnPhase, OwnDocument, ProperReversal;
    forall k | k in Purged(rows, mains)
      ensures RowConsistent(Purged(rows, mains), k)
    {
      PurgedOwnPhase(rows, mains, k);
      PurgedOwnDocument(rows, mains, k);
      PurgedReversal(rows, mains, k);
      forall c | c in Purged(rows, mains)[k] && Reference(k.kind, c).Some?
        ensures Key(Reference(k.kind, c).value.target, Purged(rows, mains)[k][c]) in Purged(rows, mains)
      {
        PurgedReferences(rows, mains, k, c);
      }
    }
  }
}
