/** The payment tables as one value, the effect of each call on them, and what every run keeps. */
module Ledger {
  import opened Wrappers
  import opened PaymentNumbers

  datatype PaymentType = Normal | Reversal

  datatype Payment = Payment(id: nat, paymentNo: string, subId: nat, amount: int,
                             paymentType: PaymentType, reversesId: Option<nat>)

  datatype SubProject = SubProject(id: nat, mainId: nat, projectNo: string, locked: bool,
                                   budget: int, spent: int, paymentPhase: Option<nat>)

  datatype MainProject = MainProject(id: nat, spent: int)

  datatype VoucherDocument = VoucherDocument(id: nat, subId: nat, phaseId: nat, version: nat, storageKey: nat)

  datatype Voucher = Voucher(paymentId: nat, documentId: nat)

  datatype Books = Books(payments: seq<Payment>, subs: seq<SubProject>, mains: seq<MainProject>,
                         documents: seq<VoucherDocument>, vouchers: seq<Voucher>)

  // ---------------------------------------------------------------- sums and lookups

  /** `sum_payments`: reversals carry negative amounts, so this is a plain sum. */
  function SumPayments(ps: seq<Payment>, subId: nat): int {
    if ps == [] then 0
    else SumPayments(ps[..|ps| - 1], subId) + (if ps[|ps| - 1].subId == subId then ps[|ps| - 1].amount else 0)
  }

  /** `sum_sub_project_spent`. */
  function SumSpent(subs: seq<SubProject>, mainId: nat): int {
    if subs == [] then 0
    else SumSpent(subs[..|subs| - 1], mainId) + (if subs[|subs| - 1].mainId == mainId then subs[|subs| - 1].spent else 0)
  }

  function FindSub(subs: seq<SubProject>, id: nat): (r: Option<nat>)
    ensures r.Some? ==> r.value < |subs| && subs[r.value].id == id
    ensures r.None? ==> forall i :: 0 <= i < |subs| ==> subs[i].id != id
  {
    FirstIndex(subs, (x: SubProject) => x.id == id)
  }

  function FindMain(mains: seq<MainProject>, id: nat): (r: Option<nat>)
    ensures r.Some? ==> r.value < |mains| && mains[r.value].id == id
    ensures r.None? ==> forall i :: 0 <= i < |mains| ==> mains[i].id != id
  {
    FirstIndex(mains, (x: MainProject) => x.id == id)
  }

  function FindPayment(ps: seq<Payment>, id: nat): (r: Option<nat>)
    ensures r.Some? ==> r.value < |ps| && ps[r.value].id == id
    ensures r.None? ==> forall i :: 0 <= i < |ps| ==> ps[i].id != id
  {
    FirstIndex(ps, (x: Payment) => x.id == id)
  }

  predicate IsReversed(ps: seq<Payment>, id: nat) {
    exists i :: 0 <= i < |ps| && ps[i].paymentType == Reversal && ps[i].reversesId == Some(id)
  }

  /** The numbers of one sub-project, in table order. */
  function NumbersOf(ps: seq<Payment>, subId: nat): (numbers: seq<string>)
    ensures forall i :: 0 <= i < |ps| && ps[i].subId == subId ==> ps[i].paymentNo in numbers
    ensures forall number :: number in numbers ==> exists i :: 0 <= i < |ps| && ps[i].subId == subId && ps[i].paymentNo == number
  {
    if ps == [] then []
    else
      var last := ps[|ps| - 1];
      NumbersOf(ps[..|ps| - 1], subId) + (if last.subId == subId then [last.paymentNo] else [])
  }

  function NextNumber(b: Books, sub: SubProject): string {
    PaymentNo(sub.projectNo, MaxSequence(NumbersOf(b.payments, sub.id)) + 1)
  }

  // ---------------------------------------------------------------- effects

  /** Appends a payment and recomputes the two cached totals, in that order. */
  function Post(b: Books, p: Payment, i: nat, j: nat): Books
    requires i < |b.subs| && j < |b.mains|
  {
    var payments := b.payments + [p];
    var subs := b.subs[i := b.subs[i].(spent := SumPayments(payments, b.subs[i].id))];
    var mains := b.mains[j := b.mains[j].(spent := SumSpent(subs, b.mains[j].id))];
    b.(payments := payments, subs := subs, mains := mains)
  }

  function MaxVersion(ds: seq<VoucherDocument>, subId: nat, phaseId: nat): (m: nat)
    ensures forall i :: 0 <= i < |ds| && ds[i].subId == subId && ds[i].phaseId == phaseId ==> ds[i].version <= m
    ensures m > 0 ==> exists i :: 0 <= i < |ds| && ds[i].subId == subId && ds[i].phaseId == phaseId && ds[i].version == m
  {
    if ds == [] then 0
    else
      var before := MaxVersion(ds[..|ds| - 1], subId, phaseId);
      var last := ds[|ds| - 1];
      if last.subId == subId && last.phaseId == phaseId && last.version > before then last.version else before
  }

  /** The documents of one payment: consecutive versions after the highest one, one storage key each. */
  function VoucherDocuments(sub: SubProject, phaseId: nat, version: nat, keys: seq<nat>, ids: seq<nat>): (ds: seq<VoucherDocument>)
    requires |keys| == |ids|
    ensures |ds| == |keys|
    ensures forall k :: 0 <= k < |ds| ==> ds[k] == VoucherDocument(ids[k], sub.id, phaseId, version + 1 + k, keys[k])
  {
    seq(|keys|, k requires 0 <= k < |keys| => VoucherDocument(ids[k], sub.id, phaseId, version + 1 + k, keys[k]))
  }

  function Vouchers(paymentId: nat, ds: seq<VoucherDocument>): (vs: seq<Voucher>)
    ensures |vs| == |ds|
    ensures forall k :: 0 <= k < |ds| ==> vs[k] == Voucher(paymentId, ds[k].id)
  {
    seq(|ds|, k requires 0 <= k < |ds| => Voucher(paymentId, ds[k].id))
  }

  /** Some(true) over budget and confirmed, Some(false) within budget, None when confirmation is missing. */
  function BudgetConfirmation(sub: SubProject, amount: int, confirm: bool, reason: string): Option<bool> {
    if sub.spent + amount <= sub.budget then Some(false)
    else if confirm && reason != "" then Some(true)
    else None
  }

  /** What `create_payment` finds before it writes anything: the positions of the sub-project and
      of its main project, the payment phase, and whether the budget is exceeded. */
  datatype Admission = Admission(sub: nat, main: nat, phase: nat, overBudget: bool)

  function Admit(b: Books, subId: nat, amount: int, confirm: bool, reason: string): (r: Result<Admission>)
    ensures r.Success? ==> r.value.sub < |b.subs| && r.value.main < |b.mains|
    ensures r.Failure? ==> r.error != Fault
  {
    match FindSub(b.subs, subId)
    case None => Failure(NotFound)
    case Some(i) =>
      if b.subs[i].locked then Failure(Business(3003))
      else match FindMain(b.mains, b.subs[i].mainId)
        case None => Failure(NotFound)
        case Some(j) =>
          match b.subs[i].paymentPhase
          case None => Failure(NotFound)
          case Some(phase) =>
            match BudgetConfirmation(b.subs[i], amount, confirm, reason)
            case None => Failure(Business(3001))
            case Some(over) => Success(Admission(i, j, phase, over))
  }

  function Created(b: Books, a: Admission, paymentId: nat, amount: int, keys: seq<nat>, ids: seq<nat>): Books
    requires a.sub < |b.subs| && a.main < |b.mains| && |keys| == |ids|
  {
    var sub := b.subs[a.sub];
    var p := Payment(paymentId, NextNumber(b, sub), sub.id, amount, Normal, None);
    var ds := VoucherDocuments(sub, a.phase, MaxVersion(b.documents, sub.id, a.phase), keys, ids);
    Post(b, p, a.sub, a.main).(documents := b.documents + ds, vouchers := b.vouchers + Vouchers(paymentId, ds))
  }

  datatype Reversible = Reversible(sub: nat, main: nat, original: nat)

  function AdmitReversal(b: Books, subId: nat, paymentId: nat): (r: Result<Reversible>)
    ensures r.Success? ==> r.value.sub < |b.subs| && r.value.main < |b.mains| && r.value.original < |b.payments|
  {
    match FindSub(b.subs, subId)
    case None => Failure(NotFound)
    case Some(i) =>
      match FindMain(b.mains, b.subs[i].mainId)
      case None => Failure(NotFound)
      case Some(j) =>
        match FindPayment(b.payments, paymentId)
        case None => Failure(NotFound)
        case Some(k) =>
          if b.payments[k].subId != b.subs[i].id then Failure(NotFound)
          else if b.payments[k].paymentType == Reversal then Failure(Business(3003))
          else if IsReversed(b.payments, b.payments[k].id) then Failure(Business(3003))
          else Success(Reversible(i, j, k))
  }

  function Reversed(b: Books, a: Reversible, paymentId: nat): Books
    requires a.sub < |b.subs| && a.main < |b.mains| && a.original < |b.payments|
  {
    var sub := b.subs[a.sub];
    var original := b.payments[a.original];
    Post(b, Payment(paymentId, NextNumber(b, sub), sub.id, -original.amount, Reversal, Some(original.id)), a.sub, a.main)
  }

  // ---------------------------------------------------------------- runs

  /** A call that was committed; rejected and failed calls leave the tables alone. The other
      services only open new projects with nothing spent and edit budget, lock and phase. */
  datatype Command =
    | Create(subId: nat, amount: int, confirm: bool, reason: string, paymentId: nat, keys: seq<nat>, ids: seq<nat>)
    | Reverse(subId: nat, reverses: nat, paymentId: nat)
    | OpenMain(mainId: nat)
    | OpenSub(sub: SubProject)
    | EditSub(subId: nat, locked: bool, budget: int, phase: Option<nat>)

  /** Identifiers are drawn by `uuid4`, so a new row never reuses one; sub-project numbers are unique columns. */
  predicate Enabled(b: Books, c: Command) {
    match c
    case Create(subId, amount, confirm, reason, paymentId, keys, ids) =>
      amount > 0 && |keys| == |ids| && FindPayment(b.payments, paymentId).None? && Admit(b, subId, amount, confirm, reason).Success?
    case Reverse(subId, reverses, paymentId) =>
      FindPayment(b.payments, paymentId).None? && AdmitReversal(b, subId, reverses).Success?
    case OpenMain(mainId) => FindMain(b.mains, mainId).None? && forall i :: 0 <= i < |b.subs| ==> b.subs[i].mainId != mainId
    case OpenSub(sub) =>
      && FindSub(b.subs, sub.id).None? && sub.spent == 0
      && (forall i :: 0 <= i < |b.subs| ==> b.subs[i].projectNo != sub.projectNo)
      && (forall i :: 0 <= i < |b.payments| ==> b.payments[i].subId != sub.id)
    case EditSub(subId, locked, budget, phase) => FindSub(b.subs, subId).Some?
  }

  function Apply(b: Books, c: Command): Books
    requires Enabled(b, c)
  {
    match c
    case Create(subId, amount, confirm, reason, paymentId, keys, ids) =>
      Created(b, Admit(b, subId, amount, confirm, reason).value, paymentId, amount, keys, ids)
    case Reverse(subId, reverses, paymentId) => Reversed(b, AdmitReversal(b, subId, reverses).value, paymentId)
    case OpenMain(mainId) => b.(mains := b.mains + [MainProject(mainId, 0)])
    case OpenSub(sub) => b.(subs := b.subs + [sub])
    case EditSub(subId, locked, budget, phase) =>
      var i := FindSub(b.subs, subId).value;
      b.(subs := b.subs[i := b.subs[i].(locked := locked, budget := budget, paymentPhase := phase)])
  }

  /** Runs can start from empty tables. */
  lemma EmptyValid()
    ensures Valid(Books([], [], [], [], []))
  {
  }

  predicate IsRun(b: Books, commands: seq<Command>)
    decreases |commands|
  {
    commands == [] || (Enabled(b, commands[0]) && IsRun(Apply(b, commands[0]), commands[1..]))
  }

  function Final(b: Books, commands: seq<Command>): Books
    requires IsRun(b, commands)
    decreases |commands|
  {
    if commands == [] then b else Final(Apply(b, commands[0]), commands[1..])
  }

  // ---------------------------------------------------------------- the invariant

  /** Every reversal negates an earlier normal payment of its own sub-project that no earlier
      reversal names; identifiers are distinct and normal amounts positive. */
  predicate History(ps: seq<Payment>) {
    if ps == [] then true
    else
      var before, last := ps[..|ps| - 1], ps[|ps| - 1];
      && History(before)
      && FindPayment(before, last.id).None?
      && match last.paymentType
         case Normal => last.reversesId == None && last.amount > 0
         case Reversal =>
           && last.reversesId.Some?
           && var original := FindPayment(before, last.reversesId.value);
              && original.Some?
              && before[original.value].paymentType == Normal
              && before[original.value].subId == last.subId
              && last.amount == -before[original.value].amount
              && !IsReversed(before, last.reversesId.value)
  }

  ghost predicate Numbered(b: Books) {
    forall k, i :: 0 <= k < |b.payments| && 0 <= i < |b.subs| && b.subs[i].id == b.payments[k].subId
      ==> IsNumberOf(b.payments[k].paymentNo, b.subs[i].projectNo)
  }

  predicate Owned(b: Books) {
    forall k :: 0 <= k < |b.payments| ==> FindSub(b.subs, b.payments[k].subId).Some?
  }

  predicate DistinctKeys(b: Books) {
    && (forall i, j :: 0 <= i < j < |b.subs| ==> b.subs[i].id != b.subs[j].id && b.subs[i].projectNo != b.subs[j].projectNo)
    && (forall i, j :: 0 <= i < j < |b.mains| ==> b.mains[i].id != b.mains[j].id)
  }

  predicate DistinctNumbers(ps: seq<Payment>) {
    forall i, j :: 0 <= i < j < |ps| ==> ps[i].paymentNo != ps[j].paymentNo
  }

  predicate CachesExact(b: Books) {
    && (forall i :: 0 <= i < |b.subs| ==> b.subs[i].spent == SumPayments(b.payments, b.subs[i].id))
    && (forall j :: 0 <= j < |b.mains| ==> b.mains[j].spent == SumSpent(b.subs, b.mains[j].id))
  }

  ghost predicate Valid(b: Books) {
    History(b.payments) && Numbered(b) && Owned(b) && DistinctKeys(b) && DistinctNumbers(b.payments) && CachesExact(b)
  }

  // ---------------------------------------------------------------- lemmas on sums

  lemma SumAppend(ps: seq<Payment>, p: Payment, subId: nat)
    ensures SumPayments(ps + [p], subId) == SumPayments(ps, subId) + (if p.subId == subId then p.amount else 0)
  {
    assert (ps + [p])[..|ps|] == ps;
  }

  lemma {:induction false} SumWithout(ps: seq<Payment>, subId: nat)
    requires forall i :: 0 <= i < |ps| ==> ps[i].subId != subId
    ensures SumPayments(ps, subId) == 0
  {
    if ps != [] {
      SumWithout(ps[..|ps| - 1], subId);
    }
  }

  lemma {:induction false} SpentWithout(subs: seq<SubProject>, mainId: nat)
    requires forall i :: 0 <= i < |subs| ==> subs[i].mainId != mainId
    ensures SumSpent(subs, mainId) == 0
  {
    if subs != [] {
      SpentWithout(subs[..|subs| - 1], mainId);
    }
  }

  /** Replacing one sub-project shifts only its own main project's sum, by the difference. */
  lemma {:induction false} SpentUpdate(subs: seq<SubProject>, i: nat, s: SubProject, mainId: nat)
    requires i < |subs| && s.mainId == subs[i].mainId
    ensures SumSpent(subs[i := s], mainId)
         == SumSpent(subs, mainId) + (if s.mainId == mainId then s.spent - subs[i].spent else 0)
    decreases |subs|
  {
    var front := subs[..|subs| - 1];
    if i == |subs| - 1 {
      assert subs[i := s][..|subs| - 1] == front;
    } else {
      assert subs[i := s][..|subs| - 1] == front[i := s];
      SpentUpdate(front, i, s, mainId);
    }
  }

  /** The part of the sum made of normal payments that `all` does not reverse. */
  function SumLive(all: seq<Payment>, ps: seq<Payment>, subId: nat): int {
    if ps == [] then 0
    else
      var last := ps[|ps| - 1];
      SumLive(all, ps[..|ps| - 1], subId)
      + (if last.subId == subId && last.paymentType == Normal && !IsReversed(all, last.id) then last.amount else 0)
  }

  predicate DistinctIds(ps: seq<Payment>) {
    forall i, j :: 0 <= i < j < |ps| ==> ps[i].id != ps[j].id
  }

  lemma {:induction false} HistoryDistinct(ps: seq<Payment>)
    requires History(ps)
    ensures DistinctIds(ps)
    ensures forall i :: 0 <= i < |ps| && ps[i].paymentType == Normal ==> ps[i].amount > 0
  {
    if ps != [] {
      HistoryDistinct(ps[..|ps| - 1]);
    }
  }

  /** `r` is the first reversal of the normal payment `p`. */
  predicate Undone(all: seq<Payment>, r: Payment, p: Payment) {
    r.paymentType == Reversal && r.reversesId == Some(p.id) && p.paymentType == Normal && !IsReversed(all, p.id)
  }

  /** Adding a payment to `all` changes the live sum only when it reverses a live member of `ps`. */
  lemma {:induction false} SumLiveExtend(all: seq<Payment>, r: Payment, ps: seq<Payment>, subId: nat)
    requires DistinctIds(ps)
    ensures r.paymentType == Normal ==> SumLive(all + [r], ps, subId) == SumLive(all, ps, subId)
    ensures (r.paymentType == Reversal && forall i :: 0 <= i < |ps| ==> Some(ps[i].id) != r.reversesId) ==>
              SumLive(all + [r], ps, subId) == SumLive(all, ps, subId)
    ensures forall k :: 0 <= k < |ps| && Undone(all, r, ps[k]) ==>
              SumLive(all + [r], ps, subId) == SumLive(all, ps, subId) - (if ps[k].subId == subId then ps[k].amount else 0)
  {
    if ps != [] {
      var front, last := ps[..|ps| - 1], ps[|ps| - 1];
      SumLiveExtend(all, r, front, subId);
      IsReversedAppend(all, r, last.id);
      forall k | 0 <= k < |ps| && Undone(all, r, ps[k])
        ensures SumLive(all + [r], ps, subId) == SumLive(all, ps, subId) - (if ps[k].subId == subId then ps[k].amount else 0)
      {
        if k < |front| {
          assert front[k] == ps[k];
        }
      }
    }
  }

  lemma IsReversedAppend(ps: seq<Payment>, r: Payment, id: nat)
    ensures IsReversed(ps + [r], id) <==> IsReversed(ps, id) || (r.paymentType == Reversal && r.reversesId == Some(id))
  {
    var all := ps + [r];
    if IsReversed(ps, id) {
      var i :| 0 <= i < |ps| && ps[i].paymentType == Reversal && ps[i].reversesId == Some(id);
      assert all[i] == ps[i];
    }
    if r.paymentType == Reversal && r.reversesId == Some(id) {
      assert all[|ps|] == r;
    }
  }

  lemma {:induction false} ReversalsComeLater(ps: seq<Payment>, id: nat)
    requires History(ps) && FindPayment(ps, id).None?
    ensures !IsReversed(ps, id)
  {
    if ps != [] {
      var front, last := ps[..|ps| - 1], ps[|ps| - 1];
      ReversalsComeLater(front, id);
      IsReversedAppend(front, last, id);
      assert front + [last] == ps;
    }
  }

  /** The ledger law: the sum of a sub-project's rows is the sum of its normal payments that
      have no reversal, and so is never negative. */
  lemma {:induction false} SumIsLive(ps: seq<Payment>, subId: nat)
    requires History(ps)
    ensures SumPayments(ps, subId) == SumLive(ps, ps, subId)
  {
    if ps != [] {
      var front, last := ps[..|ps| - 1], ps[|ps| - 1];
      SumIsLive(front, subId);
      HistoryDistinct(front);
      assert front + [last] == ps;
      SumLiveExtend(front, last, front, subId);
      if last.paymentType == Normal {
        ReversalsComeLater(front, last.id);
        IsReversedAppend(front, last, last.id);
      } else {
        var k := FindPayment(front, last.reversesId.value).value;
        assert Undone(front, last, front[k]);
      }
    }
  }

  lemma {:induction false} SumLiveNonNegative(all: seq<Payment>, ps: seq<Payment>, subId: nat)
    requires forall i :: 0 <= i < |ps| && ps[i].paymentType == Normal ==> ps[i].amount > 0
    ensures SumLive(all, ps, subId) >= 0
  {
    if ps != [] {
      SumLiveNonNegative(all, ps[..|ps| - 1], subId);
    }
  }

  // ---------------------------------------------------------------- what every call keeps

  lemma PostDistinctNumbers(b: Books, i: nat, number: string)
    requires Numbered(b) && Owned(b) && DistinctKeys(b) && i < |b.subs|
    requires number == NextNumber(b, b.subs[i])
    ensures forall k :: 0 <= k < |b.payments| ==> b.payments[k].paymentNo != number
  {
    hide PaymentNo, MaxSequence, IsNumberOf, FindSub, NumbersOf;
    var numbers, projectNo := NumbersOf(b.payments, b.subs[i].id), b.subs[i].projectNo;
    NextIsFresh(numbers, projectNo);
    forall k | 0 <= k < |b.payments|
      ensures b.payments[k].paymentNo != number
    {
      var m := FindSub(b.subs, b.payments[k].subId).value;
      if m != i {
        OtherProjectsDiffer(projectNo, MaxSequence(numbers) + 1, b.payments[k].paymentNo, b.subs[m].projectNo);
      }
    }
  }

  lemma PostNumbered(b: Books, p: Payment, i: nat, j: nat)
    requires Numbered(b) && DistinctKeys(b) && i < |b.subs| && j < |b.mains|
    requires p.subId == b.subs[i].id && p.paymentNo == NextNumber(b, b.subs[i])
    ensures Numbered(Post(b, p, i, j))
  {
    assert IsNumberOf(p.paymentNo, b.subs[i].projectNo);
    hide PaymentNo, MaxSequence, IsNumberOf, SumPayments, SumSpent;
    var after := Post(b, p, i, j);
    forall k, m | 0 <= k < |after.payments| && 0 <= m < |after.subs| && after.subs[m].id == after.payments[k].subId
      ensures IsNumberOf(after.payments[k].paymentNo, after.subs[m].projectNo)
    {
      assert after.subs[m].id == b.subs[m].id && after.subs[m].projectNo == b.subs[m].projectNo;
    }
  }

  lemma SameIdsOwned(b: Books, after: Books)
    requires Owned(b) && |after.subs| >= |b.subs|
    requires forall i :: 0 <= i < |b.subs| ==> after.subs[i].id == b.subs[i].id
    requires after.payments == b.payments
          || (after.payments != [] && after.payments[..|after.payments| - 1] == b.payments
              && FindSub(b.subs, after.payments[|after.payments| - 1].subId).Some?)
    ensures Owned(after)
  {
    hide FindSub;
    forall k | 0 <= k < |after.payments|
      ensures FindSub(after.subs, after.payments[k].subId).Some?
    {
      if k < |b.payments| {
        assert after.payments[k] == b.payments[k];
      }
      var m := FindSub(b.subs, after.payments[k].subId).value;
      assert after.subs[m].id == after.payments[k].subId;
    }
  }

  lemma PostCaches(b: Books, p: Payment, i: nat, j: nat)
    requires CachesExact(b) && DistinctKeys(b) && i < |b.subs| && j < |b.mains|
    requires p.subId == b.subs[i].id && b.mains[j].id == b.subs[i].mainId
    ensures CachesExact(Post(b, p, i, j))
  {
    var after := Post(b, p, i, j);
    forall k | 0 <= k < |b.subs|
      ensures after.subs[k].spent == SumPayments(after.payments, after.subs[k].id)
    {
      SumAppend(b.payments, p, b.subs[k].id);
    }
    forall k | 0 <= k < |b.mains|
      ensures after.mains[k].spent == SumSpent(after.subs, after.mains[k].id)
    {
      SpentUpdate(b.subs, i, after.subs[i], b.mains[k].id);
    }
  }

  lemma PostValid(b: Books, p: Payment, i: nat, j: nat)
    requires Valid(b) && i < |b.subs| && j < |b.mains|
    requires p.subId == b.subs[i].id && b.mains[j].id == b.subs[i].mainId && p.paymentNo == NextNumber(b, b.subs[i])
    requires History(b.payments + [p])
    ensures Valid(Post(b, p, i, j))
  {
    hide History, Numbered, Owned, CachesExact, FindSub, NextNumber, SumPayments, SumSpent;
    PostDistinctNumbers(b, i, p.paymentNo);
    PostNumbered(b, p, i, j);
    PostCaches(b, p, i, j);
    var after := Post(b, p, i, j);
    assert after.payments[..|b.payments|] == b.payments;
    SameIdsOwned(b, after);
  }

  lemma CreatedValid(b: Books, a: Admission, paymentId: nat, amount: int, keys: seq<nat>, ids: seq<nat>)
    requires Valid(b) && a.sub < |b.subs| && a.main < |b.mains| && b.mains[a.main].id == b.subs[a.sub].mainId
    requires amount > 0 && |keys| == |ids| && FindPayment(b.payments, paymentId).None?
    ensures Valid(Created(b, a, paymentId, amount, keys, ids))
  {
    hide Numbered, Owned, CachesExact, FindSub, NextNumber, SumPayments, SumSpent, Post;
    var p := Payment(paymentId, NextNumber(b, b.subs[a.sub]), b.subs[a.sub].id, amount, Normal, None);
    assert (b.payments + [p])[..|b.payments|] == b.payments;
    PostValid(b, p, a.sub, a.main);
    VouchersKeepValid(Post(b, p, a.sub, a.main), Created(b, a, paymentId, amount, keys, ids));
  }

  lemma VouchersKeepValid(b: Books, after: Books)
    requires Valid(b) && after == b.(documents := after.documents, vouchers := after.vouchers)
    ensures Valid(after)
  {
  }

  lemma ReversedValid(b: Books, a: Reversible, paymentId: nat)
    requires Valid(b) && a.sub < |b.subs| && a.main < |b.mains| && a.original < |b.payments|
    requires b.mains[a.main].id == b.subs[a.sub].mainId
    requires FindPayment(b.payments, paymentId).None?
    requires var original := b.payments[a.original];
      FindPayment(b.payments, original.id) == Some(a.original) && original.paymentType == Normal
      && original.subId == b.subs[a.sub].id && !IsReversed(b.payments, original.id)
    ensures Valid(Reversed(b, a, paymentId))
  {
    hide Numbered, Owned, CachesExact, FindSub, NextNumber, SumPayments, SumSpent, Post;
    var original := b.payments[a.original];
    var p := Payment(paymentId, NextNumber(b, b.subs[a.sub]), b.subs[a.sub].id, -original.amount, Reversal, Some(original.id));
    assert (b.payments + [p])[..|b.payments|] == b.payments;
    PostValid(b, p, a.sub, a.main);
  }

  lemma ApplyValid(b: Books, c: Command)
    requires Valid(b) && Enabled(b, c)
    ensures Valid(Apply(b, c))
  {
    hide Valid, Created, Reversed, History;
    match c
    case Create(subId, amount, confirm, reason, paymentId, keys, ids) =>
      CreatedValid(b, Admit(b, subId, amount, confirm, reason).value, paymentId, amount, keys, ids);
    case Reverse(subId, reverses, paymentId) =>
      ReversedValid(b, AdmitReversal(b, subId, reverses).value, paymentId);
    case OpenMain(mainId) =>
      OpenMainValid(b, mainId);
    case OpenSub(sub) =>
      OpenSubValid(b, sub);
    case EditSub(subId, locked, budget, phase) =>
      EditSubValid(b, subId, locked, budget, phase);
  }

  lemma OpenMainValid(b: Books, mainId: nat)
    requires Valid(b) && Enabled(b, OpenMain(mainId))
    ensures Valid(Apply(b, OpenMain(mainId)))
  {
    hide History, FindSub, FindMain, SumPayments, IsNumberOf;
    SpentWithout(b.subs, mainId);
  }

  lemma OpenSubValid(b: Books, sub: SubProject)
    requires Valid(b) && Enabled(b, OpenSub(sub))
    ensures Valid(Apply(b, OpenSub(sub)))
  {
    hide IsNumberOf, FindSub, Owned, History;
    var after := Apply(b, OpenSub(sub));
    assert after.subs[..|b.subs|] == b.subs;
    SameIdsOwned(b, after);
    SumWithout(b.payments, sub.id);
    forall j | 0 <= j < |after.mains|
      ensures after.mains[j].spent == SumSpent(after.subs, after.mains[j].id)
    {
    }
  }

  lemma EditSubValid(b: Books, subId: nat, locked: bool, budget: int, phase: Option<nat>)
    requires Valid(b) && Enabled(b, EditSub(subId, locked, budget, phase))
    ensures Valid(Apply(b, EditSub(subId, locked, budget, phase)))
  {
    hide IsNumberOf, FindSub, Owned, History;
    var after := Apply(b, EditSub(subId, locked, budget, phase));
    SameIdsOwned(b, after);
    var i := FindSub(b.subs, subId).value;
    forall j | 0 <= j < |after.mains|
      ensures after.mains[j].spent == SumSpent(after.subs, after.mains[j].id)
    {
      SpentUpdate(b.subs, i, after.subs[i], b.mains[j].id);
    }
  }

  lemma {:induction false} RunValid(b: Books, commands: seq<Command>)
    requires Valid(b) && IsRun(b, commands)
    ensures Valid(Final(b, commands))
    decreases |commands|
  {
    if commands != [] {
      ApplyValid(b, commands[0]);
      RunValid(Apply(b, commands[0]), commands[1..]);
    }
  }

  lemma {:induction false} SpentNonNegative(subs: seq<SubProject>, mainId: nat)
    requires forall i :: 0 <= i < |subs| ==> subs[i].spent >= 0
    ensures SumSpent(subs, mainId) >= 0
  {
    if subs != [] {
      SpentNonNegative(subs[..|subs| - 1], mainId);
    }
  }

  /** After every run of payments, reversals and project edits, each sub-project's total is the
      sum of its normal payments that have no reversal, each main project's total is the sum over
      its sub-projects, neither is negative, and no two payments share a number. */
  lemma RunTotals(b: Books, commands: seq<Command>)
    requires Valid(b) && IsRun(b, commands)
    ensures
      var after := Final(b, commands);
      && (forall i :: 0 <= i < |after.subs| ==>
            after.subs[i].spent == SumLive(after.payments, after.payments, after.subs[i].id) >= 0)
      && (forall j :: 0 <= j < |after.mains| ==>
            after.mains[j].spent == SumSpent(after.subs, after.mains[j].id) >= 0)
      && DistinctNumbers(after.payments)
  {
    hide Final, IsRun, Numbered, Owned, DistinctKeys, SumPayments, SumLive, SumSpent, History;
    var after := Final(b, commands);
    RunValid(b, commands);
    HistoryDistinct(after.payments);
    forall i | 0 <= i < |after.subs|
      ensures after.subs[i].spent == SumLive(after.payments, after.payments, after.subs[i].id) >= 0
    {
      SumIsLive(after.payments, after.subs[i].id);
      SumLiveNonNegative(after.payments, after.payments, after.subs[i].id);
    }
    forall j | 0 <= j < |after.mains|
      ensures SumSpent(after.subs, after.mains[j].id) >= 0
    {
      SpentNonNegative(after.subs, after.mains[j].id);
    }
  }

  // ---------------------------------------------------------------- what one call books

  /** The totals of one sub-project and of its main project move by an amount, every other row stays. */
  ghost predicate TotalsMove(b: Books, after: Books, subId: nat, amount: int) {
    && |after.subs| == |b.subs| && |after.mains| == |b.mains|
    && (forall i :: 0 <= i < |b.subs| ==>
          after.subs[i] == if b.subs[i].id == subId then b.subs[i].(spent := b.subs[i].spent + amount) else b.subs[i])
    && forall i, j :: 0 <= i < |b.subs| && 0 <= j < |b.mains| && b.subs[i].id == subId ==>
      after.mains[j] == if b.mains[j].id == b.subs[i].mainId then b.mains[j].(spent := b.mains[j].spent + amount) else b.mains[j]
  }

  /** The number's sequence is one more than the highest one that the sub-project's payments have, or the first. */
  ghost predicate NextFree(ps: seq<Payment>, sub: SubProject, number: string) {
    exists n: nat ::
      && n >= 1 && number == PaymentNo(sub.projectNo, n)
      && (forall k :: 0 <= k < |ps| && ps[k].subId == sub.id && SequenceOf(ps[k].paymentNo).Some? ==> SequenceOf(ps[k].paymentNo).value < n)
      && (n == 1 || exists k :: 0 <= k < |ps| && ps[k].subId == sub.id && SequenceOf(ps[k].paymentNo) == Some(n - 1))
  }

  lemma NextNumberIsNextFree(b: Books, sub: SubProject)
    ensures NextFree(b.payments, sub, NextNumber(b, sub))
  {
    hide PaymentNo, SequenceOf, NumbersOf, MaxSequence;
    var numbers := NumbersOf(b.payments, sub.id);
    var n := MaxSequence(numbers) + 1;
    assert NextNumber(b, sub) == PaymentNo(sub.projectNo, n);
    if n > 1 {
      var i :| 0 <= i < |numbers| && SequenceOf(numbers[i]) == Some(n - 1);
      assert numbers[i] in numbers;
    }
  }

  lemma PostMoves(b: Books, p: Payment, i: nat, j: nat)
    requires Valid(b) && i < |b.subs| && j < |b.mains| && p.subId == b.subs[i].id && b.mains[j].id == b.subs[i].mainId
    ensures TotalsMove(b, Post(b, p, i, j), p.subId, p.amount)
  {
    hide History, Numbered, Owned, DistinctNumbers, SumPayments, SumSpent;
    PostedSpent(b, p, i, j);
    var after := Post(b, p, i, j);
    SpentUpdate(b.subs, i, after.subs[i], b.mains[j].id);
  }

  /** The documents of one call: consecutive versions after the highest of the sub-project's phase. */
  ghost predicate NextVersions(ds: seq<VoucherDocument>, added: seq<VoucherDocument>, subId: nat, phaseId: nat) {
    exists v: nat :: IsHighest(ds, subId, phaseId, v)
      && forall k :: 0 <= k < |added| ==> added[k].subId == subId && added[k].phaseId == phaseId && added[k].version == v + 1 + k
  }

  predicate IsHighest(ds: seq<VoucherDocument>, subId: nat, phaseId: nat, v: nat) {
    && (forall i :: 0 <= i < |ds| && ds[i].subId == subId && ds[i].phaseId == phaseId ==> ds[i].version <= v)
    && (v == 0 || exists i :: 0 <= i < |ds| && ds[i].subId == subId && ds[i].phaseId == phaseId && ds[i].version == v)
  }

  /** One normal payment of the amount was booked, with `n` documents, and the two totals moved by the amount. */
  ghost predicate BooksPayment(b: Books, after: Books, subId: nat, id: nat, amount: int, n: nat) {
    && |after.payments| == |b.payments| + 1 && after.payments[..|b.payments|] == b.payments
    && (var p := after.payments[|b.payments|];
        && p.id == id && p.subId == subId && p.amount == amount && p.paymentType == Normal && p.reversesId == None
        && |after.documents| == |b.documents| + n && after.documents[..|b.documents|] == b.documents
        && exists i :: 0 <= i < |b.subs| && b.subs[i].id == subId && b.subs[i].paymentPhase.Some?
                       && NextFree(b.payments, b.subs[i], p.paymentNo)
                       && NextVersions(b.documents, after.documents[|b.documents|..], subId, b.subs[i].paymentPhase.value))
    && |after.vouchers| == |b.vouchers| + n && after.vouchers[..|b.vouchers|] == b.vouchers
    && (forall k :: |b.vouchers| <= k < |after.vouchers| ==>
          after.vouchers[k] == Voucher(id, after.documents[k - |b.vouchers| + |b.documents|].id))
    && (Valid(b) ==> TotalsMove(b, after, subId, amount))
  }

  lemma CreatedMeans(b: Books, a: Admission, paymentId: nat, amount: int, keys: seq<nat>, ids: seq<nat>)
    requires a.sub < |b.subs| && a.main < |b.mains| && |keys| == |ids|
    requires b.mains[a.main].id == b.subs[a.sub].mainId && b.subs[a.sub].paymentPhase == Some(a.phase)
    ensures var after := Created(b, a, paymentId, amount, keys, ids);
      && BooksPayment(b, after, b.subs[a.sub].id, paymentId, amount, |keys|) && |after.documents| == |b.documents| + |keys|
      && forall k :: |b.documents| <= k < |after.documents| ==> after.documents[k].storageKey == keys[k - |b.documents|]
  {
    hide Valid, TotalsMove, NextFree, MaxVersion, SumPayments, SumSpent, NextNumber;
    var sub := b.subs[a.sub];
    var p := Payment(paymentId, NextNumber(b, sub), sub.id, amount, Normal, None);
    NextNumberIsNextFree(b, sub);
    if Valid(b) {
      PostMoves(b, p, a.sub, a.main);
      SameTotals(b, Post(b, p, a.sub, a.main), Created(b, a, paymentId, amount, keys, ids), sub.id, amount);
    }
    var ds := VoucherDocuments(sub, a.phase, MaxVersion(b.documents, sub.id, a.phase), keys, ids);
    assert IsHighest(b.documents, sub.id, a.phase, MaxVersion(b.documents, sub.id, a.phase));
    assert Created(b, a, paymentId, amount, keys, ids).documents[|b.documents|..] == ds;
  }

  lemma SameTotals(b: Books, posted: Books, after: Books, subId: nat, amount: int)
    requires TotalsMove(b, posted, subId, amount) && after.subs == posted.subs && after.mains == posted.mains
    ensures TotalsMove(b, after, subId, amount)
  {
  }

  /** One payment of the negated amount of a payment was booked, and the two totals moved by that; the
      documents and vouchers stay. */
  ghost predicate BooksReversal(b: Books, after: Books, subId: nat, id: nat, reverses: nat) {
    && |after.payments| == |b.payments| + 1 && after.payments[..|b.payments|] == b.payments
    && (var p := after.payments[|b.payments|];
        && p.id == id && p.subId == subId && p.paymentType == Reversal && p.reversesId == Some(reverses)
        && (exists k :: 0 <= k < |b.payments| && b.payments[k].id == reverses && p.amount == -b.payments[k].amount)
        && (exists i :: 0 <= i < |b.subs| && b.subs[i].id == subId && NextFree(b.payments, b.subs[i], p.paymentNo))
        && (Valid(b) ==> TotalsMove(b, after, subId, p.amount)))
    && after.documents == b.documents && after.vouchers == b.vouchers
  }

  lemma ReversedMeans(b: Books, a: Reversible, paymentId: nat)
    requires a.sub < |b.subs| && a.main < |b.mains| && a.original < |b.payments| && b.mains[a.main].id == b.subs[a.sub].mainId
    ensures BooksReversal(b, Reversed(b, a, paymentId), b.subs[a.sub].id, paymentId, b.payments[a.original].id)
  {
    hide Valid, TotalsMove, NextFree, SumPayments, SumSpent, NextNumber;
    var sub, original := b.subs[a.sub], b.payments[a.original];
    NextNumberIsNextFree(b, sub);
    if Valid(b) {
      PostMoves(b, Payment(paymentId, NextNumber(b, sub), sub.id, -original.amount, Reversal, Some(original.id)), a.sub, a.main);
    }
  }

  /** Open, with a payment phase, and within the budget or confirmed with a reason. */
  predicate MayPay(sub: SubProject, amount: int, confirm: bool, reason: string) {
    !sub.locked && sub.paymentPhase.Some? && (sub.spent + amount <= sub.budget || (confirm && reason != ""))
  }

  /** The sub-project is there with its main project, and may pay. */
  ghost predicate Payable(b: Books, subId: nat, amount: int, confirm: bool, reason: string) {
    exists i, j :: 0 <= i < |b.subs| && 0 <= j < |b.mains| && b.subs[i].id == subId && b.mains[j].id == b.subs[i].mainId
                   && MayPay(b.subs[i], amount, confirm, reason)
  }

  lemma AdmitMeans(b: Books, subId: nat, amount: int, confirm: bool, reason: string)
    requires DistinctKeys(b)
    ensures Admit(b, subId, amount, confirm, reason).Success? <==> Payable(b, subId, amount, confirm, reason)
  {
    var r := Admit(b, subId, amount, confirm, reason);
    if i, j :| 0 <= i < |b.subs| && 0 <= j < |b.mains| && b.subs[i].id == subId && b.mains[j].id == b.subs[i].mainId
               && MayPay(b.subs[i], amount, confirm, reason) {
      assert FindSub(b.subs, subId) == Some(i);
      assert FindMain(b.mains, b.subs[i].mainId) == Some(j);
    }
    if r.Success? {
      var i, j := r.value.sub, r.value.main;
      assert b.subs[i].id == subId && b.mains[j].id == b.subs[i].mainId;
    }
  }

  lemma AdmittedRows(b: Books, subId: nat, amount: int, confirm: bool, reason: string)
    requires Admit(b, subId, amount, confirm, reason).Success?
    ensures var a := Admit(b, subId, amount, confirm, reason).value;
      b.subs[a.sub].id == subId && b.mains[a.main].id == b.subs[a.sub].mainId && b.subs[a.sub].paymentPhase == Some(a.phase)
  {
  }

  /** A normal payment of the sub-project that no reversal names. */
  ghost predicate CanReverse(b: Books, subId: nat, reverses: nat) {
    && (exists i, j :: 0 <= i < |b.subs| && 0 <= j < |b.mains| && b.subs[i].id == subId && b.mains[j].id == b.subs[i].mainId)
    && (exists k :: 0 <= k < |b.payments| && b.payments[k].id == reverses && b.payments[k].subId == subId && b.payments[k].paymentType == Normal)
    && !exists k :: 0 <= k < |b.payments| && b.payments[k].paymentType == Reversal && b.payments[k].reversesId == Some(reverses)
  }

  lemma AdmitReversalMeans(b: Books, subId: nat, reverses: nat)
    requires DistinctKeys(b) && DistinctIds(b.payments)
    ensures AdmitReversal(b, subId, reverses).Success? <==> CanReverse(b, subId, reverses)
  {
    var r := AdmitReversal(b, subId, reverses);
    if i, j :| 0 <= i < |b.subs| && 0 <= j < |b.mains| && b.subs[i].id == subId && b.mains[j].id == b.subs[i].mainId {
      assert FindSub(b.subs, subId) == Some(i);
      assert FindMain(b.mains, b.subs[i].mainId) == Some(j);
    }
    if k :| 0 <= k < |b.payments| && b.payments[k].id == reverses && b.payments[k].subId == subId && b.payments[k].paymentType == Normal {
      assert FindPayment(b.payments, reverses) == Some(k);
    }
    if r.Success? {
      var i, j := r.value.sub, r.value.main;
      assert b.subs[i].id == subId && b.mains[j].id == b.subs[i].mainId;
      assert b.payments[r.value.original].id == reverses;
    }
  }

  lemma ReversibleRows(b: Books, subId: nat, reverses: nat)
    requires AdmitReversal(b, subId, reverses).Success?
    ensures var a := AdmitReversal(b, subId, reverses).value;
      b.subs[a.sub].id == subId && b.mains[a.main].id == b.subs[a.sub].mainId && b.payments[a.original].id == reverses
  {
  }

  // ---------------------------------------------------------------- budgets

  predicate WithinBudget(b: Books) {
    forall i :: 0 <= i < |b.subs| ==> b.subs[i].spent <= b.subs[i].budget
  }

  /** No payment over budget was confirmed, and no budget was cut or opened below what is spent. */
  predicate BudgetRespected(b: Books, c: Command)
    requires Enabled(b, c)
  {
    match c
    case Create(subId, amount, confirm, reason, _, _, _) => !Admit(b, subId, amount, confirm, reason).value.overBudget
    case EditSub(subId, _, budget, _) => b.subs[FindSub(b.subs, subId).value].budget <= budget
    case OpenSub(sub) => 0 <= sub.budget
    case _ => true
  }

  predicate BudgetsRespected(b: Books, commands: seq<Command>)
    requires IsRun(b, commands)
    decreases |commands|
  {
    commands == [] || (BudgetRespected(b, commands[0]) && BudgetsRespected(Apply(b, commands[0]), commands[1..]))
  }

  /** The checked running total is the one that is stored. */
  lemma PostedSpent(b: Books, p: Payment, i: nat, j: nat)
    requires CachesExact(b) && i < |b.subs| && j < |b.mains| && p.subId == b.subs[i].id
    ensures Post(b, p, i, j).subs == b.subs[i := b.subs[i].(spent := b.subs[i].spent + p.amount)]
  {
    hide SumPayments, SumSpent;
    SumAppend(b.payments, p, b.subs[i].id);
  }

  lemma StepWithinBudget(b: Books, c: Command)
    requires Valid(b) && WithinBudget(b) && Enabled(b, c) && BudgetRespected(b, c)
    ensures WithinBudget(Apply(b, c))
  {
    hide Post, Numbered, Owned, FindSub, FindMain, FindPayment, NextNumber, DistinctNumbers, DistinctKeys;
    match c
    case Create(subId, amount, confirm, reason, paymentId, keys, ids) =>
      var a := Admit(b, subId, amount, confirm, reason).value;
      PostedSpent(b, Payment(paymentId, NextNumber(b, b.subs[a.sub]), b.subs[a.sub].id, amount, Normal, None), a.sub, a.main);
    case Reverse(subId, reverses, paymentId) =>
      var a := AdmitReversal(b, subId, reverses).value;
      var original := b.payments[a.original];
      HistoryDistinct(b.payments);
      PostedSpent(b, Payment(paymentId, NextNumber(b, b.subs[a.sub]), b.subs[a.sub].id, -original.amount, Reversal, Some(original.id)), a.sub, a.main);
    case _ =>
  }

  /** Without a confirmed over-budget payment, spending stays within every budget. */
  lemma {:induction false} RunWithinBudget(b: Books, commands: seq<Command>)
    requires Valid(b) && WithinBudget(b) && IsRun(b, commands) && BudgetsRespected(b, commands)
    ensures WithinBudget(Final(b, commands))
    decreases |commands|
  {
    if commands != [] {
      ApplyValid(b, commands[0]);
      StepWithinBudget(b, commands[0]);
      RunWithinBudget(Apply(b, commands[0]), commands[1..]);
    }
  }
}
