/** The payment service over its tables and the voucher file store. A call is one transaction:
    when it fails the session rolls back, and the files it saved are deleted again. */
module PaymentServices {
  import opened Wrappers
  import opened Text
  import opened Money
  import opened PaymentNumbers
  import opened Ledger

  /** `accepted` is the file validator's verdict. */
  datatype Upload = Upload(fileName: string, size: nat, accepted: bool)

  predicate UploadProblem(u: Upload, maxSize: nat) {
    Strip(u.fileName) == "" || u.size > maxSize || !u.accepted
  }

  /** There are uploads, and every one has a name, fits, and is accepted. */
  predicate UploadsFit(uploads: seq<Upload>, maxSize: nat) {
    uploads != [] && forall k :: 0 <= k < |uploads| ==> Strip(uploads[k].fileName) != "" && uploads[k].size <= maxSize && uploads[k].accepted
  }

  /** The checks made before the transaction starts, then those made on the locked rows. */
  function Gate(b: Books, allowed: bool, maxSize: nat, subId: nat, amount: real, uploads: seq<Upload>,
                confirm: bool, reason: string): (r: Result<Admission>)
    ensures r.Success? ==> r.value.sub < |b.subs| && r.value.main < |b.mains|
    ensures r.Failure? ==> r.error != Fault
  {
    if !allowed then Failure(PermissionDenied)
    else if ToMoney(amount) <= 0 then Failure(ValidationFailed)
    else if uploads == [] || exists k :: 0 <= k < |uploads| && UploadProblem(uploads[k], maxSize) then Failure(ValidationFailed)
    else Admit(b, subId, ToMoney(amount), confirm, Strip(reason))
  }

  /** Identifiers are drawn in order: the payment's, then a storage key and a document id for each upload. */
  function KeysFrom(first: nat, n: nat): (keys: seq<nat>)
    ensures |keys| == n && forall k :: 0 <= k < n ==> keys[k] == first + 1 + 2 * k
  {
    seq(n, k requires 0 <= k < n => first + 1 + 2 * k)
  }

  function IdsFrom(first: nat, n: nat): (ids: seq<nat>)
    ensures |ids| == n && forall k :: 0 <= k < n ==> ids[k] == first + 2 + 2 * k
  {
    seq(n, k requires 0 <= k < n => first + 2 + 2 * k)
  }

  function KeySet(keys: seq<nat>): set<nat> {
    set key | key in keys
  }

  /** A place in one call where an outside step may raise: the save of the k-th upload, or the k-th
      flush of the session, the last of which is the commit. */
  datatype Point = Saving(k: nat) | Flushing(k: nat)

  predicate FlushesPass(faults: set<Point>) {
    Flushing(0) !in faults && Flushing(1) !in faults && Flushing(2) !in faults
  }

  predicate SavesPass(faults: set<Point>, n: nat) {
    forall k :: 0 <= k < n ==> Saving(k) !in faults
  }

  /** How many saves come before the first one that raises. */
  function SavedCount(faults: set<Point>, n: nat): (k: nat)
    ensures k <= n && SavesPass(faults, k)
    ensures k < n ==> Saving(k) in faults
  {
    if n == 0 then 0
    else
      var k := SavedCount(faults, n - 1);
      if k == n - 1 && Saving(n - 1) !in faults then n else k
  }

  class PaymentService {
    var payments: seq<Payment>
    var subs: seq<SubProject>
    var mains: seq<MainProject>
    var documents: seq<VoucherDocument>
    var vouchers: seq<Voucher>
    var files: set<nat>
    var nextId: nat
    const maxFileSize: nat
    /** The storage keys whose delete raises. */
    const undeletable: set<nat>

    constructor (maxFileSize: nat, undeletable: set<nat>)
      ensures Tables() == Books([], [], [], [], []) && files == {} && Consistent()
      ensures this.maxFileSize == maxFileSize && this.undeletable == undeletable
    {
      payments, subs, mains, documents, vouchers, files := [], [], [], [], [], {};
      nextId := 0;
      this.maxFileSize, this.undeletable := maxFileSize, undeletable;
    }

    ghost function Tables(): Books
      reads this
    {
      Books(payments, subs, mains, documents, vouchers)
    }

    /** `uuid4` never repeats: every identifier in use was drawn before. */
    ghost predicate Consistent()
      reads this
    {
      && (forall k :: 0 <= k < |payments| ==> payments[k].id < nextId)
      && (forall key :: key in files ==> key < nextId)
    }

    method Uuid4() returns (id: nat)
      modifies this`nextId
      ensures id == old(nextId) && nextId == id + 1
    {
      id := nextId;
      nextId := nextId + 1;
    }

    /** `storage.save`: either stores the content under a new key, or raises. */
    method SaveContent(raises: bool) returns (key: nat, ok: bool)
      modifies this`files, this`nextId
      ensures key == old(nextId) && nextId == key + 1
      ensures ok == !raises && files == if ok then old(files) + {key} else old(files)
    {
      key := Uuid4();
      ok := !raises;
      if ok {
        files := files + {key};
      }
    }

    method DeleteContent(key: nat) returns (ok: bool)
      modifies this`files
      ensures ok <==> key !in undeletable
      ensures files == if ok then old(files) - {key} else old(files)
    {
      ok := key !in undeletable;
      if ok {
        files := files - {key};
      }
    }

    /** `_delete_saved_contents`: goes on after a delete that raises. */
    method DeleteSavedContents(keys: seq<nat>)
      modifies this`files
      ensures files == old(files) - (KeySet(keys) - undeletable)
    {
      for i := 0 to |keys|
        invariant files == old(files) - (KeySet(keys[..i]) - undeletable)
      {
        assert KeySet(keys[..i + 1]) == KeySet(keys[..i]) + {keys[i]};
        var ok := DeleteContent(keys[i]);
      }
      assert keys[..|keys|] == keys;
    }

    /** `_create_voucher_documents`: one saved file and one document per upload, with consecutive
        versions after the highest of the group; stops at the first save that raises. */
    method CreateVoucherDocuments(sub: SubProject, phaseId: nat, uploads: seq<Upload>, faults: set<Point>)
      returns (created: seq<VoucherDocument>, savedKeys: seq<nat>, ok: bool)
      requires Consistent() && nextId > 0
      modifies this`files, this`nextId
      ensures Consistent() && nextId >= old(nextId)
      ensures ok <==> SavesPass(faults, |uploads|)
      ensures files == old(files) + KeySet(savedKeys) && KeySet(savedKeys) !! old(files)
      ensures savedKeys == KeysFrom(old(nextId) - 1, SavedCount(faults, |uploads|))
      ensures ok ==> created == VoucherDocuments(sub, phaseId, MaxVersion(documents, sub.id, phaseId), savedKeys,
                                                 IdsFrom(old(nextId) - 1, |uploads|))
    {
      created, savedKeys, ok := [], [], true;
      var latestVersion := MaxVersion(documents, sub.id, phaseId);
      for i := 0 to |uploads|
        invariant Consistent() && ok && nextId == old(nextId) + 2 * i && SavesPass(faults, i)
        invariant files == old(files) + KeySet(savedKeys) && KeySet(savedKeys) !! old(files)
        invariant latestVersion == MaxVersion(documents, sub.id, phaseId) + i
        invariant savedKeys == KeysFrom(old(nextId) - 1, i)
        invariant created == VoucherDocuments(sub, phaseId, MaxVersion(documents, sub.id, phaseId), savedKeys, IdsFrom(old(nextId) - 1, i))
      {
        latestVersion := latestVersion + 1;
        var key, saved := SaveContent(Saving(i) in faults);
        if !saved {
          StopsAt(faults, |uploads|, i);
          ok := false;
          return;
        }
        assert KeySet(savedKeys + [key]) == KeySet(savedKeys) + {key};
        savedKeys := savedKeys + [key];
        var id := Uuid4();
        created := created + [VoucherDocument(id, sub.id, phaseId, latestVersion, key)];
      }
    }

    lemma StopsAt(faults: set<Point>, n: nat, k: nat)
      requires k <= n && SavesPass(faults, k) && (k < n ==> Saving(k) in faults)
      ensures SavedCount(faults, n) == k
    {
    }

    method Rollback(before: Books)
      modifies this`payments, this`subs, this`mains, this`documents, this`vouchers
      ensures Tables() == before
    {
      payments, subs, mains := before.payments, before.subs, before.mains;
      documents, vouchers := before.documents, before.vouchers;
    }

    /** `create_payment`, with `faults` the outside steps that raise. It succeeds exactly when the checks
        pass and no step raises; then the tables move by exactly one Create step of the ledger. On
        failure, whichever step failed, no row changes and the file store is as before, except for
        saved files whose delete raised too. */
    method CreatePayment(allowed: bool, subId: nat, amount: real, uploads: seq<Upload>, confirm: bool, reason: string, faults: set<Point>)
      returns (r: Result<nat>)
      requires Consistent()
      modifies this
      ensures Consistent()
      ensures var gate := Gate(old(Tables()), allowed, maxFileSize, subId, amount, uploads, confirm, reason);
        && (gate.Failure? ==> r == Failure(gate.error) && files == old(files))
        && (gate.Success? ==> (r.Success? <==> SavesPass(faults, |uploads|) && FlushesPass(faults)))
        && (gate.Success? && r.Failure? ==> r.error == Fault)
      ensures r.Failure? ==> Tables() == old(Tables())
      ensures r == Failure(Fault) ==>
        files == old(files) + KeySet(KeysFrom(old(nextId), SavedCount(faults, |uploads|))) * undeletable
      ensures r.Failure? && undeletable == {} ==> files == old(files)
      ensures r.Success? ==>
        var create := Create(subId, ToMoney(amount), confirm, Strip(reason), r.value,
                             KeysFrom(r.value, |uploads|), IdsFrom(r.value, |uploads|));
        && Enabled(old(Tables()), create)
        && Tables() == Apply(old(Tables()), create)
        && files == old(files) + KeySet(KeysFrom(r.value, |uploads|))
      ensures Valid(old(Tables())) ==>
        (r.Success? <==> allowed && ToMoney(amount) > 0 && UploadsFit(uploads, maxFileSize) && SavesPass(faults, |uploads|) && FlushesPass(faults)
                         && Payable(old(Tables()), subId, ToMoney(amount), confirm, Strip(reason)))
      ensures r.Success? ==> BooksPayment(old(Tables()), Tables(), subId, r.value, ToMoney(amount), |uploads|)
      ensures r.Success? ==>
        forall k :: |old(documents)| <= k < |documents| ==> documents[k].storageKey in files && documents[k].storageKey !in old(files)
    {
      var before := Books(payments, subs, mains, documents, vouchers);
      GateMeans(before, allowed, maxFileSize, subId, amount, uploads, confirm, reason);
      hide Gate, Admit, Created, Payable, UploadsFit, BooksPayment, Valid, FlushesPass, SavesPass, ToMoney, Strip, FindPayment;
      var gate := Gate(before, allowed, maxFileSize, subId, amount, uploads, confirm, reason);
      if gate.Failure? {
        return Failure(gate.error);
      }
      r := CreateAdmitted(gate.value, ToMoney(amount), uploads, faults);
      if r.Success? {
        CreatedMeans(before, gate.value, r.value, ToMoney(amount), KeysFrom(r.value, |uploads|), IdsFrom(r.value, |uploads|));
        NewKeys(before.documents, documents, r.value, |uploads|);
      }
    }

    lemma NewKeys(before: seq<VoucherDocument>, after: seq<VoucherDocument>, first: nat, n: nat)
      requires |after| == |before| + n
      requires forall k :: |before| <= k < |after| ==> after[k].storageKey == KeysFrom(first, n)[k - |before|]
      ensures forall k :: |before| <= k < |after| ==> after[k].storageKey in KeySet(KeysFrom(first, n)) && after[k].storageKey > first
    {
    }

    lemma GateMeans(b: Books, allowed: bool, maxSize: nat, subId: nat, amount: real, uploads: seq<Upload>, confirm: bool, reason: string)
      ensures var gate := Gate(b, allowed, maxSize, subId, amount, uploads, confirm, reason);
        && (Valid(b) ==> (gate.Success? <==> allowed && ToMoney(amount) > 0 && UploadsFit(uploads, maxSize)
                                             && Payable(b, subId, ToMoney(amount), confirm, Strip(reason))))
        && (gate.Success? ==>
              var a := gate.value;
              && b.subs[a.sub].id == subId && b.mains[a.main].id == b.subs[a.sub].mainId && b.subs[a.sub].paymentPhase == Some(a.phase)
              && Admit(b, subId, ToMoney(amount), confirm, Strip(reason)) == gate && ToMoney(amount) > 0)
    {
      hide Admit, Strip, ToMoney, Payable, History, Numbered, Owned, CachesExact, DistinctNumbers;
      var gate := Gate(b, allowed, maxSize, subId, amount, uploads, confirm, reason);
      if gate.Success? {
        AdmittedRows(b, subId, ToMoney(amount), confirm, Strip(reason));
      }
      if Valid(b) {
        AdmitMeans(b, subId, ToMoney(amount), confirm, Strip(reason));
      }
    }

    /** The transaction of `create_payment`, once the checks have passed. */
    method CreateAdmitted(a: Admission, cents: int, uploads: seq<Upload>, faults: set<Point>) returns (r: Result<nat>)
      requires Consistent() && a.sub < |subs| && a.main < |mains|
      modifies this
      ensures Consistent()
      ensures r.Success? <==> SavesPass(faults, |uploads|) && FlushesPass(faults)
      ensures r.Failure? ==>
        && r.error == Fault && Tables() == old(Tables())
        && files == old(files) + KeySet(KeysFrom(old(nextId), SavedCount(faults, |uploads|))) * undeletable
      ensures r.Success? ==>
        && r.value == old(nextId) && FindPayment(old(payments), r.value).None?
        && Tables() == Created(old(Tables()), a, r.value, cents, KeysFrom(r.value, |uploads|), IdsFrom(r.value, |uploads|))
        && files == old(files) + KeySet(KeysFrom(r.value, |uploads|))
    {
      hide PaymentNo, MaxSequence, NumbersOf, SumPayments, SumSpent, MaxVersion, FindPayment, VoucherDocuments, Vouchers;
      var before := Books(payments, subs, mains, documents, vouchers);
      var sub := subs[a.sub];
      var numbers := NumbersOf(payments, sub.id);
      var sequence := NextSequenceFromPaymentNumbers(numbers);
      var paymentId := Uuid4();
      var payment := Payment(paymentId, PaymentNo(sub.projectNo, sequence), sub.id, cents, Normal, None);
      var created, savedKeys, committed := CreateVoucherDocuments(sub, a.phase, uploads, faults);
      if committed {
        committed := Record(payment, created, a.sub, a.main, faults);
      }
      if !committed {
        Rollback(before);
        DeleteSavedContents(savedKeys);
        return Failure(Fault);
      }
      r := Success(paymentId);
    }

    /** The writes of one call up to its commit, any flush of which may raise. */
    method Record(payment: Payment, created: seq<VoucherDocument>, i: nat, j: nat, faults: set<Point>) returns (committed: bool)
      requires i < |subs| && j < |mains| && payment.subId == subs[i].id
      modifies this`payments, this`subs, this`mains, this`documents, this`vouchers
      ensures committed <==> FlushesPass(faults)
      ensures committed ==>
        Tables() == Post(old(Tables()), payment, i, j).(documents := old(documents) + created,
                                                        vouchers := old(vouchers) + Vouchers(payment.id, created))
    {
      payments := payments + [payment];
      for k := 0 to |created|
        invariant payments == old(payments) + [payment] && subs == old(subs) && mains == old(mains)
        invariant documents == old(documents) + created[..k]
        invariant vouchers == old(vouchers) + Vouchers(payment.id, created[..k])
      {
        documents := documents + [created[k]];
        vouchers := vouchers + [Voucher(payment.id, created[k].id)];
        assert created[..k + 1] == created[..k] + [created[k]];
      }
      assert created[..|created|] == created;
      committed := Flushing(0) !in faults;
      if !committed { return; }
      subs := subs[i := subs[i].(spent := SumPayments(payments, subs[i].id))];
      committed := Flushing(1) !in faults;
      if !committed { return; }
      mains := mains[j := mains[j].(spent := SumSpent(subs, mains[j].id))];
      committed := Flushing(2) !in faults;
    }

    /** `reverse_payment`. */
    method ReversePayment(allowed: bool, subId: nat, reverses: nat, remark: string, faults: set<Point>) returns (r: Result<nat>)
      requires Consistent()
      modifies this
      ensures Consistent() && files == old(files)
      ensures var gate := AdmitReversal(old(Tables()), subId, reverses);
        && (!allowed ==> r == Failure(PermissionDenied))
        && (allowed && Strip(remark) == "" ==> r == Failure(ValidationFailed))
        && (allowed && Strip(remark) != "" && gate.Failure? ==> r == Failure(gate.error))
        && (allowed && Strip(remark) != "" && gate.Success? ==> (r.Success? <==> FlushesPass(faults)))
        && (allowed && Strip(remark) != "" && gate.Success? && r.Failure? ==> r.error == Fault)
      ensures r.Failure? ==> Tables() == old(Tables())
      ensures r.Success? ==>
        && Enabled(old(Tables()), Reverse(subId, reverses, r.value))
        && Tables() == Apply(old(Tables()), Reverse(subId, reverses, r.value))
      ensures Valid(old(Tables())) ==>
        (r.Success? <==> allowed && Strip(remark) != "" && FlushesPass(faults) && CanReverse(old(Tables()), subId, reverses))
      ensures r.Success? ==> BooksReversal(old(Tables()), Tables(), subId, r.value, reverses)
    {
      if !allowed {
        return Failure(PermissionDenied);
      }
      if Strip(remark) == "" {
        return Failure(ValidationFailed);
      }
      var before := Books(payments, subs, mains, documents, vouchers);
      ReversalGateMeans(before, subId, reverses);
      hide AdmitReversal, CanReverse, Reversed, BooksReversal, Valid, FlushesPass, FindPayment, Strip;
      var gate := AdmitReversal(before, subId, reverses);
      if gate.Failure? {
        return Failure(gate.error);
      }
      r := ReverseAdmitted(gate.value, faults);
      if r.Success? {
        ReversedMeans(before, gate.value, r.value);
      }
    }

    /** The transaction of `reverse_payment`, once the checks have passed. */
    method ReverseAdmitted(a: Reversible, faults: set<Point>) returns (r: Result<nat>)
      requires Consistent() && a.sub < |subs| && a.main < |mains| && a.original < |payments|
      modifies this
      ensures Consistent() && files == old(files)
      ensures r.Success? <==> FlushesPass(faults)
      ensures r.Failure? ==> r.error == Fault && Tables() == old(Tables())
      ensures r.Success? ==> FindPayment(old(payments), r.value).None? && Tables() == Reversed(old(Tables()), a, r.value)
    {
      hide PaymentNo, MaxSequence, NumbersOf, SumPayments, SumSpent, FindPayment;
      var before := Books(payments, subs, mains, documents, vouchers);
      var sub, original := subs[a.sub], payments[a.original];
      var numbers := NumbersOf(payments, sub.id);
      var sequence := NextSequenceFromPaymentNumbers(numbers);
      var id := Uuid4();
      var reversal := Payment(id, PaymentNo(sub.projectNo, sequence), sub.id, -original.amount, Reversal, Some(original.id));
      var committed := Record(reversal, [], a.sub, a.main, faults);
      if !committed {
        Rollback(before);
        return Failure(Fault);
      }
      r := Success(id);
    }

    lemma ReversalGateMeans(b: Books, subId: nat, reverses: nat)
      ensures Valid(b) ==> (AdmitReversal(b, subId, reverses).Success? <==> CanReverse(b, subId, reverses))
      ensures AdmitReversal(b, subId, reverses).Success? ==>
        var a := AdmitReversal(b, subId, reverses).value;
        b.subs[a.sub].id == subId && b.mains[a.main].id == b.subs[a.sub].mainId && b.payments[a.original].id == reverses
    {
      hide AdmitReversal, CanReverse, Numbered, Owned, CachesExact, DistinctNumbers, History;
      if AdmitReversal(b, subId, reverses).Success? {
        ReversibleRows(b, subId, reverses);
      }
      if Valid(b) {
        HistoryDistinct(b.payments);
        AdmitReversalMeans(b, subId, reverses);
      }
    }
  }
}
