/** Payment numbers `<project number>-PAY-<sequence>`: printed by the payment service and parsed
    back to find the next free sequence. */
module PaymentNumbers {
  import opened Wrappers
  import opened Text

  const SEPARATOR := "-PAY-"

  function PaymentNo(projectNo: string, sequence: nat): string {
    projectNo + SEPARATOR + Padded(sequence, 3)
  }

  /** The number after the last separator; None where the source skips the entry. */
  function SequenceOf(paymentNo: string): Option<int> {
    match AfterLast(paymentNo, SEPARATOR)
    case None => None
    case Some(tail) => ParseInt(tail)
  }

  /** The last separator of a generated number is the one the service wrote, even when the
      project number contains separators itself. */
  lemma LastSeparator(projectNo: string, sequence: nat)
    ensures LastOccurrence(PaymentNo(projectNo, sequence), SEPARATOR, |PaymentNo(projectNo, sequence)|)
         == Some(|projectNo|)
  {
    var s := PaymentNo(projectNo, sequence);
    assert OccursAt(s, SEPARATOR, |projectNo|);
    assert forall k :: 0 <= k < 5 ==> s[|projectNo| + k] == SEPARATOR[k];
    assert forall k :: |projectNo| + 5 <= k < |s| ==> s[k] == Padded(sequence, 3)[k - |projectNo| - 5];
    forall i | |projectNo| < i <= |s|
      ensures !OccursAt(s, SEPARATOR, i)
    {
      if OccursAt(s, SEPARATOR, i) {
        SeparatorCharacters(s, i);
      }
    }
  }

  lemma SeparatorCharacters(s: string, i: nat)
    requires OccursAt(s, SEPARATOR, i)
    ensures s[i] == '-' && s[i + 1] == 'P'
  {
    assert s[i..i + 5][0] == SEPARATOR[0] && s[i..i + 5][1] == SEPARATOR[1];
  }

  /** Parsing a generated payment number gives its sequence back. */
  lemma SequenceRoundTrip(projectNo: string, sequence: nat)
    ensures SequenceOf(PaymentNo(projectNo, sequence)) == Some(sequence)
  {
    LastSeparator(projectNo, sequence);
    var s := PaymentNo(projectNo, sequence);
    assert s[|projectNo| + |SEPARATOR|..] == Padded(sequence, 3);
    ParseIntPadded(sequence, 3);
  }

  /** Two payment numbers are equal only for the same project number and the same sequence. */
  lemma PaymentNoInjective(p: string, m: nat, q: string, n: nat)
    requires PaymentNo(p, m) == PaymentNo(q, n)
    ensures p == q && m == n
  {
    LastSeparator(p, m);
    LastSeparator(q, n);
    SequenceRoundTrip(p, m);
    SequenceRoundTrip(q, n);
    assert PaymentNo(p, m)[..|p|] == p;
    assert PaymentNo(q, n)[..|q|] == q;
  }

  /** The largest parsed sequence, and at least zero. */
  function MaxSequence(numbers: seq<string>): (m: nat)
    ensures forall i :: 0 <= i < |numbers| && SequenceOf(numbers[i]).Some? ==> SequenceOf(numbers[i]).value <= m
    ensures m == 0 || exists i :: 0 <= i < |numbers| && SequenceOf(numbers[i]) == Some(m)
  {
    if numbers == [] then 0
    else
      var before := MaxSequence(numbers[..|numbers| - 1]);
      match SequenceOf(numbers[|numbers| - 1])
      case None => before
      case Some(v) => if v > before then v else before
  }

  method NextSequenceFromPaymentNumbers(numbers: seq<string>) returns (next: nat)
    ensures next == MaxSequence(numbers) + 1
  {
    var maxSequence := 0;
    for i := 0 to |numbers|
      invariant maxSequence == MaxSequence(numbers[..i])
    {
      assert numbers[..i + 1][..i] == numbers[..i];
      match SequenceOf(numbers[i]) {
        case None =>
        case Some(v) =>
          if v > maxSequence {
            maxSequence := v;
          }
      }
    }
    assert numbers[..|numbers|] == numbers;
    next := maxSequence + 1;
  }

  lemma AboveMaxIsNew(numbers: seq<string>, number: string, sequence: nat)
    requires SequenceOf(number) == Some(sequence) && sequence > MaxSequence(numbers)
    ensures number !in numbers
  {
    hide SequenceOf, MaxSequence;
  }

  /** The next number is new: it differs from every number the list was read from. */
  lemma NextIsFresh(numbers: seq<string>, projectNo: string)
    ensures PaymentNo(projectNo, MaxSequence(numbers) + 1) !in numbers
  {
    hide PaymentNo, SequenceOf, MaxSequence;
    var next := MaxSequence(numbers) + 1;
    SequenceRoundTrip(projectNo, next);
    AboveMaxIsNew(numbers, PaymentNo(projectNo, next), next);
  }

  ghost predicate IsNumberOf(number: string, projectNo: string) {
    exists n: nat :: number == PaymentNo(projectNo, n)
  }

  /** A generated number differs from every generated number of any other project. */
  lemma OtherProjectsDiffer(projectNo: string, sequence: nat, other: string, otherProject: string)
    requires IsNumberOf(other, otherProject) && otherProject != projectNo
    ensures PaymentNo(projectNo, sequence) != other
  {
    var n: nat :| other == PaymentNo(otherProject, n);
    if PaymentNo(projectNo, sequence) == other {
      PaymentNoInjective(projectNo, sequence, otherProject, n);
    }
  }
}
