/** Worksheet titles: at most 31 characters, made unique with a numeric suffix. */
module SheetTitles {
  import opened Text
  import opened Sequences

  const MAX_TITLE := 31

  /** `s[:n]`; a negative `n` counts from the end. */
  function Slice(s: string, n: int): (r: string)
    ensures n >= 0 ==> |r| <= n
    ensures n >= |s| ==> r == s
  {
    if n >= |s| then s
    else if n >= 0 then s[..n]
    else if |s| + n >= 0 then s[..|s| + n] else []
  }

  function Base(tableName: string): (base: string)
    ensures base != [] && |base| <= MAX_TITLE
  {
    if tableName == [] then "table" else Slice(tableName, MAX_TITLE)
  }

  /** The title tried with a suffix; the first one is the base itself. */
  function Candidate(base: string, suffix: nat): string {
    if suffix <= 1 then base
    else Slice(base, MAX_TITLE - |Decimal(suffix)| - 1) + "_" + Decimal(suffix)
  }

  lemma NoUnderscore(n: nat)
    ensures '_' !in Decimal(n)
  {
    hide Padded;
    var s := Decimal(n);
    assert forall i :: 0 <= i < |s| ==> IsDigit(s[i]);
  }

  /** Different suffixes give different titles, however the base was cut. */
  lemma CandidatesDiffer(base: string, m: nat, n: nat)
    requires 2 <= m && 2 <= n && Candidate(base, m) == Candidate(base, n)
    ensures m == n
  {
    hide Padded, Slice;
    var a, b := Slice(base, MAX_TITLE - |Decimal(m)| - 1), Slice(base, MAX_TITLE - |Decimal(n)| - 1);
    NoUnderscore(m);
    NoUnderscore(n);
    TailsAgree(a, Decimal(m), b, Decimal(n));
    PaddedInjective(m, n, 1);
  }

  lemma TailsAgree(a: string, x: string, b: string, y: string)
    requires a + "_" + x == b + "_" + y && '_' !in x && '_' !in y
    ensures x == y
  {
    var s := a + "_" + x;
    assert s[|a|] == '_' && s[|b|] == '_';
    assert s[|a| + 1..] == x && s[|b| + 1..] == y;
  }

  /** A suffix of at most 30 digits leaves room for itself. */
  lemma CandidateFits(base: string, suffix: nat)
    requires |base| <= MAX_TITLE && suffix < Power10(30)
    ensures |Candidate(base, suffix)| <= MAX_TITLE
  {
    hide Padded, Power10;
    DecimalLength(suffix, 30);
  }

  ghost function CandidatesFrom2(base: string, upTo: nat): set<string> {
    set n | 2 <= n <= upTo :: Candidate(base, n)
  }

  lemma {:induction false} CandidatesCount(base: string, upTo: nat)
    requires upTo >= 1
    ensures |CandidatesFrom2(base, upTo)| == upTo - 1
  {
    hide Candidate;
    if upTo == 1 {
      assert CandidatesFrom2(base, 1) == {};
    } else {
      CandidatesCount(base, upTo - 1);
      var last := Candidate(base, upTo);
      assert CandidatesFrom2(base, upTo) == CandidatesFrom2(base, upTo - 1) + {last};
      if last in CandidatesFrom2(base, upTo - 1) {
        var n :| 2 <= n <= upTo - 1 && Candidate(base, n) == last;
        CandidatesDiffer(base, n, upTo);
      }
    }
  }

  /** The used set is finite, so it cannot hold all candidates. */
  lemma SearchIsBounded(base: string, used: set<string>, suffix: nat)
    requires suffix >= 1 && forall n :: 2 <= n <= suffix ==> Candidate(base, n) in used
    ensures suffix <= |used| + 1
  {
    hide Candidate;
    CandidatesCount(base, suffix);
    SubsetSize(CandidatesFrom2(base, suffix), used);
  }

  /** The result is the first candidate that is not used. */
  ghost predicate FirstFree(base: string, used: set<string>, title: string, suffix: nat) {
    && suffix >= 1 && title == Candidate(base, suffix) && title !in used
    && forall n :: 1 <= n < suffix ==> Candidate(base, n) in used
  }

  // ---------------------------------------------------------------- what a title looks like

  /** The first 31 characters. */
  function First31(name: string): string {
    if |name| <= 31 then name else name[..31]
  }

  function Stem(tableName: string): string {
    if tableName == "" then "table" else First31(tableName)
  }

  /** A stem, cut as far as 31 characters require and no further, an underscore and the number. */
  ghost predicate IsNumbered(stem: string, n: nat, title: string) {
    exists cut :: 0 <= cut <= |stem| && title == stem[..cut] + "_" + Decimal(n) && |title| <= 31 && (cut == |stem| || |title| == 31)
  }

  /** The start of the table's name, or "table" without one; when that is taken, it gets the first number
      from 2 on for which it is not. */
  ghost predicate IsTitle(tableName: string, used: set<string>, title: string) {
    && title !in used
    && if Stem(tableName) !in used then title == Stem(tableName) else exists n :: IsFirstNumbered(Stem(tableName), used, n, title)
  }

  ghost predicate NumberTaken(stem: string, used: set<string>, m: nat) {
    exists t :: t in used && IsNumbered(stem, m, t)
  }

  ghost predicate IsFirstNumbered(stem: string, used: set<string>, n: nat, title: string) {
    n >= 2 && IsNumbered(stem, n, title) && forall m :: 2 <= m < n ==> NumberTaken(stem, used, m)
  }

  lemma CandidateIsNumbered(stem: string, n: nat)
    requires |stem| <= MAX_TITLE && 2 <= n < Power10(30)
    ensures IsNumbered(stem, n, Candidate(stem, n))
  {
    hide Padded, Power10;
    DecimalLength(n, 30);
    var room := MAX_TITLE - |Decimal(n)| - 1;
    var cut := if room >= |stem| then |stem| else room;
    assert stem[..cut] == Slice(stem, room);
    assert Candidate(stem, n) == stem[..cut] + "_" + Decimal(n);
  }

  lemma FirstFreeIsTitle(tableName: string, used: set<string>, title: string, suffix: nat)
    requires FirstFree(Base(tableName), used, title, suffix) && suffix < Power10(30)
    ensures IsTitle(tableName, used, title)
  {
    var stem := Base(tableName);
    if tableName != "" {
      BaseIsStart(tableName);
    }
    NumberedTitle(stem, used, title, suffix);
    hide IsFirstNumbered, FirstFree;
  }

  lemma NumberedTitle(stem: string, used: set<string>, title: string, suffix: nat)
    requires FirstFree(stem, used, title, suffix) && suffix < Power10(30) && |stem| <= MAX_TITLE
    ensures title !in used && if stem !in used then title == stem else IsFirstNumbered(stem, used, suffix, title)
  {
    hide Power10, Candidate, IsNumbered, Padded;
    CandidateOne(stem);
    if stem in used {
      CandidateIsNumbered(stem, suffix);
      forall m | 2 <= m < suffix
        ensures NumberTaken(stem, used, m)
      {
        CandidateIsNumbered(stem, m);
        assert Candidate(stem, m) in used;
      }
    }
  }

  lemma CandidateOne(base: string)
    ensures Candidate(base, 1) == base
  {
  }

  class SheetNamer {
    var usedTitles: set<string>

    constructor ()
      ensures usedTitles == {}
    {
      usedTitles := {};
    }

    /** Ends for every table name; with fewer than 10^29 titles in use the result has at most 31 characters. */
    method SheetTitle(tableName: string) returns (title: string, ghost suffix: nat)
      modifies this
      ensures FirstFree(Base(tableName), old(usedTitles), title, suffix)
      ensures usedTitles == old(usedTitles) + {title} && |usedTitles| == |old(usedTitles)| + 1
      ensures |old(usedTitles)| < Power10(29) ==> |title| <= MAX_TITLE && IsTitle(tableName, old(usedTitles), title)
    {
      hide Candidate, Padded, Power10, Slice, IsTitle, Base;
      var base := Base(tableName);
      title := base;
      CandidateOne(base);
      var n := 1;
      while title in usedTitles
        invariant n >= 1 && title == Candidate(base, n)
        invariant usedTitles == old(usedTitles)
        invariant forall k :: 1 <= k < n ==> Candidate(base, k) in usedTitles
        decreases |usedTitles| + 2 - n
      {
        SearchIsBounded(base, usedTitles, n);
        n := n + 1;
        title := Slice(base, MAX_TITLE - |Decimal(n)| - 1) + "_" + Decimal(n);
        CandidateUnfolds(base, n);
      }
      if n >= 2 {
        SearchIsBounded(base, usedTitles, n - 1);
      }
      if |usedTitles| < Power10(29) {
        PowerTen29();
        CandidateFits(base, n);
        FirstFreeIsTitle(tableName, usedTitles, title, n);
      }
      suffix := n;
      usedTitles := usedTitles + {title};
    }

    lemma CandidateUnfolds(base: string, n: nat)
      requires n >= 2
      ensures Candidate(base, n) == Slice(base, MAX_TITLE - |Decimal(n)| - 1) + "_" + Decimal(n)
    {
    }

    lemma PowerTen29()
      ensures Power10(30) == 10 * Power10(29) && Power10(29) >= 1
    {
    }
  }

  /** The titles of a workbook: pairwise different, at most 31 characters each, and plain names are
      kept when their cut forms do not clash. */
  method RenderTitles(tableNames: seq<string>) returns (titles: seq<string>)
    ensures |titles| == |tableNames|
    ensures forall i, j :: 0 <= i < j < |titles| ==> titles[i] != titles[j]
    ensures |tableNames| <= Power10(29) ==> forall i :: 0 <= i < |titles| ==> |titles[i]| <= MAX_TITLE
    ensures |tableNames| <= Power10(29) ==> AllTitles(tableNames, titles)
    ensures DistinctBy(Base, tableNames) ==> forall i :: 0 <= i < |titles| ==> titles[i] == Base(tableNames[i])
    ensures (forall i :: 0 <= i < |tableNames| ==> tableNames[i] != "") && DistinctBy(First31, tableNames) ==>
              forall i :: 0 <= i < |titles| ==> titles[i] == First31(tableNames[i])
  {
    PlainBases(tableNames);
    hide Power10, FirstFree, Progress, Base, DistinctBy, First31, AllTitles, IsTitle;
    titles := [];
    NoTitles(tableNames);
    var namer := new SheetNamer();
    var i := 0;
    while i < |tableNames|
      invariant 0 <= i == |titles| <= |tableNames| && fresh(namer) && Progress(tableNames, titles, namer.usedTitles)
    {
      ghost var used := namer.usedTitles;
      var title, suffix := namer.SheetTitle(tableNames[i]);
      NextTitle(tableNames, titles, used, title, suffix);
      titles := titles + [title];
      i := i + 1;
    }
    Finished(tableNames, titles, namer.usedTitles);
  }

  ghost predicate AllUsed(titles: seq<string>, used: set<string>) {
    && |used| == |titles| && (forall t :: t in used <==> t in titles)
    && forall j, k :: 0 <= j < k < |titles| ==> titles[j] != titles[k]
  }

  predicate AllShort(titles: seq<string>) {
    forall j :: 0 <= j < |titles| ==> |titles[j]| <= MAX_TITLE
  }

  predicate AllBases(tableNames: seq<string>, titles: seq<string>) {
    |titles| <= |tableNames| && forall j :: 0 <= j < |titles| ==> titles[j] == Base(tableNames[j])
  }

  /** What holds of the first titles. */
  ghost predicate Progress(tableNames: seq<string>, titles: seq<string>, used: set<string>) {
    && AllUsed(titles, used)
    && (|tableNames| <= Power10(29) ==> AllTitles(tableNames, titles) && AllShort(titles))
    && (DistinctBy(Base, tableNames) ==> AllBases(tableNames, titles))
  }

  lemma NextTitle(tableNames: seq<string>, titles: seq<string>, used: set<string>, title: string, suffix: nat)
    requires |titles| < |tableNames| && Progress(tableNames, titles, used) && FirstFree(Base(tableNames[|titles|]), used, title, suffix)
    requires |used| < Power10(29) ==> |title| <= MAX_TITLE && IsTitle(tableNames[|titles|], used, title)
    ensures |used + {title}| == |used| + 1 && Progress(tableNames, titles + [title], used + {title})
  {
    hide Power10, Base, FirstFree, DistinctBy, AllTitles, IsTitle, AllShort, AllBases, AllUsed;
    NextUsed(tableNames, titles, used, title, suffix);
    if |tableNames| <= Power10(29) {
      AllTitlesNext(tableNames, titles, used, title);
    }
  }

  lemma GrowUsed(titles: seq<string>, used: set<string>, title: string)
    requires AllUsed(titles, used) && title !in used
    ensures |used| == |titles| && |used + {title}| == |used| + 1 && AllUsed(titles + [title], used + {title})
    ensures forall t :: t in used <==> t in titles
  {
  }

  lemma NextUsed(tableNames: seq<string>, titles: seq<string>, used: set<string>, title: string, suffix: nat)
    requires |titles| < |tableNames| && AllUsed(titles, used) && FirstFree(Base(tableNames[|titles|]), used, title, suffix)
    ensures |used| == |titles| && |used + {title}| == |used| + 1 && AllUsed(titles + [title], used + {title})
    ensures forall t :: t in used <==> t in titles
    ensures AllShort(titles) && |title| <= MAX_TITLE ==> AllShort(titles + [title])
    ensures DistinctBy(Base, tableNames) && AllBases(tableNames, titles) ==> AllBases(tableNames, titles + [title])
  {
    BaseFirst(Base(tableNames[|titles|]), used, title, suffix);
    hide Base, FirstFree, DistinctBy, AllUsed;
    GrowUsed(titles, used, title);
    if AllBases(tableNames, titles) {
      NotYetUsed(tableNames, titles, |titles|);
    }
  }

  lemma Finished(tableNames: seq<string>, titles: seq<string>, used: set<string>)
    requires Progress(tableNames, titles, used)
    ensures forall j, k :: 0 <= j < k < |titles| ==> titles[j] != titles[k]
    ensures |tableNames| <= Power10(29) ==> AllTitles(tableNames, titles) && forall j :: 0 <= j < |titles| ==> |titles[j]| <= MAX_TITLE
    ensures DistinctBy(Base, tableNames) ==> forall j :: 0 <= j < |titles| ==> titles[j] == Base(tableNames[j])
  {
  }

  function AsSet(titles: seq<string>): set<string> {
    set t | t in titles
  }

  /** Every table has its title, given those before it. */
  ghost predicate AllTitles(tableNames: seq<string>, titles: seq<string>) {
    |titles| <= |tableNames| && forall i :: 0 <= i < |titles| ==> IsTitle(tableNames[i], AsSet(titles[..i]), titles[i])
  }

  lemma NoTitles(tableNames: seq<string>)
    ensures Progress(tableNames, [], {})
  {
  }

  lemma AllTitlesNext(tableNames: seq<string>, titles: seq<string>, used: set<string>, title: string)
    requires |titles| < |tableNames| && AllTitles(tableNames, titles)
    requires IsTitle(tableNames[|titles|], used, title) && forall t :: t in used <==> t in titles
    ensures AllTitles(tableNames, titles + [title])
  {
    hide IsTitle;
    var more := titles + [title];
    assert forall i :: 0 <= i <= |titles| ==> more[..i] == titles[..i];
    assert titles[..|titles|] == titles && AsSet(titles) == used;
  }

  lemma PlainBases(tableNames: seq<string>)
    ensures forall i :: 0 <= i < |tableNames| && tableNames[i] != "" ==> Base(tableNames[i]) == First31(tableNames[i])
    ensures (forall i :: 0 <= i < |tableNames| ==> tableNames[i] != "") && DistinctBy(First31, tableNames) ==> DistinctBy(Base, tableNames)
  {
    hide Slice;
    forall i | 0 <= i < |tableNames| && tableNames[i] != ""
      ensures Base(tableNames[i]) == First31(tableNames[i])
    {
      BaseIsStart(tableNames[i]);
    }
  }

  lemma BaseIsStart(tableName: string)
    requires tableName != ""
    ensures Base(tableName) == First31(tableName)
  {
  }

  lemma NotYetUsed(tableNames: seq<string>, titles: seq<string>, i: nat)
    requires i < |tableNames| && |titles| == i
    ensures DistinctBy(Base, tableNames) && (forall j :: 0 <= j < i ==> titles[j] == Base(tableNames[j])) ==> Base(tableNames[i]) !in titles
  {
    hide Base;
    if DistinctBy(Base, tableNames) {
      assert forall j :: 0 <= j < i ==> Base(tableNames[j]) != Base(tableNames[i]);
    }
  }

  lemma BaseFirst(base: string, used: set<string>, title: string, suffix: nat)
    requires FirstFree(base, used, title, suffix)
    ensures base !in used ==> title == base
    ensures title !in used
  {
    assert Candidate(base, 1) == base;
  }
}
