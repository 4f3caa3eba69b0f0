/** Runs of sends and digests: keys stay unique, and every notification is in at most one digest. */
module DigestRuns {
  import opened Wrappers
  import opened Calendar
  import opened Snapshots
  import opened Sequences
  import opened DedupKeys
  import opened Notifications

  // ---------------------------------------------------------------- one digest run

  function DigestEvent(w: Window, now: int): Event {
    Event(DAILY_DIGEST_SCENARIO, DateText(w.date), w.date, now)
  }

  function DigestReceivers(notes: seq<Note>, w: Window): seq<Uuid>
    requires ValidDate(w.date)
  {
    Unique(Map(ReceiverOf, Pending(notes, w)))
  }

  function DigestNote(w: Window, now: int, entries: seq<Entry>, r: Uuid): Note {
    Note(r, DAILY_DIGEST_SCENARIO, DateText(w.date), EventKey(DigestEvent(w, now), r), RealTime, None, now,
         Some(BuildDigest(w.date, Filter(HasKey(ReceiverOf, r), entries))))
  }

  /** The digests that a run adds: one for each receiver that has none for that day yet. */
  function NewDigests(notes: seq<Note>, w: Window, now: int, entries: seq<Entry>, receivers: seq<Uuid>): seq<Note> {
    if receivers == [] then []
    else
      var r := receivers[|receivers| - 1];
      NewDigests(notes, w, now, entries, receivers[..|receivers| - 1])
        + if KeyStored(notes, EventKey(DigestEvent(w, now), r)) then [] else [DigestNote(w, now, entries, r)]
  }

  function Marked(notes: seq<Note>, w: Window, now: int): (marked: seq<Note>)
    requires ValidDate(w.date)
    ensures |marked| == |notes|
    ensures forall i :: 0 <= i < |notes| ==> marked[i] == if IsPending(w, notes[i]) then notes[i].(sentAt := Some(now)) else notes[i]
  {
    seq(|notes|, i requires 0 <= i < |notes| => if IsPending(w, notes[i]) then notes[i].(sentAt := Some(now)) else notes[i])
  }

  /** The table after `generate_daily_digest`. */
  function Generated(notes: seq<Note>, w: Window, now: int): seq<Note>
    requires ValidDate(w.date)
  {
    Marked(notes, w, now) + NewDigests(notes, w, now, Pending(notes, w), DigestReceivers(notes, w))
  }

  // ---------------------------------------------------------------- which digests hold what

  /** The identifiers in all digests, with repetitions. */
  ghost function DigestedIds(notes: seq<Note>): multiset<int> {
    if notes == [] then multiset{}
    else
      var last := notes[|notes| - 1];
      DigestedIds(notes[..|notes| - 1]) + if last.digest.Some? then GroupItems(ItemId, last.digest.value.groups) else multiset{}
  }

  lemma {:induction false} DigestedConcat(a: seq<Note>, b: seq<Note>)
    ensures DigestedIds(a + b) == DigestedIds(a) + DigestedIds(b)
  {
    hide GroupItems;
    if b == [] {
      assert a + b == a;
    } else {
      DigestedConcat(a, b[..|b| - 1]);
      assert (a + b)[..|a + b| - 1] == a + b[..|b| - 1];
    }
  }

  lemma {:induction false} DigestedSame(a: seq<Note>, b: seq<Note>)
    requires |a| == |b| && forall i :: 0 <= i < |a| ==> a[i].digest == b[i].digest
    ensures DigestedIds(a) == DigestedIds(b)
  {
    hide GroupItems;
    if a != [] {
      DigestedSame(a[..|a| - 1], b[..|b| - 1]);
    }
  }

  lemma {:induction false} DigestedNone(a: seq<Note>)
    requires forall i :: 0 <= i < |a| ==> a[i].digest == None
    ensures DigestedIds(a) == multiset{}
  {
    if a != [] {
      DigestedNone(a[..|a| - 1]);
    }
  }

  /** Among a receiver's entries an identifier occurs once or not at all. */
  lemma ReceiverIds(entries: seq<Entry>, r: Uuid, e: Entry)
    requires DistinctBy(EntryId, entries) && e in entries
    ensures multiset(Map(EntryId, Filter(HasKey(ReceiverOf, r), entries)))[e.id] == if e.note.receiver == r then 1 else 0
  {
    hide Filter, Map;
    var mine := Filter(HasKey(ReceiverOf, r), entries);
    DistinctFilter(EntryId, HasKey(ReceiverOf, r), entries);
    DistinctAsBag(EntryId, mine);
    if e.note.receiver == r {
      MapMember(EntryId, mine, e);
    } else if e.id in multiset(Map(EntryId, mine)) {
      var f := MapOrigin(EntryId, mine, e.id);
      DistinctMember(EntryId, entries, e, f);
    }
  }

  lemma OtherIds(entries: seq<Entry>, r: Uuid, id: int)
    requires forall e :: e in entries ==> e.id != id
    ensures multiset(Map(EntryId, Filter(HasKey(ReceiverOf, r), entries)))[id] == 0
  {
    hide Filter, Map;
    var mine := Filter(HasKey(ReceiverOf, r), entries);
    if id in multiset(Map(EntryId, mine)) {
      var f := MapOrigin(EntryId, mine, id);
    }
  }

  lemma OnItemId(e: Entry)
    ensures OnItem(ItemId)(e) == EntryId(e)
  {
    assert ItemId(ItemOf(e)) == e.id;
  }

  lemma DigestNoteIds(w: Window, now: int, entries: seq<Entry>, r: Uuid)
    ensures GroupItems(ItemId, DigestNote(w, now, entries, r).digest.value.groups)
      == multiset(Map(EntryId, Filter(HasKey(ReceiverOf, r), entries)))
  {
    hide Filter, GroupItems, BuildDigest;
    var mine := Filter(HasKey(ReceiverOf, r), entries);
    DigestHoldsAll(ItemId, w.date, mine);
    forall i | 0 <= i < |mine|
      ensures Map(OnItem(ItemId), mine)[i] == Map(EntryId, mine)[i]
    {
      OnItemId(mine[i]);
    }
    assert Map(OnItem(ItemId), mine) == Map(EntryId, mine);
  }

  lemma LastDigestIds(notes: seq<Note>, w: Window, now: int, entries: seq<Entry>, receivers: seq<Uuid>)
    requires receivers != []
    ensures var r := receivers[|receivers| - 1];
      DigestedIds(NewDigests(notes, w, now, entries, receivers))
        == DigestedIds(NewDigests(notes, w, now, entries, receivers[..|receivers| - 1]))
          + if KeyStored(notes, EventKey(DigestEvent(w, now), r)) then multiset{} else multiset(Map(EntryId, Filter(HasKey(ReceiverOf, r), entries)))
  {
    hide KeyStored, EventKey, DigestNote, Filter, Map, GroupItems, DigestEvent, DigestedIds;
    var before, r := receivers[..|receivers| - 1], receivers[|receivers| - 1];
    var earlier := NewDigests(notes, w, now, entries, before);
    if KeyStored(notes, EventKey(DigestEvent(w, now), r)) {
      assert earlier + [] == earlier;
    } else {
      DigestedConcat(earlier, [DigestNote(w, now, entries, r)]);
      OneDigest(w, now, entries, r);
      DigestNoteIds(w, now, entries, r);
    }
  }

  /** The new digests hold an entry once, unless its receiver already has a digest for that day. */
  lemma {:induction false} NewDigestHolds(notes: seq<Note>, w: Window, now: int, entries: seq<Entry>, receivers: seq<Uuid>, e: Entry)
    requires DistinctBy(EntryId, entries) && e in entries
    requires forall i, j :: 0 <= i < j < |receivers| ==> receivers[i] != receivers[j]
    ensures DigestedIds(NewDigests(notes, w, now, entries, receivers))[e.id]
      == if e.note.receiver in receivers && !KeyStored(notes, EventKey(DigestEvent(w, now), e.note.receiver)) then 1 else 0
  {
    hide KeyStored, EventKey, Filter, Map, DigestEvent, DistinctBy;
    if receivers == [] {
      assert DigestedIds([]) == multiset{};
    } else {
      var before, r := receivers[..|receivers| - 1], receivers[|receivers| - 1];
      hide DigestedIds, NewDigests;
      NewDigestHolds(notes, w, now, entries, before, e);
      LastDigestIds(notes, w, now, entries, receivers);
      ReceiverIds(entries, r, e);
      LastReceiver(receivers, e.note.receiver);
    }
  }

  lemma LastReceiver(receivers: seq<Uuid>, u: Uuid)
    requires receivers != [] && forall i, j :: 0 <= i < j < |receivers| ==> receivers[i] != receivers[j]
    ensures u in receivers <==> u in receivers[..|receivers| - 1] || u == receivers[|receivers| - 1]
    ensures receivers[|receivers| - 1] !in receivers[..|receivers| - 1]
  {
    assert receivers == receivers[..|receivers| - 1] + [receivers[|receivers| - 1]];
  }

  lemma {:induction false} NewDigestHoldsNoOther(notes: seq<Note>, w: Window, now: int, entries: seq<Entry>, receivers: seq<Uuid>, id: int)
    requires forall e :: e in entries ==> e.id != id
    ensures DigestedIds(NewDigests(notes, w, now, entries, receivers))[id] == 0
  {
    hide KeyStored, EventKey, Filter, Map, DigestEvent;
    if receivers == [] {
      assert DigestedIds([]) == multiset{};
    } else {
      hide DigestedIds, NewDigests;
      NewDigestHoldsNoOther(notes, w, now, entries, receivers[..|receivers| - 1], id);
      LastDigestIds(notes, w, now, entries, receivers);
      OtherIds(entries, receivers[|receivers| - 1], id);
    }
  }

  lemma OneDigest(w: Window, now: int, entries: seq<Entry>, r: Uuid)
    ensures DigestedIds([DigestNote(w, now, entries, r)]) == GroupItems(ItemId, DigestNote(w, now, entries, r).digest.value.groups)
  {
    hide GroupItems;
    assert [DigestNote(w, now, entries, r)][..0] == [];
  }

  /** What a run takes: every pending notification goes into exactly one digest, except those whose
      receiver already has a digest for that day, which are marked as sent without being in one. */
  lemma RunTakes(notes: seq<Note>, w: Window, now: int, id: int)
    requires ValidDate(w.date)
    ensures DigestedIds(Generated(notes, w, now))[id] == DigestedIds(notes)[id]
      + (if 0 <= id < |notes| && IsPending(w, notes[id]) && !KeyStored(notes, EventKey(DigestEvent(w, now), notes[id].receiver)) then 1 else 0)
  {
    hide KeyStored, EventKey, DigestEvent, IsPending, NewDigests, DigestedIds, Map, Pending;
    var entries := Pending(notes, w);
    var receivers := DigestReceivers(notes, w);
    PendingMeans(notes, w);
    UniqueMeans(Map(ReceiverOf, entries));
    DigestedConcat(Marked(notes, w, now), NewDigests(notes, w, now, entries, receivers));
    DigestedSame(Marked(notes, w, now), notes);
    if 0 <= id < |notes| && IsPending(w, notes[id]) {
      var e := Entry(id, notes[id]);
      assert e in entries;
      MapMember(ReceiverOf, entries, e);
      NewDigestHolds(notes, w, now, entries, receivers, e);
    } else {
      NewDigestHoldsNoOther(notes, w, now, entries, receivers, id);
    }
  }

  lemma {:induction false} NewDigestsAre(notes: seq<Note>, w: Window, now: int, entries: seq<Entry>, receivers: seq<Uuid>)
    ensures forall n :: n in NewDigests(notes, w, now, entries, receivers) ==>
      && n.receiver in receivers && n.mode == RealTime && n.sentAt == None && n.digest.Some? && n.scenario == DAILY_DIGEST_SCENARIO
      && n.source == DateText(w.date) && n.key == EventKey(DigestEvent(w, now), n.receiver) && !KeyStored(notes, n.key)
  {
    hide KeyStored, EventKey, BuildDigest, DigestEvent;
    if receivers != [] {
      NewDigestsAre(notes, w, now, entries, receivers[..|receivers| - 1]);
    }
  }

  /** A digest of the window's day for its receiver: every item is a pending notification of that receiver, in
      the group of its scenario. */
  ghost predicate IsOwnDigest(notes: seq<Note>, w: Window, n: Note)
    requires ValidDate(w.date)
  {
    && n.scenario == DAILY_DIGEST_SCENARIO && n.mode == RealTime && n.sentAt == None
    && n.digest.Some? && n.digest.value.date == w.date
    && forall k, i :: 0 <= k < |n.digest.value.groups| && 0 <= i < |n.digest.value.groups[k].items| ==>
      IsOwnItem(notes, w, n.receiver, n.digest.value.groups[k].scenario, n.digest.value.groups[k].items[i])
  }

  ghost predicate IsOwnItem(notes: seq<Note>, w: Window, receiver: Uuid, scenario: string, item: Item)
    requires ValidDate(w.date)
  {
    && item.id < |notes| && item == Item(item.id, notes[item.id].source, notes[item.id].createdAt)
    && notes[item.id].receiver == receiver && notes[item.id].scenario == scenario && IsPending(w, notes[item.id])
  }

  /** Nobody gets the notifications of somebody else. */
  lemma DigestsAreOwn(notes: seq<Note>, w: Window, now: int)
    requires ValidDate(w.date)
    ensures forall k :: |notes| <= k < |Generated(notes, w, now)| ==> IsOwnDigest(notes, w, Generated(notes, w, now)[k])
  {
    hide IsOwnDigest, NewDigests, Pending, DigestReceivers, ValidDate;
    var entries := Pending(notes, w);
    var added := NewDigests(notes, w, now, entries, DigestReceivers(notes, w));
    NewDigestsHold(notes, w, now, entries, DigestReceivers(notes, w));
    forall k | 0 <= k < |added|
      ensures IsOwnDigest(notes, w, added[k])
    {
      assert added[k] in added;
      OwnDigest(notes, w, now, added[k].receiver);
    }
  }

  lemma {:induction false} NewDigestsHold(notes: seq<Note>, w: Window, now: int, entries: seq<Entry>, receivers: seq<Uuid>)
    ensures forall n :: n in NewDigests(notes, w, now, entries, receivers) ==> n == DigestNote(w, now, entries, n.receiver)
  {
    hide KeyStored, EventKey, BuildDigest, DigestEvent;
    if receivers != [] {
      NewDigestsHold(notes, w, now, entries, receivers[..|receivers| - 1]);
    }
  }

  lemma ItemOrigin(g: Group, entries: seq<Entry>, i: nat) returns (e: Entry)
    requires IsGroup(g, entries) && i < |g.items|
    ensures e in entries && e.note.scenario == g.scenario && g.items[i] == Item(e.id, e.note.source, e.note.createdAt)
  {
    assert IsItem(g.items[i], g.scenario, entries);
    e :| e in entries && e.note.scenario == g.scenario && g.items[i] == Item(e.id, e.note.source, e.note.createdAt);
  }

  lemma OwnDigest(notes: seq<Note>, w: Window, now: int, r: Uuid)
    requires ValidDate(w.date)
    ensures IsOwnDigest(notes, w, DigestNote(w, now, Pending(notes, w), r))
  {
    hide EventKey, BuildDigest, IsPending, Pending, Filter, ValidDate, DateText;
    var entries := Pending(notes, w);
    var mine := Filter(HasKey(ReceiverOf, r), entries);
    PendingMeans(notes, w);
    DigestShape(w.date, mine);
    var groups := BuildDigest(w.date, mine).groups;
    forall k, i | 0 <= k < |groups| && 0 <= i < |groups[k].items|
      ensures IsOwnItem(notes, w, r, groups[k].scenario, groups[k].items[i])
    {
      var e := ItemOrigin(groups[k], mine, i);
      assert HasKey(ReceiverOf, r)(e) && e in entries;
      assert ReceiverOf(e) == r;
      assert e.id < |notes| && notes[e.id] == e.note && IsPending(w, e.note);
    }
  }

  /** After a run, nothing is pending in its window. */
  lemma NothingPending(notes: seq<Note>, w: Window, now: int)
    requires ValidDate(w.date)
    ensures Pending(Generated(notes, w, now), w) == []
  {
    hide KeyStored, EventKey, NewDigests, Pending, LocalDay, DigestReceivers;
    var after := Generated(notes, w, now);
    var left := Pending(after, w);
    assert left != [] ==> left[0] in left;
    PendingMeans(after, w);
    NewDigestsAre(notes, w, now, Pending(notes, w), DigestReceivers(notes, w));
    forall i | 0 <= i < |after|
      ensures !IsPending(w, after[i])
    {
      if i >= |notes| {
        assert after[i] in NewDigests(notes, w, now, Pending(notes, w), DigestReceivers(notes, w));
      }
    }
  }

  /** With nothing pending, a run changes nothing. */
  lemma NothingToDigest(notes: seq<Note>, w: Window, now: int)
    requires ValidDate(w.date) && Pending(notes, w) == []
    ensures Generated(notes, w, now) == notes
  {
    hide KeyStored, EventKey, LocalDay;
    PendingMeans(notes, w);
    forall i | 0 <= i < |notes|
      ensures !IsPending(w, notes[i])
    {
      assert Entry(i, notes[i]) !in Pending(notes, w);
    }
    assert Map(ReceiverOf, []) == [];
    assert DigestReceivers(notes, w) == [];
  }

  /** The rows of a table that are not pending in a window, run after run. */
  lemma StaysDone(notes: seq<Note>, done: Window, w: Window, now: int)
    requires ValidDate(w.date) && ValidDate(done.date) && Pending(notes, done) == []
    ensures Pending(Generated(notes, w, now), done) == []
  {
    hide KeyStored, EventKey, NewDigests, Pending, LocalDay, DigestReceivers;
    var after := Generated(notes, w, now);
    var left := Pending(after, done);
    assert left != [] ==> left[0] in left;
    PendingMeans(after, done);
    PendingMeans(notes, done);
    NewDigestsAre(notes, w, now, Pending(notes, w), DigestReceivers(notes, w));
    forall i | 0 <= i < |after|
      ensures !IsPending(done, after[i])
    {
      if i < |notes| {
        assert Entry(i, notes[i]) !in Pending(notes, done);
      } else {
        assert after[i] in NewDigests(notes, w, now, Pending(notes, w), DigestReceivers(notes, w));
      }
    }
  }

  /** Nothing pending for a list of receivers means nothing pending for any one of them. */
  lemma DoneForOne(notes: seq<Note>, w: Window, r: Uuid)
    requires ValidDate(w.date) && Pending(notes, w) == [] && w.receivers.Some? && r in w.receivers.value
    ensures Pending(notes, w.(receivers := Some([r]))) == []
  {
    hide Pending, LocalDay;
    var one := w.(receivers := Some([r]));
    var left := Pending(notes, one);
    assert left != [] ==> left[0] in left;
    PendingMeans(notes, one);
    PendingMeans(notes, w);
    forall e | e in left
      ensures e in Pending(notes, w)
    {
    }
  }

  predicate Waiting(n: Note) {
    n.mode == DailyDigest && n.sentAt == None
  }

  /** How many notifications still wait for a digest. */
  function WaitingCount(notes: seq<Note>): nat {
    if notes == [] then 0 else WaitingCount(notes[..|notes| - 1]) + if Waiting(notes[|notes| - 1]) then 1 else 0
  }

  lemma {:induction false} WaitingConcat(a: seq<Note>, b: seq<Note>)
    requires forall i :: 0 <= i < |b| ==> !Waiting(b[i])
    ensures WaitingCount(a + b) == WaitingCount(a)
  {
    if b == [] {
      assert a + b == a;
    } else {
      WaitingConcat(a, b[..|b| - 1]);
      assert (a + b)[..|a + b| - 1] == a + b[..|b| - 1];
    }
  }

  lemma {:induction false} MarkedWaiting(notes: seq<Note>, w: Window, now: int)
    requires ValidDate(w.date)
    ensures WaitingCount(Marked(notes, w, now)) == WaitingCount(notes) - |Pending(notes, w)|
  {
    hide LocalDay;
    if notes != [] {
      var before := notes[..|notes| - 1];
      MarkedWaiting(before, w, now);
      assert Marked(notes, w, now)[..|notes| - 1] == Marked(before, w, now);
    }
  }

  /** A run takes as many notifications out of the waiting ones as it reports. */
  lemma RunReducesWaiting(notes: seq<Note>, w: Window, now: int)
    requires ValidDate(w.date)
    ensures WaitingCount(Generated(notes, w, now)) == WaitingCount(notes) - |Pending(notes, w)|
  {
    hide NewDigests, Marked, Pending, WaitingCount, DigestReceivers;
    var added := NewDigests(notes, w, now, Pending(notes, w), DigestReceivers(notes, w));
    NewDigestsAre(notes, w, now, Pending(notes, w), DigestReceivers(notes, w));
    forall i | 0 <= i < |added|
      ensures !Waiting(added[i])
    {
      assert added[i] in added;
    }
    WaitingConcat(Marked(notes, w, now), added);
    MarkedWaiting(notes, w, now);
  }

  // ---------------------------------------------------------------- the invariant

  /** The key belongs to the row: its scenario, receiver and source on some day. */
  ghost predicate OwnKey(n: Note) {
    ':' !in n.scenario && exists d: Date :: ValidDate(d) && n.key == BuildDedupKey(n.scenario, n.receiver, n.source, d)
  }

  ghost predicate Valid(notes: seq<Note>) {
    && DistinctBy(NoteKey, notes)
    && (forall i :: 0 <= i < |notes| ==> OwnKey(notes[i]))
    && (forall id :: id in DigestedIds(notes) ==> DigestedIds(notes)[id] == 1 && 0 <= id < |notes| && notes[id].sentAt.Some?)
  }

  lemma DistinctKeysConcat(a: seq<Note>, b: seq<Note>)
    requires DistinctBy(NoteKey, a) && DistinctBy(NoteKey, b)
    requires forall n :: n in b ==> !KeyStored(a, n.key)
    ensures DistinctBy(NoteKey, a + b)
  {
    forall i, j | 0 <= i < j < |a + b|
      ensures NoteKey((a + b)[i]) != NoteKey((a + b)[j])
    {
      if i < |a| <= j {
        assert (a + b)[j] == b[j - |a|] && b[j - |a|] in b;
      }
    }
  }

  lemma {:induction false} NewNotesDistinct(notes: seq<Note>, prefs: Preferences, e: Event, targets: seq<Uuid>)
    requires forall i, j :: 0 <= i < j < |targets| ==> targets[i] != targets[j]
    ensures DistinctBy(NoteKey, NewNotes(notes, prefs, e, targets))
  {
    hide Stores, PreferenceOf, EventKey;
    if targets != [] {
      var before, r := targets[..|targets| - 1], targets[|targets| - 1];
      NewNotesDistinct(notes, prefs, e, before);
      NewNotesMembers(notes, prefs, e, before);
      var earlier := NewNotes(notes, prefs, e, before);
      forall i | 0 <= i < |earlier|
        ensures NoteKey(earlier[i]) != EventKey(e, r)
      {
        assert earlier[i] in earlier;
        var k :| 0 <= k < |before| && Stores(notes, prefs, e, before[k]) && earlier[i] == NewNote(prefs, e, before[k]);
        if EventKey(e, before[k]) == EventKey(e, r) {
          SameEventKey(e, before[k], r);
        }
      }
    }
  }

  lemma {:induction false} NewDigestsDistinct(notes: seq<Note>, w: Window, now: int, entries: seq<Entry>, receivers: seq<Uuid>)
    requires forall i, j :: 0 <= i < j < |receivers| ==> receivers[i] != receivers[j]
    ensures DistinctBy(NoteKey, NewDigests(notes, w, now, entries, receivers))
  {
    hide KeyStored, EventKey, BuildDigest, DigestEvent;
    if receivers != [] {
      var before, r := receivers[..|receivers| - 1], receivers[|receivers| - 1];
      NewDigestsDistinct(notes, w, now, entries, before);
      NewDigestsAre(notes, w, now, entries, before);
      var earlier := NewDigests(notes, w, now, entries, before);
      forall i | 0 <= i < |earlier|
        ensures NoteKey(earlier[i]) != EventKey(DigestEvent(w, now), r)
      {
        assert earlier[i] in earlier;
        if NoteKey(earlier[i]) == EventKey(DigestEvent(w, now), r) {
          SameEventKey(DigestEvent(w, now), earlier[i].receiver, r);
        }
      }
    }
  }

  lemma SentValid(notes: seq<Note>, prefs: Preferences, channels: seq<Channel>, e: Event, receivers: seq<Uuid>)
    requires Valid(notes) && ':' !in e.scenario && ValidDate(e.date)
    ensures Valid(Sent(notes, prefs, channels, e, receivers))
  {
    hide PreferenceOf, InAppEnabled, Reachable, BuildDedupKey, KeyStored, ValidDate, NewNotes, DigestedIds;
    var targets := Targets(prefs, channels, e, receivers);
    var added := NewNotes(notes, prefs, e, targets);
    TargetsDistinct(prefs, channels, e, receivers);
    NewNotesDistinct(notes, prefs, e, targets);
    NewNotesMembers(notes, prefs, e, targets);
    DistinctKeysConcat(notes, added);
    forall i | 0 <= i < |added|
      ensures added[i].digest == None && OwnKey(added[i])
    {
      assert added[i] in added;
    }
    DigestedConcat(notes, added);
    DigestedNone(added);
  }

  lemma TargetsDistinct(prefs: Preferences, channels: seq<Channel>, e: Event, receivers: seq<Uuid>)
    ensures forall i, j :: 0 <= i < j < |Targets(prefs, channels, e, receivers)| ==>
      Targets(prefs, channels, e, receivers)[i] != Targets(prefs, channels, e, receivers)[j]
  {
    hide Reachable, Filter;
    var same := (r: Uuid) => r;
    UniqueMeans(receivers);
    assert DistinctBy(same, Unique(receivers));
    DistinctFilter(same, Reachable(prefs, channels, e.scenario), Unique(receivers));
    var targets := Targets(prefs, channels, e, receivers);
    forall i, j | 0 <= i < j < |targets|
      ensures targets[i] != targets[j]
    {
      assert same(targets[i]) != same(targets[j]);
    }
  }

  lemma MarkedSame(notes: seq<Note>, w: Window, now: int)
    requires ValidDate(w.date)
    ensures DistinctBy(NoteKey, notes) ==> DistinctBy(NoteKey, Marked(notes, w, now))
    ensures forall i :: 0 <= i < |notes| && OwnKey(notes[i]) ==> OwnKey(Marked(notes, w, now)[i])
    ensures forall key :: KeyStored(Marked(notes, w, now), key) ==> KeyStored(notes, key)
  {
    hide IsPending, BuildDedupKey;
  }

  lemma NewDigestsOwnKey(notes: seq<Note>, w: Window, now: int, entries: seq<Entry>, receivers: seq<Uuid>)
    requires ValidDate(w.date)
    ensures forall n :: n in NewDigests(notes, w, now, entries, receivers) ==> OwnKey(n)
  {
    hide NewDigests, BuildDedupKey;
    NewDigestsAre(notes, w, now, entries, receivers);
  }

  lemma GeneratedValid(notes: seq<Note>, w: Window, now: int)
    requires Valid(notes) && ValidDate(w.date)
    ensures Valid(Generated(notes, w, now))
  {
    hide IsPending, KeyStored, NewDigests, DigestedIds, Pending, DigestReceivers, EventKey, OwnKey, DigestEvent;
    var entries := Pending(notes, w);
    var receivers := DigestReceivers(notes, w);
    var added := NewDigests(notes, w, now, entries, receivers);
    MarkedSame(notes, w, now);
    DigestReceiversDistinct(notes, w);
    NewDigestsDistinct(notes, w, now, entries, receivers);
    NewDigestsAre(notes, w, now, entries, receivers);
    NewDigestsOwnKey(notes, w, now, entries, receivers);
    DistinctKeysConcat(Marked(notes, w, now), added);
    var after := Generated(notes, w, now);
    forall i | 0 <= i < |after|
      ensures OwnKey(after[i])
    {
      if i >= |notes| {
        assert after[i] in added;
      }
    }
    forall id | id in DigestedIds(after)
      ensures DigestedIds(after)[id] == 1 && 0 <= id < |after| && after[id].sentAt.Some?
    {
      RunTakes(notes, w, now, id);
      if 0 <= id < |notes| && IsPending(w, notes[id]) {
        PendingNotSent(w, notes[id]);
      }
    }
  }

  lemma PendingNotSent(w: Window, n: Note)
    requires ValidDate(w.date) && IsPending(w, n)
    ensures n.sentAt == None
  {
  }

  lemma DigestReceiversDistinct(notes: seq<Note>, w: Window)
    requires ValidDate(w.date)
    ensures forall i, j :: 0 <= i < j < |DigestReceivers(notes, w)| ==> DigestReceivers(notes, w)[i] != DigestReceivers(notes, w)[j]
  {
    hide Pending, Map;
    UniqueMeans(Map(ReceiverOf, Pending(notes, w)));
  }

  /** A key is taken only by a notification with the same scenario, receiver, source and day. */
  lemma SuppressedBySame(notes: seq<Note>, e: Event, r: Uuid, n: Note)
    requires Valid(notes) && n in notes && ':' !in e.scenario && ValidDate(e.date)
    requires n.key == EventKey(e, r)
    ensures n.scenario == e.scenario && n.receiver == r && n.source == e.source
    ensures forall d: Date :: ValidDate(d) && n.key == BuildDedupKey(n.scenario, n.receiver, n.source, d) ==> d == e.date
  {
    hide BuildDedupKey, ValidDate, DigestedIds;
    assert OwnKey(n);
    forall d: Date | ValidDate(d) && n.key == BuildDedupKey(n.scenario, n.receiver, n.source, d)
      ensures n.scenario == e.scenario && n.receiver == r && n.source == e.source && d == e.date
    {
      KeyInjective(n.scenario, n.receiver, n.source, d, e.scenario, r, e.source, e.date);
    }
  }

  // ---------------------------------------------------------------- runs

  /** Runs can start from an empty table. */
  lemma EmptyValid()
    ensures Valid([])
  {
    assert DigestedIds([]) == multiset{};
  }

  datatype Command =
    | Send(prefs: Preferences, channels: seq<Channel>, event: Event, receivers: seq<Uuid>)
    | MakeDigests(window: Window, now: int)

  predicate Enabled(c: Command) {
    match c
    case Send(_, _, e, _) => ':' !in e.scenario && ValidDate(e.date)
    case MakeDigests(w, _) => ValidDate(w.date)
  }

  function Apply(notes: seq<Note>, c: Command): seq<Note>
    requires Enabled(c)
  {
    match c
    case Send(prefs, channels, e, receivers) => Sent(notes, prefs, channels, e, receivers)
    case MakeDigests(w, now) => Generated(notes, w, now)
  }

  predicate IsRun(run: seq<Command>) {
    forall i :: 0 <= i < |run| ==> Enabled(run[i])
  }

  ghost function Final(notes: seq<Note>, run: seq<Command>): seq<Note>
    requires IsRun(run)
    decreases |run|
  {
    if run == [] then notes else Final(Apply(notes, run[0]), run[1..])
  }

  /** Over every run of sends and digests, with any preferences and windows: no two notifications
      share a key, and every notification is in at most one digest. */
  lemma {:induction false} RunValid(notes: seq<Note>, run: seq<Command>)
    requires Valid(notes) && IsRun(run)
    ensures Valid(Final(notes, run))
    ensures forall id :: DigestedIds(Final(notes, run))[id] <= 1
    decreases |run|
  {
    hide Valid, Sent, Generated;
    if run == [] {
      AtMostOne(notes);
    } else {
      StepValid(notes, run[0]);
      RunValid(Apply(notes, run[0]), run[1..]);
    }
  }

  lemma AtMostOne(notes: seq<Note>)
    requires Valid(notes)
    ensures forall id :: DigestedIds(notes)[id] <= 1
  {
    hide DigestedIds, OwnKey;
    forall id: int
      ensures DigestedIds(notes)[id] <= 1
    {
      if id in DigestedIds(notes) {
        assert DigestedIds(notes)[id] == 1;
      }
    }
  }

  lemma {:induction false} FinalAppend(notes: seq<Note>, run: seq<Command>, c: Command)
    requires IsRun(run) && Enabled(c)
    ensures IsRun(run + [c]) && Final(notes, run + [c]) == Apply(Final(notes, run), c)
    decreases |run|
  {
    hide Apply, Enabled;
    var longer := run + [c];
    assert forall i :: 0 <= i < |longer| ==> longer[i] == if i < |run| then run[i] else c;
    if run == [] {
      assert longer[1..] == [];
    } else {
      assert longer[1..] == run[1..] + [c];
      FinalAppend(Apply(notes, run[0]), run[1..], c);
    }
  }

  // ---------------------------------------------------------------- one batch of digests

  /** Digest runs for lists of receivers, no receiver in two of them. */
  ghost predicate IsBatch(run: seq<Command>) {
    && (forall i :: 0 <= i < |run| ==> run[i].MakeDigests? && ValidDate(run[i].window.date) && run[i].window.receivers.Some?)
    && forall i, j, u :: 0 <= i < j < |run| && u in run[i].window.receivers.value ==> u !in run[j].window.receivers.value
  }

  /** The receiver of a notification already has a digest of the window's day. */
  predicate HasDigest(notes: seq<Note>, c: Command, receiver: Uuid)
    requires c.MakeDigests?
  {
    KeyStored(notes, EventKey(DigestEvent(c.window, c.now), receiver))
  }

  /** The first run of a batch leaves what the other ones look at. */
  lemma FirstOfBatch(notes: seq<Note>, run: seq<Command>, k: nat)
    requires IsBatch(run) && 0 < k < |run|
    ensures var after := Generated(notes, run[0].window, run[0].now);
      && |after| >= |notes|
      && (forall id :: |notes| <= id < |after| ==> !IsPending(run[k].window, after[id]))
      && (forall id :: 0 <= id < |notes| ==> (IsPending(run[k].window, after[id]) <==> IsPending(run[k].window, notes[id])))
      && (forall u :: u in run[k].window.receivers.value ==> (HasDigest(after, run[k], u) <==> HasDigest(notes, run[k], u)))
  {
    hide KeyStored, EventKey, NewDigests, LocalDay, DigestReceivers, ValidDate, DateText;
    var w, now := run[0].window, run[0].now;
    var added := NewDigests(notes, w, now, Pending(notes, w), DigestReceivers(notes, w));
    var after := Generated(notes, w, now);
    NewDigestsAre(notes, w, now, Pending(notes, w), DigestReceivers(notes, w));
    PendingReceivers(notes, w);
    forall id | |notes| <= id < |after|
      ensures !IsPending(run[k].window, after[id])
    {
      assert after[id] in added;
    }
    forall u | u in run[k].window.receivers.value
      ensures HasDigest(after, run[k], u) <==> HasDigest(notes, run[k], u)
    {
      var key := EventKey(DigestEvent(run[k].window, run[k].now), u);
      KeyInConcat(Marked(notes, w, now), added, key);
      MarkedKeys(notes, w, now, key);
      if KeyStored(added, key) {
        var n := KeyHolder(added, key);
        OtherReceiversKey(w, now, n.receiver, run[k].window, run[k].now, u);
      }
    }
  }

  lemma KeyHolder(notes: seq<Note>, key: string) returns (n: Note)
    requires KeyStored(notes, key)
    ensures n in notes && n.key == key
  {
    var i :| 0 <= i < |notes| && notes[i].key == key;
    n := notes[i];
  }

  lemma MarkedKeys(notes: seq<Note>, w: Window, now: int, key: string)
    requires ValidDate(w.date)
    ensures KeyStored(Marked(notes, w, now), key) <==> KeyStored(notes, key)
  {
    hide IsPending;
    var marked := Marked(notes, w, now);
    assert forall i :: 0 <= i < |notes| ==> marked[i].key == notes[i].key;
  }

  lemma PendingReceivers(notes: seq<Note>, w: Window)
    requires ValidDate(w.date) && w.receivers.Some?
    ensures forall u :: u in DigestReceivers(notes, w) ==> u in w.receivers.value
  {
    hide Pending, Map, LocalDay, ValidDate;
    var receivers := Map(ReceiverOf, Pending(notes, w));
    UniqueMeans(receivers);
    PendingMeans(notes, w);
    forall u | u in receivers
      ensures u in w.receivers.value
    {
      var e := MapOrigin(ReceiverOf, Pending(notes, w), u);
    }
  }

  lemma OtherReceiversKey(v: Window, now: int, r: Uuid, w: Window, later: int, u: Uuid)
    requires ValidDate(v.date) && ValidDate(w.date) && EventKey(DigestEvent(v, now), r) == EventKey(DigestEvent(w, later), u)
    ensures r == u
  {
    hide BuildDedupKey, DateText, ValidDate;
    KeyInjectiveInScenario(DAILY_DIGEST_SCENARIO, r, DateText(v.date), v.date, u, DateText(w.date), w.date);
  }

  /** What a batch does to one identifier: what is pending in one of its windows is marked and put into
      exactly one digest, unless its receiver had a digest of that day before the batch; all else stays. */
  lemma {:induction false} BatchTakes(notes: seq<Note>, run: seq<Command>, id: int)
    requires IsBatch(run)
    ensures IsRun(run) && |Final(notes, run)| >= |notes|
    ensures forall i :: 0 <= i < |run| && 0 <= id < |notes| && IsPending(run[i].window, notes[id]) ==>
              && Final(notes, run)[id] == notes[id].(sentAt := Some(run[i].now))
              && DigestedIds(Final(notes, run))[id] == DigestedIds(notes)[id] + if HasDigest(notes, run[i], notes[id].receiver) then 0 else 1
    ensures (forall i :: 0 <= i < |run| && 0 <= id < |notes| ==> !IsPending(run[i].window, notes[id])) ==>
              && (0 <= id < |notes| ==> Final(notes, run)[id] == notes[id])
              && DigestedIds(Final(notes, run))[id] == DigestedIds(notes)[id]
    decreases |run|
  {
    hide KeyStored, EventKey, DigestedIds, HasDigest, DigestEvent, LocalDay, NewDigests, DigestReceivers, Pending;
    if run != [] {
      var rest := run[1..];
      var w := run[0].window;
      var after := Generated(notes, w, run[0].now);
      assert IsBatch(rest);
      BatchTakes(after, rest, id);
      assert Final(notes, run) == Final(after, rest);
      TakenFirst(notes, run[0], id);
      forall k | 0 < k < |run|
        ensures id >= |notes| && id < |after| ==> !IsPending(run[k].window, after[id])
        ensures 0 <= id < |notes| ==> (IsPending(run[k].window, after[id]) <==> IsPending(run[k].window, notes[id]))
        ensures 0 <= id < |notes| && IsPending(w, notes[id]) ==> !IsPending(run[k].window, notes[id])
        ensures 0 <= id < |notes| && notes[id].receiver in run[k].window.receivers.value ==>
          (HasDigest(after, run[k], notes[id].receiver) <==> HasDigest(notes, run[k], notes[id].receiver))
        ensures rest[k - 1] == run[k]
      {
        FirstOfBatch(notes, run, k);
      }
    }
  }

  lemma TakenFirst(notes: seq<Note>, c: Command, id: int)
    requires c.MakeDigests? && ValidDate(c.window.date)
    ensures var after := Generated(notes, c.window, c.now);
      && |after| >= |notes|
      && (0 <= id < |notes| ==> after[id] == if IsPending(c.window, notes[id]) then notes[id].(sentAt := Some(c.now)) else notes[id])
      && DigestedIds(after)[id] == DigestedIds(notes)[id]
           + if 0 <= id < |notes| && IsPending(c.window, notes[id]) && !HasDigest(notes, c, notes[id].receiver) then 1 else 0
  {
    hide KeyStored, EventKey, DigestEvent, IsPending, NewDigests, DigestedIds, Pending, DigestReceivers;
    RunTakes(notes, c.window, c.now, id);
  }

  // ---------------------------------------------------------------- conservation over runs

  /** Some step of a run marks the notification although its receiver already has a digest of that day. */
  ghost predicate Dropped(notes: seq<Note>, run: seq<Command>, id: nat)
    requires IsRun(run)
    decreases |run|
  {
    run != []
    && ((run[0].MakeDigests? && id < |notes| && IsPending(run[0].window, notes[id]) && HasDigest(notes, run[0], notes[id].receiver))
        || Dropped(Apply(notes, run[0]), run[1..], id))
  }

  predicate IsSent(notes: seq<Note>, id: nat) {
    id < |notes| && notes[id].sentAt.Some?
  }

  /** What one step does to one identifier. */
  lemma StepTakes(notes: seq<Note>, c: Command, id: nat)
    requires Enabled(c)
    ensures var after := Apply(notes, c);
      var taken := c.MakeDigests? && id < |notes| && IsPending(c.window, notes[id]);
      && (IsSent(after, id) <==> IsSent(notes, id) || taken)
      && DigestedIds(after)[id] == DigestedIds(notes)[id] + if taken && !HasDigest(notes, c, notes[id].receiver) then 1 else 0
  {
    hide HasDigest, DigestedIds, Sent, Generated, IsPending, IsSent;
    match c
    case Send(prefs, channels, e, receivers) => SendTakesNone(notes, prefs, channels, e, receivers, id);
    case MakeDigests(_, _) => DigestStepTakes(notes, c, id);
  }

  lemma DigestStepTakes(notes: seq<Note>, c: Command, id: nat)
    requires c.MakeDigests? && ValidDate(c.window.date)
    ensures var after := Generated(notes, c.window, c.now);
      var taken := id < |notes| && IsPending(c.window, notes[id]);
      && (IsSent(after, id) <==> IsSent(notes, id) || taken)
      && DigestedIds(after)[id] == DigestedIds(notes)[id] + if taken && !HasDigest(notes, c, notes[id].receiver) then 1 else 0
  {
    TakenFirst(notes, c, id);
    if id < |notes| {
      hide HasDigest, DigestedIds, Generated, LocalDay, ValidDate;
    } else {
      hide HasDigest, DigestedIds, Generated, IsPending;
      DigestsUnsent(notes, c.window, c.now, id);
    }
  }

  lemma DigestsUnsent(notes: seq<Note>, w: Window, now: int, id: nat)
    requires ValidDate(w.date) && |notes| <= id
    ensures !IsSent(Generated(notes, w, now), id)
  {
    hide NewDigests, Pending, DigestReceivers, KeyStored, EventKey, DateText;
    var added := NewDigests(notes, w, now, Pending(notes, w), DigestReceivers(notes, w));
    NewDigestsAre(notes, w, now, Pending(notes, w), DigestReceivers(notes, w));
    if id < |Generated(notes, w, now)| {
      assert added[id - |notes|] in added;
    }
  }

  lemma SendTakesNone(notes: seq<Note>, prefs: Preferences, channels: seq<Channel>, e: Event, receivers: seq<Uuid>, id: nat)
    ensures var after := Sent(notes, prefs, channels, e, receivers);
      (IsSent(after, id) <==> IsSent(notes, id)) && DigestedIds(after) == DigestedIds(notes)
  {
    hide PreferenceOf, EventKey, KeyStored, NewNotes, DigestedIds, Targets, Stores;
    var targets := Targets(prefs, channels, e, receivers);
    var added := NewNotes(notes, prefs, e, targets);
    NewNotesMembers(notes, prefs, e, targets);
    forall i | 0 <= i < |added|
      ensures added[i].digest == None && added[i].sentAt == None
    {
      assert added[i] in added;
    }
    DigestedConcat(notes, added);
    DigestedNone(added);
  }

  /** What is marked as sent stays so, and no later digest holds it. */
  lemma {:induction false} SentStays(notes: seq<Note>, run: seq<Command>, id: nat)
    requires IsRun(run) && IsSent(notes, id)
    ensures IsSent(Final(notes, run), id) && !Dropped(notes, run, id)
    ensures DigestedIds(Final(notes, run))[id] == DigestedIds(notes)[id]
    decreases |run|
  {
    hide Apply, DigestedIds, HasDigest, LocalDay;
    if run != [] {
      StepTakes(notes, run[0], id);
      SentStays(Apply(notes, run[0]), run[1..], id);
    }
  }

  /** Conservation over every run: what was marked during the run is in exactly one digest, unless it was
      marked when its receiver already had a digest of that day; what is not marked is in none. */
  lemma {:induction false} RunDigestsOnce(notes: seq<Note>, run: seq<Command>, id: nat)
    requires Valid(notes) && IsRun(run) && !IsSent(notes, id)
    ensures DigestedIds(Final(notes, run))[id] == if IsSent(Final(notes, run), id) && !Dropped(notes, run, id) then 1 else 0
    decreases |run|
  {
    UnsentUndigested(notes, id);
    hide Valid, Apply, DigestedIds, HasDigest, LocalDay;
    if run != [] {
      var after := Apply(notes, run[0]);
      StepTakes(notes, run[0], id);
      if IsSent(after, id) {
        SentStays(after, run[1..], id);
      } else {
        StepValid(notes, run[0]);
        RunDigestsOnce(after, run[1..], id);
      }
    }
  }

  lemma UnsentUndigested(notes: seq<Note>, id: nat)
    requires Valid(notes) && !IsSent(notes, id)
    ensures DigestedIds(notes)[id] == 0
  {
    hide DigestedIds, OwnKey;
    assert id !in DigestedIds(notes);
  }

  lemma StepValid(notes: seq<Note>, c: Command)
    requires Valid(notes) && Enabled(c)
    ensures Valid(Apply(notes, c))
  {
    hide Valid;
    match c
    case Send(prefs, channels, e, receivers) => SentValid(notes, prefs, channels, e, receivers);
    case MakeDigests(w, now) => GeneratedValid(notes, w, now);
  }

  // ---------------------------------------------------------------- a notification that is in no digest

  const HOUR := 3_600_000_000

  /** Two notifications of one day around a receiver's move from fourteen hours east of UTC to ten hours
      west: at nine in the morning in the east the digest of the day before is made; half an hour later
      it is still that day in the west. */
  function MoveWest(r: Uuid, d: Date): (run: seq<Command>)
    requires ValidDate(d)
  {
    var prefs := map[(r, "deadline") := Preference(true, DailyDigest, None)];
    var nine := DAY * Ordinal(d) + 19 * HOUR;
    [Send(prefs, [], Event("deadline", "first", d, nine - 12 * HOUR), [r]),
     MakeDigests(Window(d, Some([r]), 14 * HOUR), nine),
     Send(prefs, [], Event("deadline", "second", d, nine + HOUR / 2), [r]),
     MakeDigests(Window(d, Some([r]), -10 * HOUR), nine + DAY)]
  }

  lemma SendOne(notes: seq<Note>, prefs: Preferences, e: Event, r: Uuid)
    requires InAppEnabled(prefs, r, e.scenario) && !KeyStored(notes, EventKey(e, r))
    ensures Sent(notes, prefs, [], e, [r]) == notes + [NewNote(prefs, e, r)]
  {
    hide InAppEnabled, KeyStored, EventKey;
    assert [r][..0] == [];
    assert Unique([r]) == [r];
    FilterOne((u: Uuid) => u, Reachable(prefs, [], e.scenario), [r], r);
    assert Targets(prefs, [], e, [r]) == [r];
    assert NewNotes(notes, prefs, e, []) == [];
  }

  lemma DigestOne(n: Note, w: Window, now: int)
    requires ValidDate(w.date) && IsPending(w, n) && !KeyStored([n], EventKey(DigestEvent(w, now), n.receiver))
    ensures var after := Generated([n], w, now);
      |after| == 2 && after[0] == n.(sentAt := Some(now)) && after[1].key == EventKey(DigestEvent(w, now), n.receiver)
  {
    hide IsPending, KeyStored, EventKey, BuildDigest, DateText;
    assert [n][..0] == [] && [n.receiver][..0] == [];
    assert Pending([n], w) == [Entry(0, n)];
    assert Map(ReceiverOf, [Entry(0, n)]) == [n.receiver];
    var none: seq<Uuid> := [];
    assert Unique(none) == [] && Unique([n.receiver]) == [n.receiver];
    assert DigestReceivers([n], w) == [n.receiver];
    assert NewDigests([n], w, now, [Entry(0, n)], []) == [];
    assert NewDigests([n], w, now, [Entry(0, n)], [n.receiver]) == [DigestNote(w, now, [Entry(0, n)], n.receiver)];
  }

  lemma ScenarioOfKey(e: Event, r: Uuid)
    requires |e.scenario| >= 2
    ensures |EventKey(e, r)| >= 2 && EventKey(e, r)[1] == e.scenario[1]
  {
    hide UuidText, DayText;
  }

  lemma DropsLast(run: seq<Command>, digested: seq<Note>, a: Note, b: Note)
    requires IsRun(run) && |run| == 4 && |digested| == 2
    requires Apply([], run[0]) == [a] && Apply([a], run[1]) == digested && Apply(digested, run[2]) == digested + [b]
    requires run[3].MakeDigests? && IsPending(run[3].window, b) && HasDigest(digested + [b], run[3], b.receiver)
    ensures IsSent(Final([], run), 2) && DigestedIds(Final([], run))[2] == 0
  {
    EmptyValid();
    var notes := digested + [b];
    hide Valid, Apply, DigestedIds, HasDigest, IsPending;
    assert Dropped(notes, run[3..], 2) && run[2..][1..] == run[3..] && run[1..][1..] == run[2..];
    assert Dropped(digested, run[2..], 2);
    assert Dropped([a], run[1..], 2);
    assert Dropped([], run, 2);
    assert Final([], run) == Final([a], run[1..]) == Final(digested, run[2..]) == Final(notes, run[3..]);
    assert Final(notes, run[3..]) == Apply(notes, run[3]);
    StepTakes(notes, run[3], 2);
    RunDigestsOnce([], run, 2);
  }

  /** The second notification of `MoveWest` is marked as sent but in no digest. */
  lemma LateNotificationDropped(r: Uuid, d: Date)
    requires ValidDate(d)
    ensures IsRun(MoveWest(r, d)) && IsSent(Final([], MoveWest(r, d)), 2)
    ensures DigestedIds(Final([], MoveWest(r, d)))[2] == 0
  {
    MoveWestPending(r, d);
    MoveWestKeys(r, d);
    SecondDropped(MoveWest(r, d), r);
  }

  /** Send, digest, send, digest for one receiver and day. */
  ghost predicate TwoRounds(run: seq<Command>, r: Uuid) {
    && |run| == 4 && IsRun(run)
    && run[0].Send? && run[0].channels == [] && run[0].receivers == [r] && InAppEnabled(run[0].prefs, r, run[0].event.scenario)
    && run[1].MakeDigests? && IsPending(run[1].window, NewNote(run[0].prefs, run[0].event, r))
    && run[2].Send? && run[2].channels == [] && run[2].receivers == [r] && InAppEnabled(run[2].prefs, r, run[2].event.scenario)
    && run[3].MakeDigests? && IsPending(run[3].window, NewNote(run[2].prefs, run[2].event, r))
    && var key := EventKey(DigestEvent(run[1].window, run[1].now), r);
    && EventKey(DigestEvent(run[3].window, run[3].now), r) == key
    && EventKey(run[0].event, r) != key && EventKey(run[2].event, r) != key
    && EventKey(run[0].event, r) != EventKey(run[2].event, r)
  }

  lemma FirstRound(c: Command, d: Command, r: Uuid) returns (a: Note, digested: seq<Note>)
    requires Enabled(c) && c.Send? && c.channels == [] && c.receivers == [r] && InAppEnabled(c.prefs, r, c.event.scenario)
    requires Enabled(d) && d.MakeDigests? && IsPending(d.window, NewNote(c.prefs, c.event, r))
    requires EventKey(c.event, r) != EventKey(DigestEvent(d.window, d.now), r)
    ensures Apply([], c) == [a] && Apply([a], d) == digested
    ensures |digested| == 2 && digested[0].key == EventKey(c.event, r) && digested[1].key == EventKey(DigestEvent(d.window, d.now), r)
  {
    a := NewNote(c.prefs, c.event, r);
    hide EventKey, ValidDate, Sent, Generated, DigestEvent, IsPending, KeyStored, InAppEnabled, PreferenceOf;
    OnlyKeys([], EventKey(c.event, r));
    SendOne([], c.prefs, c.event, r);
    assert [] + [a] == [a];
    OnlyKeys([a], EventKey(DigestEvent(d.window, d.now), r));
    DigestOne(a, d.window, d.now);
    digested := Apply([a], d);
  }

  lemma NextSend(digested: seq<Note>, c: Command, r: Uuid) returns (b: Note)
    requires Enabled(c) && c.Send? && c.channels == [] && c.receivers == [r] && InAppEnabled(c.prefs, r, c.event.scenario)
    requires forall i :: 0 <= i < |digested| ==> digested[i].key != EventKey(c.event, r)
    ensures b == NewNote(c.prefs, c.event, r) && Apply(digested, c) == digested + [b]
  {
    b := NewNote(c.prefs, c.event, r);
    hide EventKey, Sent, InAppEnabled, KeyStored;
    OnlyKeys(digested, EventKey(c.event, r));
    SendOne(digested, c.prefs, c.event, r);
  }

  lemma SecondDropped(run: seq<Command>, r: Uuid)
    requires TwoRounds(run, r)
    ensures IsSent(Final([], run), 2) && DigestedIds(Final([], run))[2] == 0
  {
    hide EventKey, ValidDate, Apply, DigestEvent, IsPending, KeyStored, Final, IsSent, DigestedIds, InAppEnabled, PreferenceOf;
    var a, digested := FirstRound(run[0], run[1], r);
    var b := NextSend(digested, run[2], r);
    HasKeyAt(digested + [b], 1);
    DropsLast(run, digested, a, b);
  }

  lemma OnlyKeys(notes: seq<Note>, key: string)
    requires forall i :: 0 <= i < |notes| ==> notes[i].key != key
    ensures !KeyStored(notes, key)
  {
  }

  lemma HasKeyAt(notes: seq<Note>, i: nat)
    requires i < |notes|
    ensures KeyStored(notes, notes[i].key)
  {
  }

  /** Both notifications of `MoveWest` are of the day of the digest that follows them. */
  lemma MoveWestPending(r: Uuid, d: Date)
    requires ValidDate(d)
    ensures IsRun(MoveWest(r, d))
    ensures var run := MoveWest(r, d);
      && InAppEnabled(run[0].prefs, r, "deadline") && InAppEnabled(run[2].prefs, r, "deadline")
      && IsPending(run[1].window, NewNote(run[0].prefs, run[0].event, r))
      && IsPending(run[3].window, NewNote(run[2].prefs, run[2].event, r))
  {
    hide EventKey, Ordinal, ValidDate;
    var run := MoveWest(r, d);
    LocalDayIsUtcRange(run[0].event.now, 14 * HOUR, Ordinal(d));
    LocalDayIsUtcRange(run[2].event.now, -10 * HOUR, Ordinal(d));
  }

  lemma MoveWestKeys(r: Uuid, d: Date)
    requires ValidDate(d)
    ensures var run := MoveWest(r, d);
      var key := EventKey(DigestEvent(run[1].window, run[1].now), r);
      && EventKey(DigestEvent(run[3].window, run[3].now), r) == key
      && EventKey(run[0].event, r) != key && EventKey(run[2].event, r) != key
      && EventKey(run[0].event, r) != EventKey(run[2].event, r)
  {
    var run := MoveWest(r, d);
    hide BuildDedupKey, Ordinal;
    ScenarioOfKey(run[0].event, r);
    ScenarioOfKey(run[2].event, r);
    ScenarioOfKey(DigestEvent(run[1].window, run[1].now), r);
    if EventKey(run[0].event, r) == EventKey(run[2].event, r) {
      KeyInjectiveInScenario("deadline", r, "first", d, r, "second", d);
    }
  }
}
