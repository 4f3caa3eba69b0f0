/** The notification service: sending with same-day suppression, digests, and the hourly batch that
    digests for the zones in which it is nine o'clock. */
module NotificationServices {
  import opened Wrappers
  import opened Calendar
  import opened Snapshots
  import opened Sequences
  import DedupKeys
  import opened Notifications
  import opened DigestRuns

  datatype DigestResult = DigestResult(sourceCount: nat, digestCount: nat)

  datatype Zone = Zone(key: string, offset: int)

  datatype ReceiverZone = ReceiverZone(receiver: Uuid, zone: Zone)

  /** The receivers of one zone whose digest of one local day is due. */
  datatype DueGroup = DueGroup(zone: Zone, day: int, receivers: seq<Uuid>)

  datatype BatchResult = BatchResult(zoneCount: nat, receiverCount: nat, sourceCount: nat, digestCount: nat)

  predicate NineOClock(now: int, z: Zone) {
    (now + z.offset) % DAY / HOUR == 9
  }

  function Yesterday(now: int, z: Zone): int {
    LocalDay(now, z.offset) - 1
  }

  function IsDue(now: int): ReceiverZone -> bool {
    (rz: ReceiverZone) => NineOClock(now, rz.zone)
  }

  function GroupWindow(g: DueGroup): (w: Window)
    requires g.day >= 1
    ensures ValidDate(w.date)
  {
    Window(FromOrdinal(g.day), Some(g.receivers), g.zone.offset)
  }

  function YesterdayWindow(now: int, rz: ReceiverZone): (w: Window)
    requires Yesterday(now, rz.zone) >= 1
    ensures ValidDate(w.date)
  {
    Window(FromOrdinal(Yesterday(now, rz.zone)), Some([rz.receiver]), rz.zone.offset)
  }

  ghost predicate Covers(groups: seq<DueGroup>, now: int, rz: ReceiverZone) {
    exists i :: 0 <= i < |groups| && groups[i].zone == rz.zone && groups[i].day == Yesterday(now, rz.zone) && rz.receiver in groups[i].receivers
  }

  function SizeOf(groups: seq<DueGroup>): nat {
    if groups == [] then 0 else SizeOf(groups[..|groups| - 1]) + |groups[|groups| - 1].receivers|
  }

  lemma {:induction false} SizeOfUpdate(groups: seq<DueGroup>, i: nat, r: Uuid)
    requires i < |groups|
    ensures SizeOf(groups[i := groups[i].(receivers := groups[i].receivers + [r])]) == SizeOf(groups) + 1
  {
    var updated := groups[i := groups[i].(receivers := groups[i].receivers + [r])];
    if i < |groups| - 1 {
      SizeOfUpdate(groups[..|groups| - 1], i, r);
      assert updated[..|groups| - 1] == groups[..|groups| - 1][i := groups[i].(receivers := groups[i].receivers + [r])];
    } else {
      assert updated[..|groups| - 1] == groups[..|groups| - 1];
    }
  }

  /** Some due receiver `u` belongs to the group. */
  ghost predicate DueIn(zones: seq<ReceiverZone>, now: int, g: DueGroup, u: Uuid) {
    exists rz :: rz in zones && NineOClock(now, rz.zone) && rz.receiver == u && rz.zone == g.zone && Yesterday(now, rz.zone) == g.day
  }

  /** `receivers_by_timezone_and_date`: exactly the due receivers, one group for each zone and local day. */
  ghost predicate DueGroupsOf(groups: seq<DueGroup>, now: int, zones: seq<ReceiverZone>) {
    && SizeOf(groups) == |Filter(IsDue(now), zones)|
    && (forall rz :: rz in zones && NineOClock(now, rz.zone) ==> Covers(groups, now, rz))
    && (forall i, u :: 0 <= i < |groups| && u in groups[i].receivers ==> DueIn(zones, now, groups[i], u))
    && (forall i :: 0 <= i < |groups| ==> groups[i].receivers != [])
    && forall i, j :: 0 <= i < j < |groups| ==> groups[i].zone != groups[j].zone || groups[i].day != groups[j].day
  }

  function IsGroupOf(now: int, rz: ReceiverZone): DueGroup -> bool {
    (g: DueGroup) => g.zone == rz.zone && g.day == Yesterday(now, rz.zone)
  }

  /** The receiver is appended to the group of its zone and local day, or starts one. */
  function WithReceiver(groups: seq<DueGroup>, now: int, rz: ReceiverZone): seq<DueGroup> {
    match FirstIndex(groups, IsGroupOf(now, rz))
    case None => groups + [DueGroup(rz.zone, Yesterday(now, rz.zone), [rz.receiver])]
    case Some(i) => groups[i := groups[i].(receivers := groups[i].receivers + [rz.receiver])]
  }

  lemma WithReceiverSize(groups: seq<DueGroup>, now: int, rz: ReceiverZone)
    ensures SizeOf(WithReceiver(groups, now, rz)) == SizeOf(groups) + 1
  {
    match FirstIndex(groups, IsGroupOf(now, rz))
    case None => assert WithReceiver(groups, now, rz)[..|groups|] == groups;
    case Some(i) => SizeOfUpdate(groups, i, rz.receiver);
  }

  /** What the groups hold after one more receiver. */
  lemma WithReceiverMeans(groups: seq<DueGroup>, now: int, rz: ReceiverZone)
    requires forall i, j :: 0 <= i < j < |groups| ==> groups[i].zone != groups[j].zone || groups[i].day != groups[j].day
    ensures var longer := WithReceiver(groups, now, rz);
      && Covers(longer, now, rz)
      && (forall x :: Covers(groups, now, x) ==> Covers(longer, now, x))
      && (forall i, u :: 0 <= i < |longer| && u in longer[i].receivers ==>
            || (u == rz.receiver && longer[i].zone == rz.zone && longer[i].day == Yesterday(now, rz.zone))
            || (i < |groups| && u in groups[i].receivers && longer[i].zone == groups[i].zone && longer[i].day == groups[i].day))
      && (forall i :: 0 <= i < |longer| && (i < |groups| ==> groups[i].receivers != []) ==> longer[i].receivers != [])
      && forall i, j :: 0 <= i < j < |longer| ==> longer[i].zone != longer[j].zone || longer[i].day != longer[j].day
  {
    hide Yesterday;
    var longer := WithReceiver(groups, now, rz);
    var at := match FirstIndex(groups, IsGroupOf(now, rz)) case None => |groups| case Some(i) => i;
    assert IsGroupOf(now, rz)(longer[at]) && rz.receiver in longer[at].receivers;
    assert forall i :: 0 <= i < |groups| ==>
      longer[i].zone == groups[i].zone && longer[i].day == groups[i].day && forall u :: u in groups[i].receivers ==> u in longer[i].receivers;
    if at == |groups| {
      assert forall i :: 0 <= i < |groups| ==> !IsGroupOf(now, rz)(groups[i]);
    }
    forall x | Covers(groups, now, x)
      ensures Covers(longer, now, x)
    {
      var i :| 0 <= i < |groups| && groups[i].zone == x.zone && groups[i].day == Yesterday(now, x.zone) && x.receiver in groups[i].receivers;
      assert longer[i].zone == groups[i].zone && x.receiver in longer[i].receivers;
    }
  }

  lemma NoGroups(now: int)
    ensures DueGroupsOf([], now, [])
  {
  }

  lemma GroupsNext(groups: seq<DueGroup>, now: int, zones: seq<ReceiverZone>, rz: ReceiverZone)
    requires DueGroupsOf(groups, now, zones)
    ensures DueGroupsOf(if NineOClock(now, rz.zone) then WithReceiver(groups, now, rz) else groups, now, zones + [rz])
  {
    hide NineOClock, Yesterday, SizeOf, Filter, Covers;
    FilterAppend(IsDue(now), zones, rz);
    forall g, u | DueIn(zones, now, g, u)
      ensures DueIn(zones + [rz], now, g, u)
    {
      var x :| x in zones && NineOClock(now, x.zone) && x.receiver == u && x.zone == g.zone && Yesterday(now, x.zone) == g.day;
      assert x in zones + [rz];
    }
    if NineOClock(now, rz.zone) {
      assert rz in zones + [rz];
      WithReceiverSize(groups, now, rz);
      WithReceiverMeans(groups, now, rz);
      var longer := WithReceiver(groups, now, rz);
      forall i, u | 0 <= i < |longer| && u in longer[i].receivers
        ensures DueIn(zones + [rz], now, longer[i], u)
      {
        if i < |groups| && u in groups[i].receivers && longer[i].zone == groups[i].zone && longer[i].day == groups[i].day {
          assert DueIn(zones + [rz], now, groups[i], u);
        }
      }
    }
  }

  // ---------------------------------------------------------------- the batch as a run

  ghost predicate DaysValid(groups: seq<DueGroup>) {
    forall i :: 0 <= i < |groups| ==> groups[i].day >= 1
  }

  /** The digest runs of a batch; each one reads the clock again. */
  ghost function BatchRun(groups: seq<DueGroup>, clock: nat -> int): (run: seq<Command>)
    requires DaysValid(groups)
    ensures |run| == |groups| && forall i :: 0 <= i < |run| ==> run[i] == MakeDigests(GroupWindow(groups[i]), clock(i))
  {
    seq(|groups|, i requires 0 <= i < |groups| => MakeDigests(GroupWindow(groups[i]), clock(i)))
  }

  function ZoneReceiver(rz: ReceiverZone): Uuid {
    rz.receiver
  }

  lemma GroupDays(groups: seq<DueGroup>, now: int, zones: seq<ReceiverZone>)
    requires DueGroupsOf(groups, now, zones) && forall rz :: rz in zones ==> Yesterday(now, rz.zone) >= 1
    ensures DaysValid(groups)
  {
    hide Yesterday, NineOClock, SizeOf, Filter, Covers;
    forall i | 0 <= i < |groups|
      ensures groups[i].day >= 1
    {
      assert DueIn(zones, now, groups[i], groups[i].receivers[0]);
    }
  }

  lemma RunOfBatch(groups: seq<DueGroup>, clock: nat -> int, now: int, zones: seq<ReceiverZone>)
    requires DueGroupsOf(groups, now, zones) && DistinctBy(ZoneReceiver, zones) && DaysValid(groups)
    ensures IsBatch(BatchRun(groups, clock))
  {
    hide Yesterday, NineOClock, SizeOf, Filter, Covers, ValidDate;
    var run := BatchRun(groups, clock);
    forall i, j, u | 0 <= i < j < |run| && u in groups[i].receivers
      ensures u !in groups[j].receivers
    {
      if u in groups[j].receivers {
        assert DueIn(zones, now, groups[i], u) && DueIn(zones, now, groups[j], u);
        var x :| x in zones && x.receiver == u && x.zone == groups[i].zone && Yesterday(now, x.zone) == groups[i].day;
        var y :| y in zones && y.receiver == u && y.zone == groups[j].zone && Yesterday(now, y.zone) == groups[j].day;
        DistinctMember(ZoneReceiver, zones, x, y);
      }
    }
  }

  /** The notification is marked, and is in one more digest than before, unless its receiver already
      had one of that day. */
  ghost predicate DigestedOnce(before: seq<Note>, after: seq<Note>, w: Window, id: nat)
    requires id < |before| <= |after|
  {
    && after[id].sentAt.Some? && after[id] == before[id].(sentAt := after[id].sentAt)
    && DigestedIds(after)[id] == DigestedIds(before)[id] + if HasDigest(before, MakeDigests(w, 0), before[id].receiver) then 0 else 1
  }

  /** In the receiver's zone it is between nine and ten o'clock, and the notification was created yesterday and
      waits for a digest. */
  predicate DueToday(now: int, zones: seq<ReceiverZone>, rz: ReceiverZone, n: Note) {
    var local := now + rz.zone.offset;
    var midnight := local - local % DAY;
    && rz in zones && midnight + 9 * HOUR <= local < midnight + 10 * HOUR
    && n.receiver == rz.receiver && n.mode == DailyDigest && n.sentAt == None
    && midnight - DAY <= n.createdAt + rz.zone.offset < midnight
  }

  lemma DueTodayMeans(now: int, zones: seq<ReceiverZone>, rz: ReceiverZone, n: Note)
    requires rz in zones ==> Yesterday(now, rz.zone) >= 1
    ensures DueToday(now, zones, rz, n) <==> rz in zones && NineOClock(now, rz.zone) && IsPending(YesterdayWindow(now, rz), n)
  {
    hide ValidDate, Ordinal, FromOrdinal;
    var local := now + rz.zone.offset;
    NineMeans(local);
    LocalDayIsUtcRange(n.createdAt, rz.zone.offset, Yesterday(now, rz.zone));
    DayStart(local);
  }

  lemma NineMeans(local: int)
    ensures local % DAY / HOUR == 9 <==> 9 * HOUR <= local % DAY < 10 * HOUR
  {
  }

  lemma DayStart(local: int)
    ensures local - local % DAY == DAY * (local / DAY)
  {
  }

  /** What the hourly batch does to every identifier. */
  ghost predicate BatchDigests(before: seq<Note>, after: seq<Note>, now: int, zones: seq<ReceiverZone>)
    requires forall rz :: rz in zones ==> Yesterday(now, rz.zone) >= 1
  {
    && |before| <= |after|
    && (forall id, rz :: 0 <= id < |before| && rz in zones && DueToday(now, zones, rz, before[id]) ==> DigestedOnce(before, after, YesterdayWindow(now, rz), id))
    && (forall id :: 0 <= id < |before| && (forall rz :: !DueToday(now, zones, rz, before[id])) ==>
          after[id] == before[id] && DigestedIds(after)[id] == DigestedIds(before)[id])
    && (forall id: int :: !(0 <= id < |before|) ==> DigestedIds(after)[id] == DigestedIds(before)[id])
  }

  lemma BatchMeans(before: seq<Note>, groups: seq<DueGroup>, clock: nat -> int, now: int, zones: seq<ReceiverZone>)
    requires forall rz :: rz in zones ==> Yesterday(now, rz.zone) >= 1
    requires DueGroupsOf(groups, now, zones) && DaysValid(groups) && IsBatch(BatchRun(groups, clock))
    ensures IsRun(BatchRun(groups, clock)) && BatchDigests(before, Final(before, BatchRun(groups, clock)), now, zones)
  {
    hide Yesterday, NineOClock, SizeOf, Filter, Covers, ValidDate, DigestedIds, HasDigest, IsPending, IsBatch, Final, DueGroupsOf, DueToday;
    var run := BatchRun(groups, clock);
    forall id: int
      ensures IsRun(run) && |before| <= |Final(before, run)|
      ensures !(0 <= id < |before|) ==> DigestedIds(Final(before, run))[id] == DigestedIds(before)[id]
      ensures 0 <= id < |before| && (forall rz :: !DueToday(now, zones, rz, before[id])) ==>
        Final(before, run)[id] == before[id] && DigestedIds(Final(before, run))[id] == DigestedIds(before)[id]
    {
      BatchTakes(before, run, id);
      forall i | 0 <= i < |run| && 0 <= id < |before| && IsPending(run[i].window, before[id])
        ensures exists rz :: DueToday(now, zones, rz, before[id])
      {
        var rz := ZoneOfGroup(groups, now, zones, i, before[id]);
      }
    }
    forall id, rz | 0 <= id < |before| && rz in zones && DueToday(now, zones, rz, before[id])
      ensures DigestedOnce(before, Final(before, run), YesterdayWindow(now, rz), id)
    {
      BatchTakes(before, run, id);
      DueTodayMeans(now, zones, rz, before[id]);
      var i := GroupOfZone(groups, now, zones, rz, before[id]);
      SameDay(before, run[i], MakeDigests(YesterdayWindow(now, rz), 0), before[id].receiver);
    }
  }

  lemma SameDay(notes: seq<Note>, c: Command, d: Command, u: Uuid)
    requires c.MakeDigests? && d.MakeDigests? && c.window.date == d.window.date
    ensures HasDigest(notes, c, u) <==> HasDigest(notes, d, u)
  {
    hide DedupKeys.BuildDedupKey, KeyStored;
  }

  lemma ZoneOfGroup(groups: seq<DueGroup>, now: int, zones: seq<ReceiverZone>, i: nat, n: Note) returns (rz: ReceiverZone)
    requires forall x :: x in zones ==> Yesterday(now, x.zone) >= 1
    requires DueGroupsOf(groups, now, zones) && DaysValid(groups) && i < |groups| && IsPending(GroupWindow(groups[i]), n)
    ensures DueToday(now, zones, rz, n)
  {
    hide Yesterday, NineOClock, SizeOf, Filter, Covers, ValidDate, FromOrdinal, LocalDay, DueToday;
    assert DueIn(zones, now, groups[i], n.receiver);
    rz :| rz in zones && NineOClock(now, rz.zone) && rz.receiver == n.receiver && rz.zone == groups[i].zone && Yesterday(now, rz.zone) == groups[i].day;
    DueTodayMeans(now, zones, rz, n);
  }

  lemma GroupOfZone(groups: seq<DueGroup>, now: int, zones: seq<ReceiverZone>, rz: ReceiverZone, n: Note) returns (i: nat)
    requires forall x :: x in zones ==> Yesterday(now, x.zone) >= 1
    requires DueGroupsOf(groups, now, zones) && DaysValid(groups) && DueToday(now, zones, rz, n)
    ensures i < |groups| && IsPending(GroupWindow(groups[i]), n) && GroupWindow(groups[i]).date == YesterdayWindow(now, rz).date
  {
    hide Yesterday, NineOClock, SizeOf, Filter, ValidDate, FromOrdinal, LocalDay, DueToday;
    DueTodayMeans(now, zones, rz, n);
    assert Covers(groups, now, rz);
    i :| 0 <= i < |groups| && groups[i].zone == rz.zone && groups[i].day == Yesterday(now, rz.zone) && rz.receiver in groups[i].receivers;
  }

  class NotificationService {
    const channels: seq<Channel>
    var notes: seq<Note>
    var prefs: Preferences
    var outbox: seq<Message>

    constructor (channels: seq<Channel>, notes: seq<Note>, prefs: Preferences)
      ensures this.channels == channels && this.notes == notes && this.prefs == prefs && outbox == []
    {
      this.channels, this.notes, this.prefs, outbox := channels, notes, prefs, [];
    }

    method SendToChannels(e: Event, r: Uuid)
      modifies this`outbox
      ensures outbox == old(outbox) + MessagesTo(prefs, channels, e, r)
    {
      hide EventKey;
      var preference := PreferenceOf(prefs, r, e.scenario);
      var i := 0;
      while i < |channels|
        invariant 0 <= i <= |channels|
        invariant outbox == old(outbox) + MessagesTo(prefs, channels[..i], e, r)
      {
        assert channels[..i + 1][..i] == channels[..i];
        if ChannelEnabled(preference, channels[i]) {
          outbox := outbox + [Message(channels[i], r, EventKey(e, r))];
        }
        i := i + 1;
      }
      assert channels[..i] == channels;
    }

    /** `existing` is read before anything is added. */
    method SendExternalChannels(e: Event, targets: seq<Uuid>, existing: seq<Note>)
      modifies this`outbox
      ensures outbox == old(outbox) + Messages(existing, prefs, channels, e, targets)
    {
      hide EventKey, KeyStored, MessagesTo;
      var i := 0;
      while i < |targets|
        invariant 0 <= i <= |targets|
        invariant outbox == old(outbox) + Messages(existing, prefs, channels, e, targets[..i])
      {
        assert targets[..i + 1][..i] == targets[..i];
        if !KeyStored(existing, EventKey(e, targets[i])) {
          SendToChannels(e, targets[i]);
        }
        i := i + 1;
      }
      assert targets[..i] == targets;
    }

    /** Creates in-app notifications and messages the external channels, skipping same-day duplicates. */
    method Send(e: Event, receivers: seq<Uuid>) returns (added: seq<Note>)
      modifies this`notes, this`outbox
      ensures notes == old(notes) + added == Sent(old(notes), prefs, channels, e, receivers)
      ensures outbox == old(outbox) + Messages(old(notes), prefs, channels, e, Targets(prefs, channels, e, receivers))
      ensures forall n :: n in added ==> n.receiver in receivers && IsNoteFor(n, prefs, e, n.receiver)
      ensures forall r :: (exists n :: n in added && n.receiver == r)
                          <==> r in receivers && IsOn(prefs, r, e.scenario, InApp) && !KeyStored(old(notes), EventKey(e, r))
      ensures forall m :: m in outbox[|old(outbox)|..] <==>
                m.receiver in receivers && m.channel in channels && IsOn(prefs, m.receiver, e.scenario, m.channel)
                && m.key == EventKey(e, m.receiver) && !KeyStored(old(notes), m.key)
    {
      SendMeans(notes, prefs, channels, e, receivers);
      hide EventKey, KeyStored, IsOn, IsNoteFor, NewNotes, Messages, Targets;
      ghost var before := outbox;
      added := SendInSteps(e, receivers);
      assert outbox[|before|..] == Messages(old(notes), prefs, channels, e, Targets(prefs, channels, e, receivers));
    }

    method SendInSteps(e: Event, receivers: seq<Uuid>) returns (added: seq<Note>)
      modifies this`notes, this`outbox
      ensures notes == old(notes) + added == Sent(old(notes), prefs, channels, e, receivers)
      ensures added == NewNotes(old(notes), prefs, e, Targets(prefs, channels, e, receivers))
      ensures outbox == old(outbox) + Messages(old(notes), prefs, channels, e, Targets(prefs, channels, e, receivers))
    {
      hide EventKey, KeyStored, Reachable, PreferenceOf, InAppEnabled;
      added := [];
      var unique := CollectUnique(receivers);
      var targets := Filter(Reachable(prefs, channels, e.scenario), unique);
      var existing := notes;
      var i := 0;
      while i < |targets|
        invariant 0 <= i <= |targets|
        invariant added == NewNotes(existing, prefs, e, targets[..i])
      {
        assert targets[..i + 1][..i] == targets[..i];
        var r := targets[i];
        if InAppEnabled(prefs, r, e.scenario) && !KeyStored(existing, EventKey(e, r)) {
          added := added + [NewNote(prefs, e, r)];
        }
        i := i + 1;
      }
      assert targets[..i] == targets;
      notes := notes + added;
      SendExternalChannels(e, targets, existing);
    }

    method ListPendingDigestNotifications(w: Window) returns (pending: seq<Entry>)
      requires ValidDate(w.date)
      ensures pending == Pending(notes, w)
    {
      hide IsPending;
      pending := [];
      var i := 0;
      while i < |notes|
        invariant 0 <= i <= |notes| && pending == Pending(notes[..i], w)
      {
        assert notes[..i + 1][..i] == notes[..i];
        if IsPending(w, notes[i]) {
          pending := pending + [Entry(i, notes[i])];
        }
        i := i + 1;
      }
      assert notes[..i] == notes;
    }

    /** `notifications_by_receiver`: the keys in order of first use, and the list of each. */
    method GroupByReceiver(pending: seq<Entry>) returns (order: seq<Uuid>, groups: map<Uuid, seq<Entry>>)
      ensures order == Unique(Map(ReceiverOf, pending))
      ensures forall r :: r in order <==> r in groups
      ensures forall r :: r in groups ==> groups[r] == Filter(HasKey(ReceiverOf, r), pending)
    {
      hide Filter;
      order, groups := [], map[];
      var i := 0;
      assert Map(ReceiverOf, pending[..0]) == [];
      while i < |pending|
        invariant 0 <= i <= |pending|
        invariant order == Unique(Map(ReceiverOf, pending[..i]))
        invariant forall r :: r in order <==> r in groups
        invariant forall r :: r in groups ==> groups[r] == Filter(HasKey(ReceiverOf, r), pending[..i])
      {
        var r := pending[i].note.receiver;
        ghost var before, keys := pending[..i], Map(ReceiverOf, pending[..i]);
        assert pending[..i + 1] == before + [pending[i]];
        NextKey(before, pending[i]);
        GroupsGrow(before, pending[i]);
        if r in groups {
          groups := groups[r := groups[r] + [pending[i]]];
        } else {
          groups := groups[r := [pending[i]]];
          order := order + [r];
        }
        i := i + 1;
      }
      assert pending[..i] == pending;
    }

    lemma NextKey(before: seq<Entry>, e: Entry)
      ensures var keys := Map(ReceiverOf, before);
        && Unique(Map(ReceiverOf, before + [e])) == (if e.note.receiver in Unique(keys) then Unique(keys) else Unique(keys) + [e.note.receiver])
        && (e.note.receiver !in Unique(keys) ==> Filter(HasKey(ReceiverOf, e.note.receiver), before) == [])
    {
      hide Map, Filter;
      var keys := Map(ReceiverOf, before);
      UniqueMeans(keys);
      MapConcat(ReceiverOf, before, [e]);
      assert Map(ReceiverOf, [e]) == [e.note.receiver];
      assert (keys + [e.note.receiver])[..|keys|] == keys;
      if e.note.receiver !in Unique(keys) {
        forall x | x in before
          ensures x.note.receiver != e.note.receiver
        {
          MapMember(ReceiverOf, before, x);
          assert ReceiverOf(x) in keys;
        }
        FilterNone(HasKey(ReceiverOf, e.note.receiver), before);
      }
    }

    lemma GroupsGrow(before: seq<Entry>, e: Entry)
      ensures forall r: Uuid ::
        Filter(HasKey(ReceiverOf, r), before + [e]) == Filter(HasKey(ReceiverOf, r), before) + if r == e.note.receiver then [e] else []
    {
      forall r: Uuid
        ensures Filter(HasKey(ReceiverOf, r), before + [e]) == Filter(HasKey(ReceiverOf, r), before) + if r == e.note.receiver then [e] else []
      {
        GroupGrows(before, e, r);
      }
    }

    lemma GroupGrows(before: seq<Entry>, e: Entry, r: Uuid)
      ensures Filter(HasKey(ReceiverOf, r), before + [e]) == Filter(HasKey(ReceiverOf, r), before) + if r == e.note.receiver then [e] else []
    {
      var p := HasKey(ReceiverOf, r);
      assert p(e) <==> ReceiverOf(e) == r;
      FilterAppend(p, before, e);
    }

    method BuildDigests(w: Window, now: int, order: seq<Uuid>, groups: map<Uuid, seq<Entry>>, ghost pending: seq<Entry>)
      returns (digests: seq<Note>)
      requires forall r :: r in order ==> r in groups && groups[r] == Filter(HasKey(ReceiverOf, r), pending)
      ensures digests == NewDigests(notes, w, now, pending, order)
    {
      hide KeyStored, EventKey, BuildDigest, DigestEvent, Filter;
      digests := [];
      var i := 0;
      while i < |order|
        invariant 0 <= i <= |order| && digests == NewDigests(notes, w, now, pending, order[..i])
      {
        assert order[..i + 1][..i] == order[..i];
        var r := order[i];
        var key := EventKey(DigestEvent(w, now), r);
        if !KeyStored(notes, key) {
          digests := digests + [Note(r, DAILY_DIGEST_SCENARIO, DateText(w.date), key, RealTime, None, now,
                                     Some(BuildDigest(w.date, groups[r])))];
        }
        i := i + 1;
      }
      assert order[..i] == order;
    }

    method MarkDigestNotificationsSent(pending: seq<Entry>, now: int)
      requires forall e :: e in pending ==> e.id < |notes|
      modifies this`notes
      ensures |notes| == |old(notes)|
      ensures forall i :: 0 <= i < |notes| ==>
        notes[i] == if exists e :: e in pending && e.id == i then old(notes)[i].(sentAt := Some(now)) else old(notes)[i]
    {
      var i := 0;
      while i < |pending|
        invariant 0 <= i <= |pending| && |notes| == |old(notes)|
        invariant forall j :: 0 <= j < |notes| ==>
          notes[j] == if exists e :: e in pending[..i] && e.id == j then old(notes)[j].(sentAt := Some(now)) else old(notes)[j]
      {
        var id := pending[i].id;
        assert pending[..i + 1] == pending[..i] + [pending[i]];
        assert pending[i] in pending[..i + 1];
        notes := notes[id := notes[id].(sentAt := Some(now))];
        i := i + 1;
      }
      assert pending[..i] == pending;
    }

    /** Digests what is pending in the window. */
    method GenerateDailyDigest(w: Window, now: int) returns (r: DigestResult)
      requires ValidDate(w.date)
      modifies this`notes
      ensures notes == Generated(old(notes), w, now)
      ensures r.sourceCount == |Pending(old(notes), w)| && |notes| == |old(notes)| + r.digestCount
      ensures forall k :: |old(notes)| <= k < |notes| ==> IsOwnDigest(old(notes), w, notes[k])
    {
      DigestsAreOwn(notes, w, now);
      hide Generated, Pending, IsOwnDigest;
      r := GenerateInSteps(w, now);
    }

    method GenerateInSteps(w: Window, now: int) returns (r: DigestResult)
      requires ValidDate(w.date)
      modifies this`notes
      ensures notes == Generated(old(notes), w, now)
      ensures r.sourceCount == |Pending(old(notes), w)| && |notes| == |old(notes)| + r.digestCount
    {
      hide IsPending, KeyStored, EventKey, Map, NewDigests, Filter;
      var pending := ListPendingDigestNotifications(w);
      if pending == [] {
        NothingToDigest(notes, w, now);
        return DigestResult(0, 0);
      }
      var order, groups := GroupByReceiver(pending);
      var digests := BuildDigests(w, now, order, groups, pending);
      ghost var before := notes;
      notes := notes + digests;
      PendingMeans(before, w);
      MarkDigestNotificationsSent(pending, now);
      forall i | 0 <= i < |before|
        ensures notes[i] == Marked(before, w, now)[i]
      {
        if IsPending(w, before[i]) {
          assert Entry(i, before[i]) in pending;
        }
      }
      assert notes == Generated(before, w, now);
      return DigestResult(|pending|, |digests|);
    }

    /** Groups the receivers for whom it is nine o'clock by zone and local day. */
    method GroupDueReceivers(now: int, zones: seq<ReceiverZone>) returns (groups: seq<DueGroup>)
      ensures DueGroupsOf(groups, now, zones)
    {
      hide DueGroupsOf, NineOClock;
      groups := [];
      NoGroups(now);
      var i := 0;
      while i < |zones|
        invariant 0 <= i <= |zones| && DueGroupsOf(groups, now, zones[..i])
      {
        assert zones[..i + 1] == zones[..i] + [zones[i]];
        GroupsNext(groups, now, zones[..i], zones[i]);
        if NineOClock(now, zones[i].zone) {
          groups := WithReceiver(groups, now, zones[i]);
        }
        i := i + 1;
      }
      assert zones[..i] == zones;
    }

    /** The hourly batch. The due receivers of each zone and local day get a digest run, so that none of
        them is left with a pending notification of yesterday, and each such notification goes into one
        digest, unless its receiver already had one of that day. No receiver has two entries in `zones`. */
    method GenerateForDueTimezones(now: int, clock: nat -> int, zones: seq<ReceiverZone>) returns (r: BatchResult, ghost groups: seq<DueGroup>)
      requires DistinctBy(ZoneReceiver, zones) && forall rz :: rz in zones ==> Yesterday(now, rz.zone) >= 1
      modifies this`notes
      ensures DueGroupsOf(groups, now, zones) && DaysValid(groups)
      ensures IsBatch(BatchRun(groups, clock)) && IsRun(BatchRun(groups, clock)) && notes == Final(old(notes), BatchRun(groups, clock))
      ensures BatchDigests(old(notes), notes, now, zones)
      ensures Valid(old(notes)) ==> Valid(notes)
      ensures r.receiverCount == |Filter(IsDue(now), zones)| && |notes| == |old(notes)| + r.digestCount
      ensures r.sourceCount == WaitingCount(old(notes)) - WaitingCount(notes)
      ensures r.zoneCount == |set rz | rz in zones && NineOClock(now, rz.zone) :: rz.zone.key|
      ensures forall rz :: rz in zones && NineOClock(now, rz.zone) ==> Pending(notes, YesterdayWindow(now, rz)) == []
    {
      var due := GroupDueReceivers(now, zones);
      groups := due;
      BatchPlan(notes, groups, clock, now, zones);
      ghost var before, run := notes, BatchRun(groups, clock);
      hide Valid, WaitingCount, NineOClock, Yesterday, Filter, Pending, DueGroupsOf, IsBatch, IsRun, Final, BatchDigests, BatchRun, BatchSoFar;
      var zoneKeys := set g | g in due :: g.zone.key;
      r := DigestGroups(due, clock);
      BatchEnd(before, notes, groups, run, r, now, zones);
      r := r.(zoneCount := |zoneKeys|);
    }

    /** The loop over the groups. */
    method DigestGroups(groups: seq<DueGroup>, clock: nat -> int) returns (r: BatchResult)
      requires DaysValid(groups) && IsRun(BatchRun(groups, clock))
      modifies this`notes
      ensures BatchSoFar(old(notes), notes, groups, BatchRun(groups, clock), |groups|, r)
    {
      ghost var start, run := notes, BatchRun(groups, clock);
      BatchStart(start, groups, run);
      hide GroupWindow, BatchRun, Generated, BatchSoFar, IsRun, Pending, SizeOf, WaitingCount, ValidDate, Final, Enabled;
      r := BatchResult(0, 0, 0, 0);
      var i := 0;
      while i < |groups|
        invariant 0 <= i <= |groups| && BatchSoFar(start, notes, groups, run, i, r)
      {
        r := DigestGroup(start, groups, i, clock, r);
        i := i + 1;
      }
    }

    method DigestGroup(ghost start: seq<Note>, groups: seq<DueGroup>, i: nat, clock: nat -> int, r: BatchResult) returns (more: BatchResult)
      requires DaysValid(groups) && i < |groups| && BatchSoFar(start, notes, groups, BatchRun(groups, clock), i, r)
      modifies this`notes
      ensures BatchSoFar(start, notes, groups, BatchRun(groups, clock), i + 1, more)
    {
      ghost var before := notes;
      hide GroupWindow, BatchRun, Generated, BatchSoFar, Pending;
      var result := GenerateDailyDigest(GroupWindow(groups[i]), clock(i));
      BatchNext(start, before, groups, clock, i, r, result.digestCount);
      more := r.(receiverCount := r.receiverCount + |groups[i].receivers|, digestCount := r.digestCount + result.digestCount,
                 sourceCount := r.sourceCount + result.sourceCount);
    }

    lemma BatchPlan(start: seq<Note>, groups: seq<DueGroup>, clock: nat -> int, now: int, zones: seq<ReceiverZone>)
      requires DueGroupsOf(groups, now, zones)
      requires DistinctBy(ZoneReceiver, zones) && forall rz :: rz in zones ==> Yesterday(now, rz.zone) >= 1
      ensures DaysValid(groups)
      ensures var run := BatchRun(groups, clock);
        IsBatch(run) && IsRun(run) && BatchDigests(start, Final(start, run), now, zones)
      ensures (set g | g in groups :: g.zone.key) == set rz | rz in zones && NineOClock(now, rz.zone) :: rz.zone.key
    {
      hide DueGroupsOf, BatchDigests, IsBatch, NineOClock, Yesterday, GroupWindow;
      GroupDays(groups, now, zones);
      RunOfBatch(groups, clock, now, zones);
      BatchMeans(start, groups, clock, now, zones);
      DueZones(groups, now, zones);
    }

    /** The first `i` groups of a batch have had their digest runs. */
    ghost predicate BatchSoFar(start: seq<Note>, notes: seq<Note>, groups: seq<DueGroup>, run: seq<Command>, i: nat, r: BatchResult) {
      && i <= |groups| == |run| && IsRun(run) && DaysValid(groups)
      && (forall k :: 0 <= k < |run| ==> run[k].MakeDigests? && run[k].window == GroupWindow(groups[k]))
      && notes == Final(start, run[..i])
      && r.receiverCount == SizeOf(groups[..i]) && |notes| == |start| + r.digestCount
      && r.sourceCount == WaitingCount(start) - WaitingCount(notes)
      && forall k :: 0 <= k < i ==> Pending(notes, GroupWindow(groups[k])) == []
    }

    lemma BatchStart(start: seq<Note>, groups: seq<DueGroup>, run: seq<Command>)
      requires |groups| == |run| && IsRun(run) && DaysValid(groups)
      requires forall k :: 0 <= k < |run| ==> run[k].MakeDigests? && run[k].window == GroupWindow(groups[k])
      ensures BatchSoFar(start, start, groups, run, 0, BatchResult(0, 0, 0, 0))
    {
    }

    lemma BatchNext(start: seq<Note>, notes: seq<Note>, groups: seq<DueGroup>, clock: nat -> int, i: nat, r: BatchResult, digests: nat)
      requires DaysValid(groups) && i < |groups| && BatchSoFar(start, notes, groups, BatchRun(groups, clock), i, r)
      requires |Generated(notes, GroupWindow(groups[i]), clock(i))| == |notes| + digests
      ensures BatchSoFar(start, Generated(notes, GroupWindow(groups[i]), clock(i)), groups, BatchRun(groups, clock), i + 1,
                r.(receiverCount := r.receiverCount + |groups[i].receivers|, digestCount := r.digestCount + digests,
                   sourceCount := r.sourceCount + |Pending(notes, GroupWindow(groups[i]))|))
    {
      hide WaitingCount, SizeOf, Pending, Generated, GroupWindow, ValidDate;
      var run, w := BatchRun(groups, clock), GroupWindow(groups[i]);
      assert run[..i + 1] == run[..i] + [run[i]];
      FinalAppend(start, run[..i], run[i]);
      NothingPending(notes, w, run[i].now);
      RunReducesWaiting(notes, w, run[i].now);
      SizeOfNext(groups, i);
      forall k | 0 <= k < i
        ensures Pending(Generated(notes, w, run[i].now), GroupWindow(groups[k])) == []
      {
        StaysDone(notes, GroupWindow(groups[k]), w, run[i].now);
      }
    }

    lemma BatchEnd(start: seq<Note>, notes: seq<Note>, groups: seq<DueGroup>, run: seq<Command>, r: BatchResult, now: int, zones: seq<ReceiverZone>)
      requires forall rz :: rz in zones ==> Yesterday(now, rz.zone) >= 1
      requires BatchSoFar(start, notes, groups, run, |groups|, r) && DueGroupsOf(groups, now, zones)
      ensures notes == Final(start, run) && (Valid(start) ==> Valid(notes))
      ensures r.receiverCount == |Filter(IsDue(now), zones)| && |notes| == |start| + r.digestCount
      ensures r.sourceCount == WaitingCount(start) - WaitingCount(notes)
      ensures forall rz :: rz in zones && NineOClock(now, rz.zone) ==> Pending(notes, YesterdayWindow(now, rz)) == []
    {
      hide Valid, WaitingCount, SizeOf, Pending, Filter, NineOClock, Yesterday, Covers, Final, GroupWindow;
      assert run[..|groups|] == run && groups[..|groups|] == groups;
      if Valid(start) {
        RunValid(start, run);
      }
      forall rz | rz in zones && NineOClock(now, rz.zone)
        ensures Pending(notes, YesterdayWindow(now, rz)) == []
      {
        CoveredIsDone(notes, groups, now, rz);
      }
    }

    lemma DueZones(groups: seq<DueGroup>, now: int, zones: seq<ReceiverZone>)
      requires DueGroupsOf(groups, now, zones)
      ensures (set g | g in groups :: g.zone.key) == set rz | rz in zones && NineOClock(now, rz.zone) :: rz.zone.key
    {
      hide NineOClock, Yesterday, SizeOf, Filter;
      forall g | g in groups
        ensures exists rz :: rz in zones && NineOClock(now, rz.zone) && rz.zone == g.zone
      {
        var i :| 0 <= i < |groups| && groups[i] == g;
        assert DueIn(zones, now, g, g.receivers[0]);
      }
      forall rz | rz in zones && NineOClock(now, rz.zone)
        ensures exists g :: g in groups && g.zone == rz.zone
      {
        var i :| 0 <= i < |groups| && groups[i].zone == rz.zone && groups[i].day == Yesterday(now, rz.zone) && rz.receiver in groups[i].receivers;
        assert groups[i] in groups;
      }
    }

    lemma SizeOfNext(groups: seq<DueGroup>, i: nat)
      requires i < |groups|
      ensures SizeOf(groups[..i + 1]) == SizeOf(groups[..i]) + |groups[i].receivers|
    {
      assert groups[..i + 1][..i] == groups[..i];
    }

    lemma CoveredIsDone(notes: seq<Note>, groups: seq<DueGroup>, now: int, rz: ReceiverZone)
      requires Covers(groups, now, rz) && Yesterday(now, rz.zone) >= 1 && DaysValid(groups)
      requires forall k :: 0 <= k < |groups| ==> Pending(notes, GroupWindow(groups[k])) == []
      ensures Pending(notes, YesterdayWindow(now, rz)) == []
    {
      hide Pending;
      var i :| 0 <= i < |groups| && groups[i].zone == rz.zone && groups[i].day == Yesterday(now, rz.zone) && rz.receiver in groups[i].receivers;
      DoneForOne(notes, GroupWindow(groups[i]), rz.receiver);
    }
  }
}
