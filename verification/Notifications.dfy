/** In-app notifications with same-day suppression, and daily digests of the ones a user asked to
    receive once a day. A notification's identifier is its position in the table. */
module Notifications {
  import opened Wrappers
  import opened Text
  import opened Calendar
  import opened Snapshots
  import opened Sequences
  import opened DedupKeys

  const DAILY_DIGEST_SCENARIO := "daily_digest"

  datatype Mode = RealTime | DailyDigest

  datatype Channel = InApp | Email | WeWork | DingTalk

  datatype Preference = Preference(enabled: bool, mode: Mode, channels: Option<map<Channel, bool>>)

  datatype Item = Item(id: nat, source: string, createdAt: int)

  datatype Group = Group(scenario: string, count: nat, items: seq<Item>)

  datatype Digest = Digest(date: Date, total: nat, groups: seq<Group>)

  datatype Note = Note(
    receiver: Uuid, scenario: string, source: string, key: string, mode: Mode, sentAt: Option<int>, createdAt: int,
    digest: Option<Digest>)

  datatype Message = Message(channel: Channel, receiver: Uuid, key: string)

  type Preferences = map<(Uuid, string), Preference>

  // ---------------------------------------------------------------- sending

  /** `channel_enabled`: explicit settings, then the defaults. */
  function ChannelEnabled(p: Preference, c: Channel): bool {
    if p.channels.Some? && c in p.channels.value then p.channels.value[c] else c == InApp && p.enabled
  }

  function PreferenceOf(prefs: Preferences, receiver: Uuid, scenario: string): Preference {
    if (receiver, scenario) in prefs then prefs[(receiver, scenario)] else Preference(true, RealTime, None)
  }

  predicate InAppEnabled(prefs: Preferences, receiver: Uuid, scenario: string) {
    ChannelEnabled(PreferenceOf(prefs, receiver, scenario), InApp)
  }

  /** `channels`: the external channels that are configured. */
  predicate ExternalEnabled(prefs: Preferences, channels: seq<Channel>, receiver: Uuid, scenario: string) {
    exists i :: 0 <= i < |channels| && ChannelEnabled(PreferenceOf(prefs, receiver, scenario), channels[i])
  }

  function Reachable(prefs: Preferences, channels: seq<Channel>, scenario: string): Uuid -> bool {
    (r: Uuid) => InAppEnabled(prefs, r, scenario) || ExternalEnabled(prefs, channels, r, scenario)
  }

  function NoteKey(n: Note): string {
    n.key
  }

  predicate KeyStored(notes: seq<Note>, key: string) {
    exists i :: 0 <= i < |notes| && notes[i].key == key
  }

  /** One call of `send`: what does not depend on the receiver. */
  datatype Event = Event(scenario: string, source: string, date: Date, now: int)

  function EventKey(e: Event, receiver: Uuid): string {
    BuildDedupKey(e.scenario, receiver, e.source, e.date)
  }

  function Targets(prefs: Preferences, channels: seq<Channel>, e: Event, receivers: seq<Uuid>): seq<Uuid> {
    Filter(Reachable(prefs, channels, e.scenario), Unique(receivers))
  }

  predicate Stores(notes: seq<Note>, prefs: Preferences, e: Event, r: Uuid) {
    InAppEnabled(prefs, r, e.scenario) && !KeyStored(notes, EventKey(e, r))
  }

  function NewNote(prefs: Preferences, e: Event, r: Uuid): Note {
    Note(r, e.scenario, e.source, EventKey(e, r), PreferenceOf(prefs, r, e.scenario).mode, None, e.now, None)
  }

  /** The notifications that a call adds, in the order of the receivers. */
  function NewNotes(notes: seq<Note>, prefs: Preferences, e: Event, targets: seq<Uuid>): seq<Note> {
    if targets == [] then []
    else
      var r := targets[|targets| - 1];
      NewNotes(notes, prefs, e, targets[..|targets| - 1]) + if Stores(notes, prefs, e, r) then [NewNote(prefs, e, r)] else []
  }

  function MessagesTo(prefs: Preferences, channels: seq<Channel>, e: Event, r: Uuid): seq<Message> {
    if channels == [] then []
    else
      var c := channels[|channels| - 1];
      MessagesTo(prefs, channels[..|channels| - 1], e, r)
        + if ChannelEnabled(PreferenceOf(prefs, r, e.scenario), c) then [Message(c, r, EventKey(e, r))] else []
  }

  /** The messages that a call sends over the external channels. */
  function Messages(notes: seq<Note>, prefs: Preferences, channels: seq<Channel>, e: Event, targets: seq<Uuid>): seq<Message> {
    if targets == [] then []
    else
      var r := targets[|targets| - 1];
      Messages(notes, prefs, channels, e, targets[..|targets| - 1])
        + if KeyStored(notes, EventKey(e, r)) then [] else MessagesTo(prefs, channels, e, r)
  }

  /** The table after a call of `send`. */
  function Sent(notes: seq<Note>, prefs: Preferences, channels: seq<Channel>, e: Event, receivers: seq<Uuid>): seq<Note> {
    notes + NewNotes(notes, prefs, e, Targets(prefs, channels, e, receivers))
  }

  // ---------------------------------------------------------------- what one call stores and sends

  lemma {:induction false} NewNotesMembers(notes: seq<Note>, prefs: Preferences, e: Event, targets: seq<Uuid>)
    ensures forall n :: n in NewNotes(notes, prefs, e, targets) <==>
      exists i :: (0 <= i < |targets| && Stores(notes, prefs, e, targets[i]) && n == NewNote(prefs, e, targets[i]))
  {
    hide Stores, NewNote;
    if targets != [] {
      var before, r := targets[..|targets| - 1], targets[|targets| - 1];
      NewNotesMembers(notes, prefs, e, before);
      forall n
        ensures n in NewNotes(notes, prefs, e, targets) <==>
          exists i :: (0 <= i < |targets| && Stores(notes, prefs, e, targets[i]) && n == NewNote(prefs, e, targets[i]))
      {
        if n in NewNotes(notes, prefs, e, before) {
          var i :| 0 <= i < |before| && Stores(notes, prefs, e, before[i]) && n == NewNote(prefs, e, before[i]);
          assert targets[i] == before[i];
        }
        if i :| 0 <= i < |targets| && Stores(notes, prefs, e, targets[i]) && n == NewNote(prefs, e, targets[i]) {
          if i < |before| {
            assert before[i] == targets[i];
          }
        }
      }
    }
  }

  lemma {:induction false} MessagesToMembers(prefs: Preferences, channels: seq<Channel>, e: Event, r: Uuid)
    ensures forall m :: m in MessagesTo(prefs, channels, e, r) <==>
      m.channel in channels && ChannelEnabled(PreferenceOf(prefs, r, e.scenario), m.channel) && m == Message(m.channel, r, EventKey(e, r))
  {
    hide ChannelEnabled, PreferenceOf, EventKey;
    if channels != [] {
      MessagesToMembers(prefs, channels[..|channels| - 1], e, r);
      assert channels == channels[..|channels| - 1] + [channels[|channels| - 1]];
    }
  }

  lemma {:induction false} MessagesMembers(notes: seq<Note>, prefs: Preferences, channels: seq<Channel>, e: Event, targets: seq<Uuid>)
    ensures forall m :: m in Messages(notes, prefs, channels, e, targets) <==>
      && m.receiver in targets && !KeyStored(notes, EventKey(e, m.receiver))
      && m in MessagesTo(prefs, channels, e, m.receiver)
  {
    hide KeyStored, EventKey, MessagesTo;
    if targets != [] {
      var before, r := targets[..|targets| - 1], targets[|targets| - 1];
      MessagesMembers(notes, prefs, channels, e, before);
      MessagesToReceiver(prefs, channels, e, r);
      assert targets == before + [r];
    }
  }

  lemma MessagesToReceiver(prefs: Preferences, channels: seq<Channel>, e: Event, r: Uuid)
    ensures forall m :: m in MessagesTo(prefs, channels, e, r) ==> m.receiver == r
  {
    hide ChannelEnabled, PreferenceOf, EventKey, MessagesTo;
    MessagesToMembers(prefs, channels, e, r);
  }

  lemma TargetsMembers(prefs: Preferences, channels: seq<Channel>, e: Event, receivers: seq<Uuid>)
    ensures forall r :: r in Targets(prefs, channels, e, receivers) <==>
      r in receivers && (InAppEnabled(prefs, r, e.scenario) || ExternalEnabled(prefs, channels, r, e.scenario))
  {
    hide InAppEnabled, ExternalEnabled;
    UniqueMeans(receivers);
  }

  /** A call stores a notification for exactly the receivers with in-app notifications on and no
      notification with that key yet. */
  lemma SendStores(notes: seq<Note>, prefs: Preferences, channels: seq<Channel>, e: Event, receivers: seq<Uuid>, r: Uuid)
    ensures KeyStored(Sent(notes, prefs, channels, e, receivers), EventKey(e, r)) <==>
      KeyStored(notes, EventKey(e, r)) || (r in receivers && InAppEnabled(prefs, r, e.scenario))
  {
    hide InAppEnabled, ExternalEnabled, PreferenceOf, BuildDedupKey;
    var targets := Targets(prefs, channels, e, receivers);
    var added := NewNotes(notes, prefs, e, targets);
    TargetsMembers(prefs, channels, e, receivers);
    NewNotesMembers(notes, prefs, e, targets);
    KeyInConcat(notes, added, EventKey(e, r));
    if KeyStored(added, EventKey(e, r)) {
      var k :| 0 <= k < |added| && added[k].key == EventKey(e, r);
      assert added[k] in added;
      var i :| 0 <= i < |targets| && Stores(notes, prefs, e, targets[i]) && added[k] == NewNote(prefs, e, targets[i]);
      SameEventKey(e, targets[i], r);
    }
    if r in receivers && InAppEnabled(prefs, r, e.scenario) && !KeyStored(notes, EventKey(e, r)) {
      var i :| 0 <= i < |targets| && targets[i] == r;
      assert NewNote(prefs, e, targets[i]) in added;
    }
  }

  lemma KeyInConcat(a: seq<Note>, b: seq<Note>, key: string)
    ensures KeyStored(a + b, key) <==> KeyStored(a, key) || KeyStored(b, key)
  {
    if KeyStored(a, key) {
      var i :| 0 <= i < |a| && a[i].key == key;
      assert (a + b)[i].key == key;
    }
    if KeyStored(b, key) {
      var i :| 0 <= i < |b| && b[i].key == key;
      assert (a + b)[|a| + i].key == key;
    }
  }

  lemma SameEventKey(e: Event, u: Uuid, v: Uuid)
    requires EventKey(e, u) == EventKey(e, v)
    ensures u == v
  {
    hide UuidText, DayText;
    var a, b := e.scenario + ":" + UuidText(u) + ":" + e.source, e.scenario + ":" + UuidText(v) + ":" + e.source;
    UuidTextLength(u);
    UuidTextLength(v);
    var n := |e.scenario| + 1;
    assert EventKey(e, u)[n..n + 36] == UuidText(u) && EventKey(e, v)[n..n + 36] == UuidText(v);
    UuidTextInjective(u, v);
  }

  /** A receiver's setting of a channel: the explicit one; without one, in-app notifications follow the general
      setting, which is on unless the receiver changed it, and the other channels are off. */
  predicate IsOn(prefs: Preferences, r: Uuid, scenario: string, c: Channel) {
    if (r, scenario) !in prefs then c == InApp
    else
      var p := prefs[(r, scenario)];
      if p.channels != None && c in p.channels.value then p.channels.value[c] else c == InApp && p.enabled
  }

  /** The notification that a receiver gets: in real time, unless the receiver asked for digests. */
  predicate IsNoteFor(n: Note, prefs: Preferences, e: Event, r: Uuid) {
    && n.receiver == r && n.scenario == e.scenario && n.source == e.source && n.key == EventKey(e, r)
    && n.mode == (if (r, e.scenario) in prefs then prefs[(r, e.scenario)].mode else RealTime)
    && n.sentAt == None && n.createdAt == e.now && n.digest == None
  }

  /** A call adds one notification for each receiver that has in-app notifications on and none with that key
      yet, and sends one message over each channel that a receiver without that key has on. */
  lemma SendMeans(notes: seq<Note>, prefs: Preferences, channels: seq<Channel>, e: Event, receivers: seq<Uuid>)
    ensures var added := NewNotes(notes, prefs, e, Targets(prefs, channels, e, receivers));
      && (forall n :: n in added ==> n.receiver in receivers && IsNoteFor(n, prefs, e, n.receiver))
      && (forall r :: (exists n :: n in added && n.receiver == r)
                      <==> r in receivers && IsOn(prefs, r, e.scenario, InApp) && !KeyStored(notes, EventKey(e, r)))
    ensures forall m :: m in Messages(notes, prefs, channels, e, Targets(prefs, channels, e, receivers)) <==>
      && m.receiver in receivers && m.channel in channels && IsOn(prefs, m.receiver, e.scenario, m.channel)
      && m.key == EventKey(e, m.receiver) && !KeyStored(notes, m.key)
  {
    hide KeyStored, EventKey, Targets;
    var targets := Targets(prefs, channels, e, receivers);
    var added := NewNotes(notes, prefs, e, targets);
    NewNotesMembers(notes, prefs, e, targets);
    TargetsMembers(prefs, channels, e, receivers);
    MessagesMembers(notes, prefs, channels, e, targets);
    forall r | r in receivers && IsOn(prefs, r, e.scenario, InApp) && !KeyStored(notes, EventKey(e, r))
      ensures exists n :: n in added && n.receiver == r
    {
      var k :| 0 <= k < |targets| && targets[k] == r;
      assert NewNote(prefs, e, targets[k]) in added;
    }
    forall m
      ensures m in Messages(notes, prefs, channels, e, targets) <==>
        && m.receiver in receivers && m.channel in channels && IsOn(prefs, m.receiver, e.scenario, m.channel)
        && m.key == EventKey(e, m.receiver) && !KeyStored(notes, m.key)
    {
      MessagesToMembers(prefs, channels, e, m.receiver);
      if m.channel in channels && IsOn(prefs, m.receiver, e.scenario, m.channel) {
        var k :| 0 <= k < |channels| && channels[k] == m.channel;
        assert ExternalEnabled(prefs, channels, m.receiver, e.scenario);
      }
    }
  }

  predicate Messaged(messages: seq<Message>, r: Uuid) {
    exists m :: m in messages && m.receiver == r
  }

  /** In-app notifications off, an external channel on, and no stored notification with that key. */
  predicate OutsideOnly(notes: seq<Note>, prefs: Preferences, channels: seq<Channel>, e: Event, r: Uuid) {
    !InAppEnabled(prefs, r, e.scenario) && ExternalEnabled(prefs, channels, r, e.scenario) && !KeyStored(notes, EventKey(e, r))
  }

  /** Repeating a call on the same day stores nothing, whenever it comes and in whatever order. It
      messages exactly the receivers that are reached only from outside. */
  lemma ResendAddsNothing(
      notes: seq<Note>, prefs: Preferences, channels: seq<Channel>, e: Event, receivers: seq<Uuid>, again: seq<Uuid>, later: int)
    requires forall r :: r in again ==> r in receivers
    ensures var first := Sent(notes, prefs, channels, e, receivers);
      var repeat := e.(now := later);
      && Sent(first, prefs, channels, repeat, again) == first
      && forall r :: (Messaged(Messages(first, prefs, channels, repeat, Targets(prefs, channels, repeat, again)), r)
                      <==> r in again && OutsideOnly(notes, prefs, channels, e, r))
  {
    hide InAppEnabled, ExternalEnabled, BuildDedupKey, Sent, Targets, MessagesTo;
    var first := Sent(notes, prefs, channels, e, receivers);
    var repeat := e.(now := later);
    var targets := Targets(prefs, channels, repeat, again);
    TargetsMembers(prefs, channels, repeat, again);
    forall r
      ensures EventKey(repeat, r) == EventKey(e, r)
      ensures KeyStored(first, EventKey(e, r)) <==> KeyStored(notes, EventKey(e, r)) || (r in receivers && InAppEnabled(prefs, r, e.scenario))
    {
      SendStores(notes, prefs, channels, e, receivers, r);
    }
    NewNotesMembers(first, prefs, repeat, targets);
    NothingNew(first, prefs, channels, repeat, again);
    MessagesMembers(first, prefs, channels, repeat, targets);
    forall r
      ensures Messaged(Messages(first, prefs, channels, repeat, targets), r) <==>
        r in targets && !KeyStored(first, EventKey(e, r)) && ExternalEnabled(prefs, channels, r, e.scenario)
    {
      SomeMessage(prefs, channels, repeat, r);
    }
  }

  lemma NothingNew(notes: seq<Note>, prefs: Preferences, channels: seq<Channel>, e: Event, receivers: seq<Uuid>)
    requires forall r :: r in receivers && InAppEnabled(prefs, r, e.scenario) ==> KeyStored(notes, EventKey(e, r))
    ensures Sent(notes, prefs, channels, e, receivers) == notes
  {
    hide InAppEnabled, ExternalEnabled, KeyStored, EventKey, Targets;
    var targets := Targets(prefs, channels, e, receivers);
    var added := NewNotes(notes, prefs, e, targets);
    assert added != [] ==> added[0] in added;
    TargetsMembers(prefs, channels, e, receivers);
    NewNotesMembers(notes, prefs, e, targets);
  }

  lemma SomeMessage(prefs: Preferences, channels: seq<Channel>, e: Event, r: Uuid)
    ensures (exists m :: m in MessagesTo(prefs, channels, e, r)) <==> ExternalEnabled(prefs, channels, r, e.scenario)
    ensures forall m :: m in MessagesTo(prefs, channels, e, r) ==> m.receiver == r
  {
    hide ChannelEnabled, PreferenceOf, EventKey, MessagesTo;
    MessagesToMembers(prefs, channels, e, r);
    if ExternalEnabled(prefs, channels, r, e.scenario) {
      var i :| 0 <= i < |channels| && ChannelEnabled(PreferenceOf(prefs, r, e.scenario), channels[i]);
      assert Message(channels[i], r, EventKey(e, r)) in MessagesTo(prefs, channels, e, r);
    }
  }

  // ---------------------------------------------------------------- daily digests

  /** The local day of a time, as an ordinal. */
  function LocalDay(t: int, offset: int): int {
    (t + offset) / DAY
  }

  /** The in-memory filter by local date selects the same times as the range of UTC times. */
  lemma LocalDayIsUtcRange(t: int, offset: int, day: int)
    ensures LocalDay(t, offset) == day <==> DAY * day - offset <= t < DAY * day - offset + DAY
  {
    var local := t + offset;
    assert local == DAY * (local / DAY) + local % DAY;
  }

  /** Which notifications a digest run looks at; `receivers` None means everybody. */
  datatype Window = Window(date: Date, receivers: Option<seq<Uuid>>, offset: int)

  predicate IsPending(w: Window, n: Note)
    requires ValidDate(w.date)
  {
    && n.mode == DailyDigest && n.sentAt == None
    && (w.receivers.Some? ==> n.receiver in w.receivers.value)
    && LocalDay(n.createdAt, w.offset) == Ordinal(w.date)
  }

  /** A row with its identifier. */
  datatype Entry = Entry(id: nat, note: Note)

  function EntryId(e: Entry): int { e.id }

  function ReceiverOf(e: Entry): Uuid { e.note.receiver }

  function ScenarioOf(e: Entry): string { e.note.scenario }

  /** The pending notifications, in table order. */
  function Pending(notes: seq<Note>, w: Window): seq<Entry>
    requires ValidDate(w.date)
  {
    if notes == [] then []
    else
      var last := notes[|notes| - 1];
      Pending(notes[..|notes| - 1], w) + if IsPending(w, last) then [Entry(|notes| - 1, last)] else []
  }

  lemma {:induction false} PendingMeans(notes: seq<Note>, w: Window)
    requires ValidDate(w.date)
    ensures forall e :: e in Pending(notes, w) <==> e.id < |notes| && notes[e.id] == e.note && IsPending(w, e.note)
    ensures DistinctBy(EntryId, Pending(notes, w))
  {
    hide IsPending;
    if notes != [] {
      var before := notes[..|notes| - 1];
      PendingMeans(before, w);
      assert forall id :: 0 <= id < |before| ==> before[id] == notes[id];
    }
  }

  // ---------------------------------------------------------------- the content of a digest

  predicate CreatedOrder(a: Entry, b: Entry) {
    a.note.createdAt <= b.note.createdAt
  }

  function ItemOf(e: Entry): Item {
    Item(e.id, e.note.source, e.note.createdAt)
  }

  function ItemId(item: Item): int { item.id }

  function GroupFor(entries: seq<Entry>): string -> Group {
    (scenario: string) =>
      var items := Filter(HasKey(ScenarioOf, scenario), entries);
      Group(scenario, |items|, Map(ItemOf, SortBy(CreatedOrder, items)))
  }

  function Scenarios(entries: seq<Entry>): seq<string> {
    SortBy(AtMost, Unique(Map(ScenarioOf, entries)))
  }

  /** `_build_digest_payload`. */
  function BuildDigest(date: Date, entries: seq<Entry>): Digest {
    Digest(date, |entries|, Map(GroupFor(entries), Scenarios(entries)))
  }

  ghost function GroupItems<V>(f: Item -> V, groups: seq<Group>): multiset<V> {
    if groups == [] then multiset{} else multiset(Map(f, groups[0].items)) + GroupItems(f, groups[1..])
  }

  function CountSum(groups: seq<Group>): nat {
    if groups == [] then 0 else groups[0].count + CountSum(groups[1..])
  }

  function OnItem<V>(f: Item -> V): Entry -> V {
    (e: Entry) => f(ItemOf(e))
  }

  lemma ScenariosMean(entries: seq<Entry>)
    ensures forall i, j :: 0 <= i < j < |Scenarios(entries)| ==> Scenarios(entries)[i] != Scenarios(entries)[j]
    ensures forall e :: e in entries ==> ScenarioOf(e) in Scenarios(entries)
  {
    var all := Map(ScenarioOf, entries);
    UniqueMeans(all);
    SortMembers(AtMost, Unique(all));
    var same := (x: string) => x;
    assert DistinctBy(same, Unique(all));
    DistinctSort(same, AtMost, Unique(all));
    forall i, j | 0 <= i < j < |Scenarios(entries)|
      ensures Scenarios(entries)[i] != Scenarios(entries)[j]
    {
      assert same(Scenarios(entries)[i]) != same(Scenarios(entries)[j]);
    }
    forall e | e in entries
      ensures ScenarioOf(e) in Scenarios(entries)
    {
      MapMember(ScenarioOf, entries, e);
      assert ScenarioOf(e) in all;
    }
  }

  lemma OneGroup<V>(f: Item -> V, entries: seq<Entry>, scenario: string)
    ensures var g := GroupFor(entries)(scenario);
      && multiset(Map(f, g.items)) == multiset(Map(OnItem(f), Filter(HasKey(ScenarioOf, scenario), entries)))
      && g.count == |g.items|
  {
    hide Filter, SortBy;
    var items := Filter(HasKey(ScenarioOf, scenario), entries);
    var sorted := SortBy(CreatedOrder, items);
    SortMembers(CreatedOrder, items);
    assert Map(f, Map(ItemOf, sorted)) == Map(OnItem(f), sorted);
    MapSortBag(OnItem(f), CreatedOrder, items);
  }

  lemma {:induction false} GroupsOf<V>(f: Item -> V, entries: seq<Entry>, scenarios: seq<string>)
    ensures GroupItems(f, Map(GroupFor(entries), scenarios)) == GroupsBag(OnItem(f), ScenarioOf, scenarios, entries)
  {
    hide GroupFor, Filter;
    var groups := Map(GroupFor(entries), scenarios);
    if scenarios != [] {
      assert groups[1..] == Map(GroupFor(entries), scenarios[1..]);
      OneGroup(f, entries, scenarios[0]);
      GroupsOf(f, entries, scenarios[1..]);
    }
  }

  /** A digest holds every notification it was made from exactly once: nothing is lost or doubled by
      grouping and sorting. */
  lemma DigestHoldsAll<V>(f: Item -> V, date: Date, entries: seq<Entry>)
    ensures GroupItems(f, BuildDigest(date, entries).groups) == multiset(Map(OnItem(f), entries))
  {
    hide GroupFor, GroupItems, GroupsBag;
    ScenariosMean(entries);
    GroupsOf(f, entries, Scenarios(entries));
    GroupsPartition(OnItem(f), ScenarioOf, Scenarios(entries), entries);
  }

  /** The group of a scenario: exactly the notifications of that scenario, oldest first, and counted. */
  predicate IsGroup(g: Group, entries: seq<Entry>) {
    && g.count == |g.items| && g.items != []
    && (forall i, j :: 0 <= i < j < |g.items| ==> g.items[i].createdAt <= g.items[j].createdAt)
    && (forall e :: e in entries && e.note.scenario == g.scenario ==> Item(e.id, e.note.source, e.note.createdAt) in g.items)
    && forall k :: 0 <= k < |g.items| ==> IsItem(g.items[k], g.scenario, entries)
  }

  predicate IsItem(item: Item, scenario: string, entries: seq<Entry>) {
    exists e :: e in entries && e.note.scenario == scenario && item == Item(e.id, e.note.source, e.note.createdAt)
  }

  /** A digest has one group for each scenario, in order. */
  lemma DigestShape(date: Date, entries: seq<Entry>)
    ensures var d := BuildDigest(date, entries);
      && d.date == date && d.total == |entries|
      && (forall k :: 0 <= k < |d.groups| ==> IsGroup(d.groups[k], entries))
      && (forall e :: e in entries ==> exists g :: g in d.groups && g.scenario == e.note.scenario)
      && forall i, j :: 0 <= i < j < |d.groups| ==> AtMost(d.groups[i].scenario, d.groups[j].scenario) && d.groups[i].scenario != d.groups[j].scenario
  {
    hide IsGroup, GroupFor, AtMost, Scenarios;
    var d, scenarios := BuildDigest(date, entries), Scenarios(entries);
    ScenariosMean(entries);
    ScenariosSorted(entries);
    forall k | 0 <= k < |d.groups|
      ensures IsGroup(d.groups[k], entries) && d.groups[k].scenario == scenarios[k]
    {
      GroupIsGroup(entries, scenarios[k]);
    }
    forall e | e in entries
      ensures exists g :: g in d.groups && g.scenario == e.note.scenario
    {
      var k :| 0 <= k < |scenarios| && scenarios[k] == ScenarioOf(e);
      assert d.groups[k] in d.groups;
    }
  }

  lemma ScenariosSorted(entries: seq<Entry>)
    ensures SortedBy(AtMost, Scenarios(entries))
    ensures forall k :: 0 <= k < |Scenarios(entries)| ==> exists e :: e in entries && e.note.scenario == Scenarios(entries)[k]
  {
    hide AtMost, Filter, Map;
    var all := Map(ScenarioOf, entries);
    AtMostIsOrder();
    SortSorted(AtMost, Unique(all));
    SortMembers(AtMost, Unique(all));
    UniqueMeans(all);
    forall k | 0 <= k < |Scenarios(entries)|
      ensures exists e :: e in entries && e.note.scenario == Scenarios(entries)[k]
    {
      assert Scenarios(entries)[k] in Scenarios(entries);
      var e := MapOrigin(ScenarioOf, entries, Scenarios(entries)[k]);
    }
  }

  lemma AtMostIsOrder()
    ensures IsOrder(AtMost)
  {
    hide Less;
    forall x, y
      ensures AtMost(x, y) || AtMost(y, x)
    {
      if x != y {
        LessTotal(x, y);
      }
    }
    forall x, y, z | AtMost(x, y) && AtMost(y, z)
      ensures AtMost(x, z)
    {
      if x != y && y != z {
        LessTransitive(x, y, z);
      }
    }
  }

  lemma GroupIsGroup(entries: seq<Entry>, scenario: string)
    requires exists e :: e in entries && e.note.scenario == scenario
    ensures GroupFor(entries)(scenario).scenario == scenario && IsGroup(GroupFor(entries)(scenario), entries)
  {
    hide Filter, SortBy;
    var items := Filter(HasKey(ScenarioOf, scenario), entries);
    var sorted := SortBy(CreatedOrder, items);
    SortMembers(CreatedOrder, items);
    SortSorted(CreatedOrder, items);
    var g := GroupFor(entries)(scenario);
    assert g.items == Map(ItemOf, sorted);
    forall e | e in entries && e.note.scenario == scenario
      ensures Item(e.id, e.note.source, e.note.createdAt) in g.items
    {
      assert e in sorted;
      var k :| 0 <= k < |sorted| && sorted[k] == e;
      assert g.items[k] == ItemOf(e);
    }
    forall k | 0 <= k < |g.items|
      ensures IsItem(g.items[k], scenario, entries)
    {
      assert sorted[k] in items;
    }
  }

  lemma {:induction false} CountsAreSizes(groups: seq<Group>)
    requires forall i :: 0 <= i < |groups| ==> groups[i].count == |groups[i].items|
    ensures CountSum(groups) == |GroupItems(ItemId, groups)|
  {
    if groups != [] {
      CountsAreSizes(groups[1..]);
    }
  }

  /** The group counts of a digest sum to its total. */
  lemma CountsSumToTotal(date: Date, entries: seq<Entry>)
    ensures CountSum(BuildDigest(date, entries).groups) == BuildDigest(date, entries).total == |entries|
  {
    hide GroupFor, GroupItems;
    var groups := BuildDigest(date, entries).groups;
    forall i | 0 <= i < |groups|
      ensures groups[i].count == |groups[i].items|
    {
      OneGroup(ItemId, entries, Scenarios(entries)[i]);
    }
    CountsAreSizes(groups);
    DigestHoldsAll(ItemId, date, entries);
  }
}
