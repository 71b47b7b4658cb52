/**
 The core's message profiler (src/tmx/TmxCore/src/MessageProfiler.cpp and MessageProfiler.h): a count
 and recent receive times per sending plugin, type and subtype, in a map ordered by the text of the key.
 Before that a message's type and subtype are looked up in a table of all known ones, ordered by their
 text (src/tmx/TmxCore/src/database/MessageContext.h).
 */
module MessageProfiling {
  import opened Wrappers
  import opened Sets

  datatype Key = Key(pluginId: nat, msgType: string, subtype: string)

  // ---------- the text of a key ----------

  function Digit(d: nat): char
    requires d < 10
  {
    '0' + d as char
  }

  function Decimal(n: nat): (s: string)
    ensures |s| > 0
    ensures forall i :: 0 <= i < |s| ==> '0' <= s[i] <= '9'
  {
    if n < 10 then [Digit(n)] else Decimal(n / 10) + [Digit(n % 10)]
  }

  ghost function Value(s: string): int {
    if s == "" then 0 else 10 * Value(s[..|s| - 1]) + (s[|s| - 1] as int - '0' as int)
  }

  lemma {:induction false} DecimalReadsBack(n: nat)
    ensures Value(Decimal(n)) == n
  {
    if n < 10 {
      assert [Digit(n)][..0] == "";
    } else {
      DecimalReadsBack(n / 10);
      assert Decimal(n)[..|Decimal(n)| - 1] == Decimal(n / 10);
    }
  }

  function Body(t: string, u: string): string {
    t + "||" + u
  }

  function Encode(k: Key): string {
    Decimal(k.pluginId) + "||" + Body(k.msgType, k.subtype)
  }

  ghost predicate Bars(s: string, i: int) {
    0 <= i && i + 1 < |s| && s[i] == '|' && s[i + 1] == '|'
  }

  /** The first "||" after the type is the separator: no "||" in the type and no '|' at its end. */
  ghost predicate Clean(t: string) {
    forall i :: 0 <= i < |t| ==> !Bars(t + "|", i)
  }

  /** Nothing in the subtype could be taken for the separator: no "||" in it and no '|' at its start. */
  ghost predicate CleanSubtype(u: string) {
    forall i :: 0 <= i < |u| ==> !Bars("|" + u, i)
  }

  lemma NoBarIsClean(t: string)
    requires '|' !in t
    ensures Clean(t)
  {
    forall i | 0 <= i < |t| ensures !Bars(t + "|", i) {
      assert (t + "|")[i] == t[i];
    }
  }

  lemma SameDigits(a: string, x: string, b: string, y: string)
    requires (forall i :: 0 <= i < |a| ==> a[i] != '|') && (forall i :: 0 <= i < |b| ==> b[i] != '|')
    requires a + "||" + x == b + "||" + y
    ensures a == b && x == y
  {
    var s := a + "||" + x;
    assert s[|a|] == '|' && s[|b|] == '|';
    assert |a| == |b|;
    assert a == s[..|a|] && b == s[..|b|];
    assert x == s[|a| + 2..] && y == s[|b| + 2..];
  }

  lemma SameText(k: Key, l: Key)
    requires Encode(k) == Encode(l)
    ensures k.pluginId == l.pluginId && Body(k.msgType, k.subtype) == Body(l.msgType, l.subtype)
  {
    DecimalReadsBack(k.pluginId);
    DecimalReadsBack(l.pluginId);
    SameDigits(Decimal(k.pluginId), Body(k.msgType, k.subtype), Decimal(l.pluginId), Body(l.msgType, l.subtype));
  }

  /** Where a body has "||": inside or at the end of the type, at the separator, or in the subtype. */
  lemma WhereBarsAre(t: string, u: string, i: nat)
    ensures i < |t| ==> (Bars(Body(t, u), i) <==> Bars(t + "|", i))
    ensures Bars(Body(t, u), |t|)
    ensures i > |t| ==> (Bars(Body(t, u), i) <==> Bars("|" + u, i - |t| - 1))
  {
    var s := Body(t, u);
    if i < |t| {
      assert s[i] == (t + "|")[i] && s[i + 1] == (t + "|")[i + 1];
    }
    if i > |t| {
      assert s[|t| + 1..] == "|" + u;
      assert i < |s| ==> s[i] == ("|" + u)[i - |t| - 1];
      assert i + 1 < |s| ==> s[i + 1] == ("|" + u)[i - |t|];
    }
  }

  lemma Taken(t: string, u: string)
    ensures Body(t, u)[..|t|] == t && Body(t, u)[|t| + 2..] == u
  {
  }

  /** Keys with clean types have the same text only when they are the same. */
  lemma CleanKeysDiffer(k: Key, l: Key)
    requires Clean(k.msgType) && Clean(l.msgType) && Encode(k) == Encode(l)
    ensures k == l
  {
    SameText(k, l);
    WhereBarsAre(k.msgType, k.subtype, |l.msgType|);
    WhereBarsAre(l.msgType, l.subtype, |k.msgType|);
    assert |k.msgType| == |l.msgType|;
    Taken(k.msgType, k.subtype);
    Taken(l.msgType, l.subtype);
  }

  /** Cutting the text at another "||" gives another key with the same text. */
  lemma AnotherCut(k: Key, i: nat) returns (l: Key)
    requires Bars(Body(k.msgType, k.subtype), i) && i != |k.msgType|
    ensures l != k && Encode(l) == Encode(k)
  {
    var s := Body(k.msgType, k.subtype);
    l := Key(k.pluginId, s[..i], s[i + 2..]);
    assert s == s[..i] + "||" + s[i + 2..];
  }

  /** The text of a key is its own exactly when its type and its subtype are clean. */
  lemma TextIsItsOwnExactlyWhen(k: Key)
    ensures (forall l :: Encode(l) == Encode(k) ==> l == k) <==> Clean(k.msgType) && CleanSubtype(k.subtype)
  {
    var t, u := k.msgType, k.subtype;
    if i :| 0 <= i < |t| && Bars(t + "|", i) {
      WhereBarsAre(t, u, i);
      var l := AnotherCut(k, i);
    } else if i :| 0 <= i < |u| && Bars("|" + u, i) {
      WhereBarsAre(t, u, i + |t| + 1);
      var l := AnotherCut(k, i + |t| + 1);
    } else {
      forall l | Encode(l) == Encode(k) ensures l == k {
        SameText(k, l);
        WhereBarsAre(t, u, |l.msgType|);
        WhereBarsAre(l.msgType, l.subtype, |t|);
        assert |l.msgType| == |t|;
        Taken(t, u);
        Taken(l.msgType, l.subtype);
      }
    }
  }

  // ---------- the order of the map ----------

  predicate Less(a: string, b: string) {
    b != "" && (a == "" || a[0] < b[0] || (a[0] == b[0] && Less(a[1..], b[1..])))
  }

  predicate KeyLess(k: Key, l: Key) {
    Less(Encode(k), Encode(l))
  }

  lemma {:induction false} TextsAreOrdered(a: string, b: string)
    ensures a == b <==> !Less(a, b) && !Less(b, a)
    ensures !(Less(a, b) && Less(b, a))
  {
    if a != "" && b != "" {
      TextsAreOrdered(a[1..], b[1..]);
      assert a == [a[0]] + a[1..] && b == [b[0]] + b[1..];
    }
  }

  /** Dictionary order: the shorter of two texts with a common beginning, or the one with the lower character after it. */
  ghost predicate Precedes(a: string, b: string, n: nat) {
    n <= |a| && n < |b| && a[..n] == b[..n] && (n == |a| || a[n] < b[n])
  }

  lemma {:induction false} LessIsDictionaryOrder(a: string, b: string)
    ensures Less(a, b) <==> exists n: nat :: Precedes(a, b, n)
  {
    if b == "" {
    } else if a == "" {
      assert Precedes(a, b, 0);
    } else {
      LessIsDictionaryOrder(a[1..], b[1..]);
      if a[0] < b[0] { assert Precedes(a, b, 0); }
      if n: nat :| Precedes(a[1..], b[1..], n) {
        if a[0] == b[0] {
          assert a[..n + 1] == [a[0]] + a[1..][..n] && b[..n + 1] == [b[0]] + b[1..][..n];
          assert Precedes(a, b, n + 1);
        }
      }
      if n: nat :| Precedes(a, b, n) {
        if n > 0 {
          assert a[..n][0] == b[..n][0];
          assert a[1..][..n - 1] == a[..n][1..] && b[1..][..n - 1] == b[..n][1..];
          assert Precedes(a[1..], b[1..], n - 1);
        }
      }
    }
  }

  lemma {:induction false} LessIsTransitive(a: string, b: string, c: string)
    requires Less(a, b) && Less(b, c)
    ensures Less(a, c)
  {
    if a != "" && a[0] == b[0] && b[0] == c[0] { LessIsTransitive(a[1..], b[1..], c[1..]); }
  }

  /** The map's order is a strict one, and it takes two keys with clean types for one only if they are one. */
  lemma KeysAreOrdered(k: Key, l: Key, m: Key)
    ensures !KeyLess(k, k)
    ensures KeyLess(k, l) && KeyLess(l, m) ==> KeyLess(k, m)
    ensures Clean(k.msgType) && Clean(l.msgType) ==> (KeyLess(k, l) || KeyLess(l, k) <==> k != l)
  {
    TextsAreOrdered(Encode(k), Encode(k));
    TextsAreOrdered(Encode(k), Encode(l));
    if KeyLess(k, l) && KeyLess(l, m) { LessIsTransitive(Encode(k), Encode(l), Encode(m)); }
    if Clean(k.msgType) && Clean(l.msgType) && Encode(k) == Encode(l) { CleanKeysDiffer(k, l); }
  }

  // ---------- the profiler ----------

  datatype Message = Message(msgType: Option<string>, subtype: Option<string>, source: Option<string>, sourceId: nat)

  /** Heartbeats have no type; messages without a source are dropped. */
  function KeyOf(m: Message): Option<Key> {
    if m.msgType == None || m.source == None || m.source.value == "" || m.sourceId == 0 then None
    else Some(Key(m.sourceId, m.msgType.value, if m.subtype.Some? then m.subtype.value else ""))
  }

  /** An entry of the type table, which may hold one entry for each text. */
  datatype MessageType = MessageType(name: string, subtype: string)

  type Types = map<string, MessageType>

  ghost predicate IsTable(types: Types) {
    forall text :: text in types ==> Body(types[text].name, types[text].subtype) == text
  }

  function TypeOf(k: Key): MessageType {
    MessageType(k.msgType, k.subtype)
  }

  function TypeText(k: Key): string {
    Body(k.msgType, k.subtype)
  }

  /** The key under which a message is recorded: the known entry with its text replaces type and subtype. */
  function LookedUp(types: Types, k: Key): Key {
    if TypeText(k) in types then Key(k.pluginId, types[TypeText(k)].name, types[TypeText(k)].subtype) else k
  }

  /** A new type enters the table once the database has stored it. */
  function Learned(types: Types, k: Key, stored: bool): Types {
    if TypeText(k) in types || !stored then types else types[TypeText(k) := TypeOf(k)]
  }

  lemma LookupKeepsText(types: Types, k: Key)
    requires IsTable(types)
    ensures Encode(LookedUp(types, k)) == Encode(k)
  {
  }

  const UINT_RANGE := 0x1_0000_0000

  /** `hasId` says that the type in the entry's key has a database id; it is the key's for good. */
  datatype ProfileData = ProfileData(key: Key, hasId: bool, messageCounts: nat, lastReceived: nat, times: seq<nat>)

  type Profile = map<string, ProfileData>

  function Recorded(p: Profile, k: Key, hasId: bool, rxTime: nat): Profile {
    var slot := Encode(k);
    p[slot := if slot in p
              then p[slot].(messageCounts := (p[slot].messageCounts + 1) % UINT_RANGE, lastReceived := rxTime,
                            times := p[slot].times + [rxTime])
              else ProfileData(k, hasId, 1, rxTime, [rxTime])]
  }

  function Kept(times: seq<nat>, window: nat, now: nat): seq<nat> {
    if times == [] then []
    else (if window + times[0] < now then [] else [times[0]]) + Kept(times[1..], window, now)
  }

  function Purged(p: Profile, window: nat, now: nat): Profile {
    map slot | slot in p :: p[slot].(times := Kept(p[slot].times, window, now))
  }

  /** The row written to the database for one entry; a type without an id is written as type 0. */
  datatype Activity = Activity(messageType: Option<MessageType>, pluginId: nat, count: nat, lastReceivedSeconds: nat, averageInterval: nat)

  function ActivityOf(d: ProfileData, window: nat): Activity {
    Activity(if d.hasId then Some(TypeOf(d.key)) else None, d.key.pluginId, d.messageCounts, d.lastReceived / 1000,
             if |d.times| == 0 then 0 else window / |d.times|)
  }

  /** A row says what its entry holds: whole seconds, and the window shared out over the times in it. */
  ghost predicate Describes(a: Activity, d: ProfileData, window: nat) {
    a.pluginId == d.key.pluginId && a.count == d.messageCounts &&
    (if d.hasId then a.messageType == Some(MessageType(d.key.msgType, d.key.subtype)) else a.messageType == None) &&
    a.lastReceivedSeconds * 1000 <= d.lastReceived < a.lastReceivedSeconds * 1000 + 1000 &&
    if d.times == [] then a.averageInterval == 0
    else a.averageInterval * |d.times| <= window < (a.averageInterval + 1) * |d.times|
  }

  lemma ActivityDescribes(d: ProfileData, window: nat)
    ensures Describes(ActivityOf(d, window), d, window)
  {
    if d.times != [] {
      var n := |d.times|;
      var q := window / n;
      assert window == q * n + window % n && window % n < n;
      assert (q + 1) * n == q * n + n;
    }
  }

  const DEFAULT_WINDOW_MS := 6000

  datatype State = State(types: Types, profile: Profile)

  function Noted(s: State, msg: Message, rxTime: nat, stored: bool): State {
    if KeyOf(msg) == None then s
    else
      var k := KeyOf(msg).value;
      State(Learned(s.types, k, stored),
            Recorded(s.profile, LookedUp(s.types, k), TypeText(k) in s.types || stored, rxTime))
  }

  class MessageProfiler {
    var types: Types
    var profile: Profile

    /** The table starts out with what the database holds, or empty if it cannot be read. */
    constructor (known: Types)
      ensures types == known && profile == map[]
    {
      types, profile := known, map[];
    }

    /** `stored` says whether the database takes a type that is not in the table. */
    method OnMessageReceived(msg: Message, rxTime: nat, stored: bool)
      modifies this
      ensures State(types, profile) == Noted(State(old(types), old(profile)), msg, rxTime, stored)
    {
      if msg.msgType == None {
        return;
      }
      if msg.source == None || msg.source.value == "" || msg.sourceId == 0 {
        return;
      }
      var messageType := MessageType(msg.msgType.value, if msg.subtype.Some? then msg.subtype.value else "");
      var text := Body(messageType.name, messageType.subtype);
      var hasId := stored;
      if text !in types {
        if stored { types := types[text := messageType]; }
      } else {
        messageType := types[text];
        hasId := true;
      }
      var key := Key(msg.sourceId, messageType.name, messageType.subtype);
      var slot := Encode(key);
      if slot in profile {
        var d := profile[slot];
        d := d.(lastReceived := rxTime);
        d := d.(messageCounts := (d.messageCounts + 1) % UINT_RANGE);
        d := d.(times := d.times + [rxTime]);
        profile := profile[slot := d];
      } else {
        profile := profile[slot := ProfileData(key, hasId, 1, rxTime, [rxTime])];
      }
    }

    /** One round of the refresh thread: purge each entry's times and list its activity. */
    method Refresh(configured: nat, now: nat) returns (activity: map<string, Activity>)
      modifies this`profile
      ensures var window := if configured == 0 then DEFAULT_WINDOW_MS else configured;
              profile == Purged(old(profile), window, now) &&
              activity == map slot | slot in profile :: ActivityOf(profile[slot], window)
      ensures activity.Keys == profile.Keys == old(profile).Keys
      ensures forall slot :: slot in activity ==>
                Describes(activity[slot], profile[slot], if configured == 0 then 6000 else configured)
    {
      var window := if configured == 0 then DEFAULT_WINDOW_MS else configured;
      activity := map[];
      ghost var was, goal := profile, Purged(profile, window, now);
      var todo := profile.Keys;
      while todo != {}
        invariant Halfway(was, goal, window, todo, profile, activity)
      {
        var slot :| slot in todo;
        var times := PurgeTimes(profile[slot].times, window, now);
        var d := profile[slot].(times := times);
        OneSlot(was, goal, window, todo, profile, activity, slot, d);
        profile := profile[slot := d];
        activity := activity[slot := ActivityOf(d, window)];
        todo := todo - {slot};
      }
      assert profile == goal;
      forall slot | slot in profile ensures Describes(ActivityOf(profile[slot], window), profile[slot], window) {
        ActivityDescribes(profile[slot], window);
      }
    }
  }

  /** Entries still to do are as they were; the others are purged and listed. */
  ghost predicate Halfway(was: Profile, goal: Profile, window: nat, todo: set<string>, p: Profile, a: map<string, Activity>) {
    was.Keys == goal.Keys == p.Keys && todo <= goal.Keys && a.Keys == goal.Keys - todo &&
    (forall slot :: slot in todo ==> p[slot] == was[slot]) &&
    forall slot :: slot in a ==> p[slot] == goal[slot] && a[slot] == ActivityOf(goal[slot], window)
  }

  lemma OneSlot(was: Profile, goal: Profile, window: nat, todo: set<string>, p: Profile, a: map<string, Activity>,
                slot: string, d: ProfileData)
    requires Halfway(was, goal, window, todo, p, a) && slot in todo && d == goal[slot]
    ensures Halfway(was, goal, window, todo - {slot}, p[slot := d], a[slot := ActivityOf(d, window)])
  {
    assert a[slot := ActivityOf(d, window)].Keys == goal.Keys - (todo - {slot});
  }

  ghost function InWindowAt(times: seq<nat>, window: nat, now: nat): set<nat> {
    set i: nat | i < |times| && now <= window + times[i]
  }

  /** What is kept are exactly the times still in the window, in order. */
  ghost predicate StillIn(kept: seq<nat>, times: seq<nat>, window: nat, now: nat) {
    exists at :: Lists(at, InWindowAt(times, window, now)) && Picks(at, kept, times)
  }

  ghost predicate Picks(at: seq<nat>, kept: seq<nat>, times: seq<nat>) {
    |at| == |kept| && forall j :: 0 <= j < |at| ==> at[j] < |times| && kept[j] == times[at[j]]
  }

  lemma {:induction false} KeptIsListed(times: seq<nat>, window: nat, now: nat) returns (at: seq<nat>)
    ensures Lists(at, InWindowAt(times, window, now)) && Picks(at, Kept(times, window, now), times)
    decreases |times|
  {
    if times == [] {
      at := [];
    } else {
      var n := |times| - 1;
      var some, t := times[..n], times[n];
      at := KeptIsListed(some, window, now);
      assert times == some + [t] && [t][1..] == [];
      KeptAppend(some, [t], window, now);
      assert InWindowAt(times, window, now) == InWindowAt(some, window, now) + if now <= window + t then {n} else {};
      if now <= window + t {
        ListsNext(at, InWindowAt(some, window, now), n);
        at := at + [n];
      }
    }
  }

  lemma KeptIsStillIn(times: seq<nat>, window: nat, now: nat)
    ensures StillIn(Kept(times, window, now), times, window, now)
  {
    var at := KeptIsListed(times, window, now);
  }

  /** The loop that erases from the vector it runs over. */
  method PurgeTimes(received: seq<nat>, window: nat, now: nat) returns (times: seq<nat>)
    ensures times == Kept(received, window, now) && StillIn(times, received, window, now)
  {
    KeptIsStillIn(received, window, now);
    times := received;
    var i := 0;
    while i < |times|
      invariant 0 <= i <= |times|
      invariant Kept(received, window, now) == times[..i] + Kept(times[i..], window, now)
      decreases |times| - i
    {
      ghost var rest := times[i..];
      assert rest[1..] == times[i + 1..];
      if window + times[i] < now {
        assert (times[..i] + times[i + 1..])[i..] == times[i + 1..];
        times := times[..i] + times[i + 1..];
      } else {
        assert times[..i + 1] == times[..i] + [times[i]];
        i := i + 1;
      }
    }
    assert times[..i] == times;
  }

  // ---------- the profile against the full log ----------

  datatype Event = Received(msg: Message, time: nat, stored: bool) | Purge(window: nat, now: nat)

  ghost function Next(s: State, e: Event): State {
    if e.Purge? then s.(profile := Purged(s.profile, e.window, e.now)) else Noted(s, e.msg, e.time, e.stored)
  }

  ghost function Replay(known: Types, log: seq<Event>): State {
    if log == [] then State(known, map[]) else Next(Replay(known, log[..|log| - 1]), log[|log| - 1])
  }

  /** A message that counts for a key: it has its type and subtype, and names its sender with this id. */
  ghost predicate IsFrom(m: Message, k: Key) {
    m.msgType == Some(k.msgType) && (if m.subtype == None then k.subtype == "" else m.subtype == Some(k.subtype)) &&
    m.sourceId == k.pluginId != 0 && m.source != None && m.source != Some("")
  }

  lemma KeyIsFrom(m: Message, k: Key)
    ensures IsFrom(m, k) <==> KeyOf(m) == Some(k)
  {
  }

  ghost predicate HasKey(e: Event, k: Key) {
    e.Received? && IsFrom(e.msg, k)
  }

  /** When messages with this key were received, over the whole log. */
  ghost function ReceiveTimes(log: seq<Event>, k: Key): seq<nat> {
    if log == [] then []
    else
      var e := log[|log| - 1];
      ReceiveTimes(log[..|log| - 1], k) + if HasKey(e, k) then [e.time] else []
  }

  ghost predicate CleanLog(log: seq<Event>) {
    forall i :: 0 <= i < |log| && log[i].Received? && KeyOf(log[i].msg).Some? ==> Clean(KeyOf(log[i].msg).value.msgType)
  }

  /** No logged message has another key with the same text as this one. */
  ghost predicate NoTwin(log: seq<Event>, k: Key) {
    forall i :: 0 <= i < |log| && log[i].Received? && KeyOf(log[i].msg).Some? ==>
      KeyOf(log[i].msg).value == k || Encode(KeyOf(log[i].msg).value) != Encode(k)
  }

  // ---------- the type table over the log ----------

  /** The event puts a type with this text into a table that has none. */
  ghost predicate Teaches(e: Event, text: string) {
    e.Received? && e.stored && KeyOf(e.msg).Some? && TypeText(KeyOf(e.msg).value) == text
  }

  ghost function FirstTaught(log: seq<Event>, text: string): Option<MessageType> {
    if log == [] then None
    else if Teaches(log[0], text) then Some(TypeOf(KeyOf(log[0].msg).value))
    else FirstTaught(log[1..], text)
  }

  /** What is known of a text: the entry the table started with, or the first one stored since. */
  ghost function Known(known: Types, log: seq<Event>, text: string): Option<MessageType> {
    if text in known then Some(known[text]) else FirstTaught(log, text)
  }

  lemma {:induction false} TaughtAppend(log: seq<Event>, e: Event, text: string)
    ensures FirstTaught(log + [e], text) ==
            if FirstTaught(log, text).Some? then FirstTaught(log, text) else FirstTaught([e], text)
    decreases |log|
  {
    if log == [] {
      assert log + [e] == [e];
    } else {
      assert (log + [e])[0] == log[0] && (log + [e])[1..] == log[1..] + [e];
      TaughtAppend(log[1..], e, text);
    }
  }

  ghost function Lookup(types: Types, text: string): Option<MessageType> {
    if text in types then Some(types[text]) else None
  }

  lemma {:induction false} TableIsKnown(known: Types, log: seq<Event>, text: string)
    requires IsTable(known)
    ensures IsTable(Replay(known, log).types)
    ensures Lookup(Replay(known, log).types, text) == Known(known, log, text)
    decreases |log|
  {
    if log != [] {
      var some, e := log[..|log| - 1], log[|log| - 1];
      TableIsKnown(known, some, text);
      TaughtAppend(some, e, text);
      assert log == some + [e] && [e][1..] == [];
    }
  }

  // ---------- when the profile agrees with the log ----------

  /** The first message with this key. */
  ghost predicate IsFirst(log: seq<Event>, i: nat, k: Key) {
    i < |log| && HasKey(log[i], k) && forall j :: 0 <= j < i ==> !HasKey(log[j], k)
  }

  /** When the first message with this key came, its text was not known as another type and subtype. */
  ghost predicate KnownAsItself(known: Types, log: seq<Event>, k: Key) {
    forall i: nat :: IsFirst(log, i, k) ==> Known(known, log[..i], TypeText(k)) in {None, Some(TypeOf(k))}
  }

  ghost predicate CleanTable(types: Types) {
    forall text :: text in types ==> Clean(types[text].name)
  }

  lemma SameTextSameKey(k: Key, l: Key)
    requires TypeText(k) == TypeText(l) && Clean(k.msgType) && (Clean(l.msgType) || CleanSubtype(k.subtype))
    ensures TypeOf(k) == TypeOf(l)
  {
    var l' := l.(pluginId := k.pluginId);
    assert Encode(k) == Encode(l');
    if Clean(l.msgType) { CleanKeysDiffer(k, l'); } else { TextIsItsOwnExactlyWhen(k); }
  }

  lemma {:induction false} TaughtAsItself(log: seq<Event>, k: Key)
    requires Clean(k.msgType) && (CleanLog(log) || CleanSubtype(k.subtype))
    ensures FirstTaught(log, TypeText(k)) in {None, Some(TypeOf(k))}
  {
    if log != [] {
      if Teaches(log[0], TypeText(k)) { SameTextSameKey(k, KeyOf(log[0].msg).value); } else { TaughtAsItself(log[1..], k); }
    }
  }

  /** All is well when all types, of messages and in the table, are clean, and for a key that is clean itself. */
  lemma CleanHasNoTwin(known: Types, log: seq<Event>, k: Key)
    requires IsTable(known) && Clean(k.msgType) && ((CleanLog(log) && CleanTable(known)) || CleanSubtype(k.subtype))
    ensures NoTwin(log, k) && KnownAsItself(known, log, k)
  {
    forall i | 0 <= i < |log| && log[i].Received? && KeyOf(log[i].msg).Some?
      ensures KeyOf(log[i].msg).value == k || Encode(KeyOf(log[i].msg).value) != Encode(k)
    {
      var l := KeyOf(log[i].msg).value;
      if Encode(l) == Encode(k) {
        SameText(k, l);
        SameTextSameKey(k, l);
      }
    }
    forall i: nat | IsFirst(log, i, k) ensures Known(known, log[..i], TypeText(k)) in {None, Some(TypeOf(k))} {
      if TypeText(k) in known {
        var m := known[TypeText(k)];
        SameTextSameKey(k, Key(k.pluginId, m.name, m.subtype));
      } else {
        TaughtAsItself(log[..i], k);
      }
    }
  }

  /** What an entry says of the times its messages were received, apart from the purged list. */
  ghost predicate Counted(p: Profile, k: Key, received: seq<nat>) {
    (Encode(k) in p <==> received != []) &&
    (received != [] ==>
      var d := p[Encode(k)];
      d.key == k && d.messageCounts == |received| % 0x1_0000_0000 && d.lastReceived == received[|received| - 1])
  }

  lemma CountOne(p: Profile, k: Key, l: Key, hasId: bool, received: seq<nat>, time: nat)
    requires Counted(p, k, received) && Encode(l) == Encode(k) && (received == [] ==> l == k)
    ensures Counted(Recorded(p, l, hasId, time), k, received + [time])
  {
    if received == [] { assert received + [time] == [time]; }
  }

  lemma {:induction false} NotReceived(log: seq<Event>, k: Key)
    ensures ReceiveTimes(log, k) == [] <==> forall i :: 0 <= i < |log| ==> !HasKey(log[i], k)
  {
    if log != [] {
      var some := log[..|log| - 1];
      NotReceived(some, k);
      assert forall i :: 0 <= i < |some| ==> log[i] == some[i];
    }
  }

  lemma PrefixKnownAsItself(known: Types, log: seq<Event>, n: nat, k: Key)
    requires n <= |log| && KnownAsItself(known, log, k)
    ensures KnownAsItself(known, log[..n], k)
  {
    forall i: nat | IsFirst(log[..n], i, k) ensures Known(known, log[..n][..i], TypeText(k)) in {None, Some(TypeOf(k))} {
      assert forall j :: 0 <= j <= i ==> log[..n][j] == log[j];
      assert IsFirst(log, i, k) && log[..n][..i] == log[..i];
    }
  }

  /** An event for another key leaves an entry's count as it is. */
  lemma OtherEvent(s: State, e: Event, k: Key, received: seq<nat>)
    requires IsTable(s.types) && Counted(s.profile, k, received) && NoTwin([e], k) && !HasKey(e, k)
    ensures Counted(Next(s, e).profile, k, received)
  {
    assert [e][0] == e;
    if e.Received? && KeyOf(e.msg).Some? {
      KeyIsFrom(e.msg, k);
      LookupKeepsText(s.types, KeyOf(e.msg).value);
    }
  }

  lemma OwnEvent(s: State, e: Event, k: Key, received: seq<nat>)
    requires IsTable(s.types) && Counted(s.profile, k, received) && HasKey(e, k)
    requires received == [] ==> Lookup(s.types, TypeText(k)) in {None, Some(TypeOf(k))}
    ensures Counted(Next(s, e).profile, k, received + [e.time])
  {
    KeyIsFrom(e.msg, k);
    LookupKeepsText(s.types, k);
    CountOne(s.profile, k, LookedUp(s.types, k), TypeText(k) in s.types || e.stored, received, e.time);
  }

  /** Each entry counts exactly the logged messages with its plugin, type and subtype, and is kept under them. */
  lemma {:induction false} CountsAgreeWithLog(known: Types, log: seq<Event>, k: Key)
    requires IsTable(known) && NoTwin(log, k) && KnownAsItself(known, log, k)
    ensures Counted(Replay(known, log).profile, k, ReceiveTimes(log, k))
    decreases |log|
  {
    if log != [] {
      var n := |log| - 1;
      var some, e := log[..n], log[n];
      PrefixKnownAsItself(known, log, n, k);
      CountsAgreeWithLog(known, some, k);
      TableIsKnown(known, some, TypeText(k));
      if HasKey(e, k) {
        NotReceived(some, k);
        assert ReceiveTimes(some, k) == [] ==> IsFirst(log, n, k);
        OwnEvent(Replay(known, some), e, k, ReceiveTimes(some, k));
      } else {
        assert ReceiveTimes(some, k) + [] == ReceiveTimes(some, k);
        OtherEvent(Replay(known, some), e, k, ReceiveTimes(some, k));
      }
    }
  }

  /** Logged messages whose key has this text. */
  ghost function Hits(log: seq<Event>, text: string): nat {
    if log == [] then 0
    else
      var e := log[|log| - 1];
      Hits(log[..|log| - 1], text) +
      if e.Received? && KeyOf(e.msg).Some? && Encode(KeyOf(e.msg).value) == text then 1 else 0
  }

  lemma {:induction false} EntriesCountHits(known: Types, log: seq<Event>, text: string)
    requires IsTable(known)
    ensures text in Replay(known, log).profile <==> Hits(log, text) > 0
    ensures text in Replay(known, log).profile ==> Replay(known, log).profile[text].messageCounts == Hits(log, text) % UINT_RANGE
    decreases |log|
  {
    if log != [] {
      var some, e := log[..|log| - 1], log[|log| - 1];
      EntriesCountHits(known, some, text);
      if e.Received? && KeyOf(e.msg).Some? {
        var s, k := Replay(known, some), KeyOf(e.msg).value;
        TableIsKnown(known, some, text);
        LookupKeepsText(s.types, k);
        HitOne(s.profile, LookedUp(s.types, k), TypeText(k) in s.types || e.stored, e.time, text, Hits(some, text));
      }
    }
  }

  lemma HitOne(p: Profile, k: Key, hasId: bool, time: nat, text: string, hits: nat)
    requires (text in p <==> hits > 0) && (text in p ==> p[text].messageCounts == hits % UINT_RANGE)
    ensures var p' := Recorded(p, k, hasId, time);
            if Encode(k) == text then text in p' && p'[text].messageCounts == (hits + 1) % UINT_RANGE
            else (text in p' <==> text in p) && (text in p ==> p'[text] == p[text])
  {
  }

  lemma {:induction false} TwinsHit(log: seq<Event>, k: Key)
    ensures |ReceiveTimes(log, k)| <= Hits(log, Encode(k)) <= |log|
    ensures !NoTwin(log, k) ==> |ReceiveTimes(log, k)| < Hits(log, Encode(k))
    ensures NoTwin(log, k) ==> |ReceiveTimes(log, k)| == Hits(log, Encode(k))
  {
    if log != [] {
      var some := log[..|log| - 1];
      TwinsHit(some, k);
      assert forall i :: 0 <= i < |some| ==> log[i] == some[i];
    }
  }

  /** An entry keeps the key and the type id it was made with. */
  lemma {:induction false} EntryStays(known: Types, log: seq<Event>, i: nat, text: string)
    requires i <= |log| && text in Replay(known, log[..i]).profile
    ensures text in Replay(known, log).profile
    ensures var d, made := Replay(known, log).profile[text], Replay(known, log[..i]).profile[text];
            d.key == made.key && d.hasId == made.hasId
    decreases |log|
  {
    if i == |log| {
      assert log[..i] == log;
    } else {
      var some := log[..|log| - 1];
      assert some[..i] == log[..i];
      EntryStays(known, some, i, text);
    }
  }

  ghost predicate Hit(e: Event, text: string) {
    e.Received? && KeyOf(e.msg).Some? && Encode(KeyOf(e.msg).value) == text
  }

  lemma {:induction false} NoHits(log: seq<Event>, text: string)
    requires forall i :: 0 <= i < |log| ==> !Hit(log[i], text)
    ensures Hits(log, text) == 0
  {
    if log != [] { NoHits(log[..|log| - 1], text); }
  }

  /**
   What the first message of an entry decides for good: the entry is kept under the type then known
   with its text, or else under its own, and it has a type id exactly when its text was known then
   or the database stored it.
   */
  lemma FirstMessageDecides(known: Types, log: seq<Event>, i: nat, k: Key)
    requires IsTable(known) && i < |log| && HasKey(log[i], k)
    requires forall j :: 0 <= j < i ==> !Hit(log[j], Encode(k))
    ensures Encode(k) in Replay(known, log).profile
    ensures var d, m := Replay(known, log).profile[Encode(k)], Known(known, log[..i], TypeText(k));
            d.key == (if m.Some? then Key(k.pluginId, m.value.name, m.value.subtype) else k) &&
            (d.hasId <==> m.Some? || log[i].stored)
  {
    var before, after := log[..i], log[..i + 1];
    var s := Replay(known, before);
    TableIsKnown(known, before, TypeText(k));
    LookupKeepsText(s.types, k);
    NoHits(before, Encode(k));
    EntriesCountHits(known, before, Encode(k));
    assert after[..|after| - 1] == before && after[i] == log[i];
    assert Replay(known, after).profile[Encode(k)].key == LookedUp(s.types, k);
    EntryStays(known, log, i + 1, Encode(k));
  }

  /** A message whose text is known as another type makes its entry under that one. */
  lemma MadeUnderAnother(known: Types, log: seq<Event>, k: Key, i: nat)
    requires IsTable(known) && NoTwin(log, k) && IsFirst(log, i, k)
    requires Known(known, log[..i], TypeText(k)) !in {None, Some(TypeOf(k))}
    ensures Encode(k) in Replay(known, log).profile && Replay(known, log).profile[Encode(k)].key != k
  {
    FirstMessageDecides(known, log, i, k);
  }

  /**
   A key's entry agrees with the log, in presence, key, count and last time, exactly when its sender
   sent no other key with its text and its text was not known as another type when it first came.
   */
  lemma CountsAgreeExactlyWhen(known: Types, log: seq<Event>, k: Key)
    requires IsTable(known) && |log| < UINT_RANGE
    ensures Counted(Replay(known, log).profile, k, ReceiveTimes(log, k)) <==> NoTwin(log, k) && KnownAsItself(known, log, k)
  {
    if !NoTwin(log, k) {
      TwinsMiscount(known, log, k);
    } else if KnownAsItself(known, log, k) {
      CountsAgreeWithLog(known, log, k);
    } else {
      var i: nat :| IsFirst(log, i, k) && Known(known, log[..i], TypeText(k)) !in {None, Some(TypeOf(k))};
      NotReceived(log, k);
      OtherKey(known, log, k, i);
    }
  }

  lemma TwinsMiscount(known: Types, log: seq<Event>, k: Key)
    requires IsTable(known) && |log| < UINT_RANGE && !NoTwin(log, k)
    ensures !Counted(Replay(known, log).profile, k, ReceiveTimes(log, k))
  {
    EntriesCountHits(known, log, Encode(k));
    TwinsHit(log, k);
  }

  lemma OtherKey(known: Types, log: seq<Event>, k: Key, i: nat)
    requires IsTable(known) && NoTwin(log, k) && IsFirst(log, i, k) && ReceiveTimes(log, k) != []
    requires Known(known, log[..i], TypeText(k)) !in {None, Some(TypeOf(k))}
    ensures !Counted(Replay(known, log).profile, k, ReceiveTimes(log, k))
  {
    MadeUnderAnother(known, log, k, i);
  }

  ghost function TimesIn(p: Profile, k: Key): seq<nat> {
    if Encode(k) in p then p[Encode(k)].times else []
  }

  lemma {:induction false} KeptAppend(a: seq<nat>, b: seq<nat>, window: nat, now: nat)
    ensures Kept(a + b, window, now) == Kept(a, window, now) + Kept(b, window, now)
    decreases |a|
  {
    if a == [] {
      assert a + b == b;
    } else {
      assert (a + b)[1..] == a[1..] + b;
      KeptAppend(a[1..], b, window, now);
      var first, rest, other := if window + a[0] < now then [] else [a[0]], Kept(a[1..], window, now), Kept(b, window, now);
      assert Kept(a + b, window, now) == first + (rest + other);
      assert first + (rest + other) == (first + rest) + other;
    }
  }

  /** A purge with a later limit makes an earlier one unnoticeable. */
  lemma {:induction false} KeptTwice(times: seq<nat>, w: nat, n: nat, window: nat, now: nat)
    requires n - w <= now - window
    ensures Kept(Kept(times, w, n), window, now) == Kept(times, window, now)
  {
    if times != [] {
      KeptTwice(times[1..], w, n, window, now);
      KeptAppend(if w + times[0] < n then [] else [times[0]], Kept(times[1..], w, n), window, now);
    }
  }

  /** No purge in the log had a later limit than this one. */
  ghost predicate NoLaterLimit(log: seq<Event>, window: nat, now: nat) {
    forall i :: 0 <= i < |log| && log[i].Purge? ==> log[i].now - log[i].window <= now - window
  }

  /** A recorded message adds its time to the entry with its text. */
  lemma TimesRecorded(p: Profile, l: Key, hasId: bool, time: nat, k: Key)
    ensures TimesIn(Recorded(p, l, hasId, time), k) == TimesIn(p, k) + if Encode(l) == Encode(k) then [time] else []
  {
    assert [] + [time] == [time] && TimesIn(p, k) + [] == TimesIn(p, k);
  }

  lemma TimesNext(s: State, e: Event, k: Key, all: seq<nat>, window: nat, now: nat)
    requires IsTable(s.types) && NoTwin([e], k) && NoLaterLimit([e], window, now)
    requires Kept(TimesIn(s.profile, k), window, now) == Kept(all, window, now)
    ensures Kept(TimesIn(Next(s, e).profile, k), window, now)
         == Kept(all + if HasKey(e, k) then [e.time] else [], window, now)
  {
    assert [e][0] == e && all + [] == all;
    if e.Purge? {
      KeptTwice(TimesIn(s.profile, k), e.window, e.now, window, now);
    } else if KeyOf(e.msg).Some? {
      var l := KeyOf(e.msg).value;
      KeyIsFrom(e.msg, k);
      LookupKeepsText(s.types, l);
      TimesRecorded(s.profile, LookedUp(s.types, l), TypeText(l) in s.types || e.stored, e.time, k);
      KeptAppend(all, [e.time], window, now);
      KeptAppend(TimesIn(s.profile, k), [e.time], window, now);
      assert TimesIn(s.profile, k) + [] == TimesIn(s.profile, k);
    } else {
      KeyIsFrom(e.msg, k);
    }
  }

  lemma {:induction false} TimesAgreeWithLog(known: Types, log: seq<Event>, k: Key, window: nat, now: nat)
    requires IsTable(known) && NoTwin(log, k) && NoLaterLimit(log, window, now)
    ensures Kept(TimesIn(Replay(known, log).profile, k), window, now) == Kept(ReceiveTimes(log, k), window, now)
    decreases |log|
  {
    if log != [] {
      var n := |log| - 1;
      var some, e := log[..n], log[n];
      TimesAgreeWithLog(known, some, k, window, now);
      TableIsKnown(known, some, TypeText(k));
      TimesNext(Replay(known, some), e, k, ReceiveTimes(some, k), window, now);
    }
  }

  /** One window throughout, and purges in the order of the clock. */
  ghost predicate Steady(log: seq<Event>, window: nat) {
    (forall i :: 0 <= i < |log| && log[i].Purge? ==> log[i].window == window) &&
    forall i, j :: 0 <= i < j < |log| && log[i].Purge? && log[j].Purge? ==> log[i].now <= log[j].now
  }

  /** Right after a purge the times kept for a key are exactly its logged times still in the window. */
  lemma WindowAgreesWithLog(known: Types, log: seq<Event>, k: Key, window: nat, now: nat)
    requires IsTable(known) && NoTwin(log, k) && Steady(log + [Purge(window, now)], window)
    ensures StillIn(TimesIn(Replay(known, log + [Purge(window, now)]).profile, k), ReceiveTimes(log, k), window, now)
  {
    KeptIsStillIn(ReceiveTimes(log, k), window, now);
    var whole := log + [Purge(window, now)];
    assert whole[..|log|] == log;
    forall i | 0 <= i < |log| && log[i].Purge? ensures log[i].now - log[i].window <= now - window {
      assert whole[i] == log[i] && whole[|log|] == Purge(window, now);
    }
    TimesAgreeWithLog(known, log, k, window, now);
  }

  /** Two kinds of messages counted as one. */
  lemma BarsMergeEntries()
    ensures Encode(Key(7, "A||B", "C")) == Encode(Key(7, "A", "B||C"))
  {
    assert Body("A||B", "C") == Body("A", "B||C");
  }

  /** A message of plugin 8 listed under a type that only plugin 7 ever sent. */
  lemma AnotherSenderNamesTheEntry(source: string, t: nat, u: nat)
    requires source != ""
    ensures var log := [Received(Message(Some("A||B"), Some("C"), Some(source), 7), t, true),
                        Received(Message(Some("A"), Some("B||C"), Some(source), 8), u, true)];
            var k := Key(8, "A", "B||C");
            NoTwin(log, k) && Encode(k) in Replay(map[], log).profile &&
            Replay(map[], log).profile[Encode(k)].key == Key(8, "A||B", "C")
  {
    var a, b := Received(Message(Some("A||B"), Some("C"), Some(source), 7), t, true),
                Received(Message(Some("A"), Some("B||C"), Some(source), 8), u, true);
    var k, l := Key(8, "A", "B||C"), Key(7, "A||B", "C");
    assert Body("A||B", "C") == Body("A", "B||C");
    if Encode(l) == Encode(k) { SameText(k, l); }
    assert [a, b][..1] == [a] && [a][..0] == [];
    assert Replay(map[], [a]) == State(map[TypeText(l) := TypeOf(l)], Recorded(map[], l, true, t));
    assert LookedUp(map[TypeText(l) := TypeOf(l)], k) == Key(8, "A||B", "C");
    assert Encode(Key(8, "A||B", "C")) == Encode(k);
  }
}
