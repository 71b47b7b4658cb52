/**
 The message router (src/tmx/TmxCore/src/MessageRouterBasic.cpp).

 `MessageRouterBasic` is the router run by one thread alone.  The rest of the module is the
 same code cut into its atomic sections and interleaved: any number of broadcasts, possibly
 nested in each other's callbacks, and any number of threads that register or unregister.
 */
module MessageRouting {
  import opened Wrappers
  import opened Sets

  // Receivers are pointers; std::map visits them in address order.
  type Receiver = nat

  datatype Message = Message(typ: Option<string>, subtype: Option<string>, flags: bv32)

  datatype FilterEntry = FilterEntry(typ: string, subtype: string, flagmask: bv32)

  type Subscriptions = map<Receiver, seq<FilterEntry>>

  predicate FlagsPass(f: FilterEntry, msg: Message) {
    f.flagmask == 0 || (f.flagmask & msg.flags) > 0
  }

  predicate EntryMatches(f: FilterEntry, msg: Message) {
    if f.typ == "*" then FlagsPass(f, msg)
    else
      && msg.typ == Some(f.typ)
      && (f.subtype == "*" || msg.subtype == Some(f.subtype))
      && FlagsPass(f, msg)
  }

  predicate Wants(filters: seq<FilterEntry>, msg: Message) {
    exists i :: 0 <= i < |filters| && EntryMatches(filters[i], msg)
  }

  /** Who must get `msg`: everybody with a matching filter except the sender. */
  ghost function Targets(m: Subscriptions, sender: Option<Receiver>, msg: Message): set<Receiver> {
    set r | r in m && sender != Some(r) && Wants(m[r], msg)
  }

  ghost predicate StrictlyAscending(s: seq<Receiver>) {
    forall i, j :: 0 <= i < j < |s| ==> s[i] < s[j]
  }

  ghost function Elements(s: seq<Receiver>): set<Receiver> {
    set r | r in s
  }

  /** Exactly once each, and precisely the targets. */
  ghost predicate ExactDelivery(delivered: seq<Receiver>, m: Subscriptions, sender: Option<Receiver>, msg: Message) {
    StrictlyAscending(delivered) && Elements(delivered) == Targets(m, sender, msg)
  }

  /** What an entry asks for, on its fields and those of the message. */
  ghost predicate Asks(f: FilterEntry, msg: Message) {
    (f.flagmask == 0 || f.flagmask & msg.flags != 0) &&
    (f.typ != "*" ==> msg.typ == Some(f.typ) && (f.subtype != "*" ==> msg.subtype == Some(f.subtype)))
  }

  ghost predicate AskedFor(entries: seq<FilterEntry>, msg: Message) {
    exists i :: 0 <= i < |entries| && Asks(entries[i], msg)
  }

  lemma PassingFlags(f: FilterEntry, msg: Message)
    ensures FlagsPass(f, msg) <==> f.flagmask == 0 || f.flagmask & msg.flags != 0
  {
    Masked(f.flagmask & msg.flags);
  }

  lemma MatchesWhatItAsks(f: FilterEntry, msg: Message)
    ensures EntryMatches(f, msg) <==> Asks(f, msg)
  {
    PassingFlags(f, msg);
    if f.typ == "*" {
      assert EntryMatches(f, msg) == FlagsPass(f, msg);
    }
  }

  lemma WantsIsAskedFor(entries: seq<FilterEntry>, msg: Message)
    ensures Wants(entries, msg) <==> AskedFor(entries, msg)
  {
    forall i | 0 <= i < |entries| ensures EntryMatches(entries[i], msg) <==> Asks(entries[i], msg) {
      MatchesWhatItAsks(entries[i], msg);
    }
  }

  lemma Masked(x: bv32)
    ensures x > 0 <==> x != 0
  {
  }

  /** Exactly who is called, whatever the map, the sender and the message. */
  lemma DeliveredExactlyWhen(delivered: seq<Receiver>, m: Subscriptions, sender: Option<Receiver>, msg: Message, r: Receiver)
    requires ExactDelivery(delivered, m, sender, msg)
    ensures r in delivered <==> r in m && sender != Some(r) && AskedFor(m[r], msg)
  {
    assert r in delivered <==> r in Elements(delivered);
    if r in m { WantsIsAskedFor(m[r], msg); }
  }

  lemma WhoIsCalled(delivered: seq<Receiver>, m: Subscriptions, sender: Option<Receiver>, msg: Message)
    requires ExactDelivery(delivered, m, sender, msg)
    ensures forall r :: r in delivered <==> r in m && sender != Some(r) && AskedFor(m[r], msg)
  {
    forall r ensures r in delivered <==> r in m && sender != Some(r) && AskedFor(m[r], msg) {
      DeliveredExactlyWhen(delivered, m, sender, msg, r);
    }
  }

  /** A receiver all of whose entries name another type, another subtype or other flags is not called. */
  lemma OthersAreNotDelivered(delivered: seq<Receiver>, m: Subscriptions, sender: Option<Receiver>, msg: Message, r: Receiver)
    requires ExactDelivery(delivered, m, sender, msg) && r in m
    requires forall i :: 0 <= i < |m[r]| ==>
               var f := m[r][i];
               (f.flagmask != 0 && f.flagmask & msg.flags == 0) ||
               (f.typ != "*" && (msg.typ != Some(f.typ) || (f.subtype != "*" && msg.subtype != Some(f.subtype))))
    ensures r !in delivered
  {
    DeliveredExactlyWhen(delivered, m, sender, msg, r);
  }

  class MessageRouterBasic {
    var activeBroadcasts: nat
    var filters: Subscriptions

    constructor ()
      ensures activeBroadcasts == 0 && filters == map[]
    {
      activeBroadcasts, filters := 0, map[];
    }

    /** The receivers are called in address order. */
    method BroadcastMessage(sender: Option<Receiver>, msg: Message) returns (delivered: seq<Receiver>)
      modifies this`activeBroadcasts
      ensures activeBroadcasts == old(activeBroadcasts)
      ensures ExactDelivery(delivered, filters, sender, msg)
      ensures forall r :: r in delivered <==> r in filters && sender != Some(r) && AskedFor(filters[r], msg)
    {
      activeBroadcasts := activeBroadcasts + 1;
      delivered := [];
      var todo := filters.Keys;
      while todo != {}
        invariant todo <= filters.Keys
        invariant forall r, t :: r in filters && r !in todo && t in todo ==> r < t
        invariant StrictlyAscending(delivered)
        invariant forall x :: x in delivered <==> x in Targets(filters, sender, msg) && x !in todo
        invariant activeBroadcasts == old(activeBroadcasts) + 1
      {
        ghost var least := Least(todo);
        var r :| r in todo && forall t :: t in todo ==> r <= t;
        ghost var before := delivered;
        assert forall x :: x in before ==> x in Targets(filters, sender, msg) && x in filters && x !in todo && x < r;
        todo := todo - {r};
        if sender != Some(r) {
          var found := FindMatch(filters[r], msg);
          if found { delivered := delivered + [r]; }
        }
        assert delivered == if r in Targets(filters, sender, msg) then before + [r] else before;
        assert forall x :: x in delivered <==> x in before || (x == r && r in Targets(filters, sender, msg));
        assert forall i :: 0 <= i < |before| ==> before[i] in before;
      }
      activeBroadcasts := activeBroadcasts - 1;
      WhoIsCalled(delivered, filters, sender, msg);
    }

    /** The map write of registerReceiver, after its wait. */
    method WriteReceiver(r: Receiver, entries: seq<FilterEntry>)
      modifies this`filters
      ensures filters == Applied(Register(r, entries), old(filters))
    {
      filters := filters[r := entries];
    }

    /** The map write of unregisterReceiver, after its wait. */
    method EraseReceiver(r: Receiver)
      modifies this`filters
      ensures filters == Applied(Unregister(r), old(filters))
    {
      filters := filters - {r};
    }
  }

  /** The inner loop, which stops at the first entry that matches. */
  method FindMatch(entries: seq<FilterEntry>, msg: Message) returns (found: bool)
    ensures found <==> Wants(entries, msg)
  {
    var i := 0;
    while i < |entries|
      invariant 0 <= i <= |entries|
      invariant forall k :: 0 <= k < i ==> !EntryMatches(entries[k], msg)
    {
      if EntryMatches(entries[i], msg) { return true; }
      i := i + 1;
    }
    return false;
  }

  // ---------- the interleaved router ----------

  datatype Cursor =
    | NotStarted                          // counted as active, begin() not yet read
    | At(receiver: Receiver, done: bool)  // the iterator; `done` once its loop body ran
    | End

  /** One activation of broadcastMessage; `entry` is the map as it stood when the count went up. */
  datatype Broadcast = Broadcast(
    sender: Option<Receiver>, msg: Message, entry: Subscriptions, cursor: Cursor, delivered: seq<Receiver>)

  datatype Change = Register(r: Receiver, filters: seq<FilterEntry>) | Unregister(r: Receiver)

  function Applied(c: Change, m: Subscriptions): Subscriptions {
    match c
    case Register(r, fs) => m[r := fs]
    case Unregister(r) => m - {r}
  }

  /** A thread that holds mMapLock: waiting, past the wait, or done with the write. */
  datatype Writer = Waiting(change: Change) | PastWait(change: Change) | Written(change: Change)

  datatype Event =
    | Delivered(broadcast: nat, to: Receiver)
    | Wrote(change: Change)
    | Returned(change: Change)

  datatype State = State(
    receivers: Subscriptions,
    activeCount: int,
    active: map<nat, Broadcast>,
    finished: map<nat, Broadcast>,
    lock: Option<nat>,
    writers: map<nat, Writer>,
    log: seq<Event>)

  const INITIAL := State(map[], 0, map[], map[], None, map[], [])

  datatype Step =
    | Enter(b: nat, sender: Option<Receiver>, msg: Message)
    | Begin(b: nat)
    | Visit(b: nat)
    | Advance(b: nat)
    | Leave(b: nat)
    | Acquire(t: nat, change: Change)
    | WaitExit(t: nat)
    | Write(t: nat)
    | Release(t: nat)

  /** The iterator reads the first key above `from`, or the end. */
  ghost function CursorFrom(m: Subscriptions, from: int): Cursor {
    var above := set r | r in m && r > from;
    if above == {} then End else At(Least(above), false)
  }

  ghost predicate Enabled(s: State, step: Step) {
    match step
    case Enter(b, _, _) => b !in s.active && b !in s.finished
    case Begin(b) => b in s.active && s.active[b].cursor.NotStarted?
    // a cursor left on an erased node is undefined behaviour, so no step is given to it
    case Visit(b) =>
      && b in s.active && s.active[b].cursor.At? && !s.active[b].cursor.done
      && s.active[b].cursor.receiver in s.receivers
    case Advance(b) => b in s.active && s.active[b].cursor.At? && s.active[b].cursor.done
    case Leave(b) => b in s.active && s.active[b].cursor.End?
    case Acquire(t, _) => s.lock == None
    case WaitExit(t) => t in s.writers && s.writers[t].Waiting? && s.activeCount == 0
    case Write(t) => t in s.writers && s.writers[t].PastWait?
    case Release(t) => t in s.writers && s.writers[t].Written?
  }

  ghost function Visited(m: Subscriptions, b: Broadcast): Broadcast
    requires b.cursor.At? && b.cursor.receiver in m
  {
    var r := b.cursor.receiver;
    b.(cursor := At(r, true),
       delivered := if b.sender != Some(r) && Wants(m[r], b.msg) then b.delivered + [r] else b.delivered)
  }

  ghost function Apply(s: State, step: Step): State
    requires Enabled(s, step)
  {
    match step
    case Enter(b, sender, msg) =>
      s.(activeCount := s.activeCount + 1,
         active := s.active[b := Broadcast(sender, msg, s.receivers, NotStarted, [])])
    case Begin(b) =>
      s.(active := s.active[b := s.active[b].(cursor := CursorFrom(s.receivers, -1))])
    case Visit(b) =>
      var after := Visited(s.receivers, s.active[b]);
      s.(active := s.active[b := after],
         log := if after.delivered == s.active[b].delivered then s.log
                else s.log + [Delivered(b, after.cursor.receiver)])
    case Advance(b) =>
      s.(active := s.active[b := s.active[b].(cursor := CursorFrom(s.receivers, s.active[b].cursor.receiver))])
    case Leave(b) =>
      s.(activeCount := s.activeCount - 1, active := s.active - {b}, finished := s.finished[b := s.active[b]])
    case Acquire(t, change) =>
      s.(lock := Some(t), writers := s.writers[t := Waiting(change)])
    case WaitExit(t) =>
      s.(writers := s.writers[t := PastWait(s.writers[t].change)])
    case Write(t) =>
      var change := s.writers[t].change;
      s.(receivers := Applied(change, s.receivers), writers := s.writers[t := Written(change)],
         log := s.log + [Wrote(change)])
    case Release(t) =>
      s.(lock := None, writers := s.writers - {t}, log := s.log + [Returned(s.writers[t].change)])
  }

  /** A run: every step is enabled where it is taken. */
  ghost predicate IsRun(s: State, steps: seq<Step>)
    decreases |steps|
  {
    steps == [] || (Enabled(s, steps[0]) && IsRun(Apply(s, steps[0]), steps[1..]))
  }

  ghost function Exec(s: State, steps: seq<Step>): State
    requires IsRun(s, steps)
    decreases |steps|
  {
    if steps == [] then s else Exec(Apply(s, steps[0]), steps[1..])
  }

  /**
   The assumption under which the code is right: no broadcast enters while a writer that will
   change the map stands between its wait and its map write.  Wait exit and write as one step is a
   special case.
   */
  ghost predicate WindowClosed(s: State, step: Step) {
    step.Enter? ==> forall t :: t in s.writers && s.writers[t].PastWait? ==> ChangesNothing(s, t)
  }

  ghost predicate ChangesNothing(s: State, t: nat)
    requires t in s.writers
  {
    Applied(s.writers[t].change, s.receivers) == s.receivers
  }

  ghost predicate IsGuardedRun(s: State, steps: seq<Step>)
    decreases |steps|
  {
    steps == [] ||
    (Enabled(s, steps[0]) && WindowClosed(s, steps[0]) && IsGuardedRun(Apply(s, steps[0]), steps[1..]))
  }

  lemma GuardedIsRun(s: State, steps: seq<Step>)
    requires IsGuardedRun(s, steps)
    ensures IsRun(s, steps)
    decreases |steps|
  {
    if steps != [] { GuardedIsRun(Apply(s, steps[0]), steps[1..]); }
  }

  // ---------- what holds in every interleaving ----------

  ghost predicate Counted(s: State) {
    && s.activeCount == |s.active|
    && s.writers.Keys == (if s.lock == None then {} else {s.lock.value})
  }

  predicate ByWriter(step: Step) {
    step.Acquire? || step.WaitExit? || step.Write? || step.Release?
  }

  lemma MapSizes<K, V>(m: map<K, V>, k: K, v: V)
    ensures k !in m ==> |m[k := v]| == |m| + 1
    ensures k in m ==> |m - {k}| == |m| - 1 && |m[k := v]| == |m|
  {
    assert m[k := v].Keys == m.Keys + {k};
    assert (m - {k}).Keys == m.Keys - {k};
  }

  lemma CountedEnterOrLeave(s: State, step: Step)
    requires Counted(s) && Enabled(s, step) && (step.Enter? || step.Leave?)
    ensures Counted(Apply(s, step))
  {
    if step.Enter? {
      MapSizes(s.active, step.b, Broadcast(step.sender, step.msg, s.receivers, NotStarted, []));
    } else {
      MapSizes(s.active, step.b, s.active[step.b]);
    }
  }

  lemma CountedLoopStep(s: State, step: Step)
    requires Counted(s) && Enabled(s, step) && (step.Begin? || step.Visit? || step.Advance?)
    ensures Counted(Apply(s, step))
  {
    MapSizes(s.active, step.b, Apply(s, step).active[step.b]);
  }

  lemma CountedWriterStep(s: State, step: Step)
    requires Counted(s) && Enabled(s, step) && ByWriter(step)
    ensures Counted(Apply(s, step))
  {
    var s' := Apply(s, step);
    if step.Acquire? {
      assert s'.writers.Keys == {step.t};
    } else if step.Release? {
      assert s'.writers.Keys == {};
    } else {
      assert s'.writers.Keys == s.writers.Keys;
    }
  }

  lemma CountedStep(s: State, step: Step)
    requires Counted(s) && Enabled(s, step)
    ensures Counted(Apply(s, step))
  {
    if ByWriter(step) {
      CountedWriterStep(s, step);
    } else if step.Enter? || step.Leave? {
      CountedEnterOrLeave(s, step);
    } else {
      CountedLoopStep(s, step);
    }
  }

  /**
   In every interleaving the count is the number of broadcasts between their increment and
   their decrement, at most one thread is past the map lock, and while any broadcast is active
   no writer leaves its wait (so a callback that subscribes from inside a broadcast never returns).
   */
  lemma {:induction false} CountIsExactAndWritersExclude(steps: seq<Step>, s: State)
    requires Counted(s) && IsRun(s, steps)
    ensures var e := Exec(s, steps);
            && e.activeCount == |e.active|
            && (forall t, u :: t in e.writers && u in e.writers ==> t == u)
            && (e.active != map[] ==> forall t :: !Enabled(e, WaitExit(t)))
    decreases |steps|
  {
    if steps == [] {
      if s.active != map[] {
        var b :| b in s.active;
        assert b in s.active.Keys;
      }
    } else {
      CountedStep(s, steps[0]);
      CountIsExactAndWritersExclude(steps[1..], Apply(s, steps[0]));
    }
  }

  // ---------- what holds when no broadcast enters over a pending change ----------

  /** The receivers a cursor has already dealt with. */
  ghost predicate Passed(c: Cursor, r: Receiver) {
    match c
    case NotStarted => false
    case At(q, done) => r < q || (done && r == q)
    case End => true
  }

  ghost predicate InProgress(b: Broadcast) {
    && (b.cursor.At? ==> b.cursor.receiver in b.entry)
    && StrictlyAscending(b.delivered)
    && forall r :: r in b.delivered <==> r in Targets(b.entry, b.sender, b.msg) && Passed(b.cursor, r)
  }

  /** The last thing written about `r` made it a receiver. */
  ghost predicate LastWriteRegisters(log: seq<Event>, r: Receiver) {
    exists i :: 0 <= i < |log| && log[i].Wrote? && log[i].change.Register? && log[i].change.r == r
      && forall j :: i < j < |log| && log[j].Wrote? ==> log[j].change.r != r
  }

  ghost predicate DeliveriesAreCurrent(log: seq<Event>) {
    forall j :: 0 <= j < |log| && log[j].Delivered? ==> LastWriteRegisters(log[..j], log[j].to)
  }

  ghost predicate Promise(s: State) {
    && Counted(s)
    && (forall t :: t in s.writers && s.writers[t].PastWait? ==> s.active == map[] || ChangesNothing(s, t))
    && (forall b :: b in s.active ==> s.active[b].entry == s.receivers && InProgress(s.active[b]))
    && (forall b :: b in s.finished ==>
          var f := s.finished[b]; ExactDelivery(f.delivered, f.entry, f.sender, f.msg))
    && (forall r :: r in s.receivers ==> LastWriteRegisters(s.log, r))
    && DeliveriesAreCurrent(s.log)
  }

  lemma CursorFromPasses(m: Subscriptions, from: int, r: Receiver)
    requires r in m
    ensures var c := CursorFrom(m, from);
            && (c.At? ==> c.receiver in m && !c.done)
            && (Passed(c, r) <==> r <= from)
            && !c.NotStarted?
  {
    var above := set x | x in m && x > from;
    assert r > from ==> r in above;
  }

  lemma CursorMoves(b: Broadcast, from: int)
    requires InProgress(b)
    requires (b.cursor.NotStarted? && from == -1) || (b.cursor.At? && b.cursor.done && from == b.cursor.receiver)
    ensures InProgress(b.(cursor := CursorFrom(b.entry, from)))
  {
    var b' := b.(cursor := CursorFrom(b.entry, from));
    forall r | r in b.entry
      ensures Passed(b'.cursor, r) <==> Passed(b.cursor, r)
    {
      CursorFromPasses(b.entry, from, r);
    }
    var above := set x | x in b.entry && x > from;
    assert above != {} ==> b'.cursor.receiver in above;
  }

  lemma VisitKeepsProgress(b: Broadcast)
    requires InProgress(b) && b.cursor.At? && !b.cursor.done
    ensures InProgress(Visited(b.entry, b))
  {
    var b' := Visited(b.entry, b);
    var q := b.cursor.receiver;
    forall r ensures r in b'.delivered <==> r in Targets(b.entry, b.sender, b.msg) && Passed(b'.cursor, r) {
      assert r in b'.delivered <==> r in b.delivered || (r == q && q in Targets(b.entry, b.sender, b.msg));
    }
    assert forall i :: 0 <= i < |b.delivered| ==> b.delivered[i] in b.delivered;
  }

  lemma EndIsExact(b: Broadcast)
    requires InProgress(b) && b.cursor.End?
    ensures ExactDelivery(b.delivered, b.entry, b.sender, b.msg)
  {
  }

  lemma LogGrows(log: seq<Event>, e: Event)
    requires DeliveriesAreCurrent(log)
    requires e.Delivered? ==> LastWriteRegisters(log, e.to)
    ensures DeliveriesAreCurrent(log + [e])
    ensures forall r :: LastWriteRegisters(log, r) && !(e.Wrote? && e.change.r == r) ==> LastWriteRegisters(log + [e], r)
    ensures e.Wrote? && e.change.Register? ==> LastWriteRegisters(log + [e], e.change.r)
  {
    var log' := log + [e];
    forall j | 0 <= j < |log'| && log'[j].Delivered? ensures LastWriteRegisters(log'[..j], log'[j].to) {
      assert log'[..j] == if j < |log| then log[..j] else log;
    }
    forall r | LastWriteRegisters(log, r) && !(e.Wrote? && e.change.r == r) ensures LastWriteRegisters(log', r) {
      var i :| 0 <= i < |log| && log[i].Wrote? && log[i].change.Register? && log[i].change.r == r
        && forall j :: i < j < |log| && log[j].Wrote? ==> log[j].change.r != r;
      assert log'[i] == log[i];
    }
    if e.Wrote? && e.change.Register? { assert log'[|log|] == e; }
  }

  lemma PromiseVisitStep(s: State, b: nat)
    requires Promise(s) && Enabled(s, Visit(b))
    ensures Promise(Apply(s, Visit(b)))
  {
    CountedStep(s, Visit(b));
    VisitKeepsProgress(s.active[b]);
    var s' := Apply(s, Visit(b));
    if s'.log != s.log { LogGrows(s.log, s'.log[|s.log|]); }
  }

  lemma PromiseCursorStep(s: State, step: Step)
    requires Promise(s) && Enabled(s, step) && (step.Begin? || step.Advance?)
    ensures Promise(Apply(s, step))
  {
    CountedStep(s, step);
    CursorMoves(s.active[step.b], if step.Begin? then -1 else s.active[step.b].cursor.receiver);
  }

  lemma PromiseEnterStep(s: State, step: Step)
    requires Promise(s) && Enabled(s, step) && WindowClosed(s, step) && step.Enter?
    ensures Promise(Apply(s, step))
  {
    CountedStep(s, step);
  }

  lemma PromiseLeaveStep(s: State, b: nat)
    requires Promise(s) && Enabled(s, Leave(b))
    ensures Promise(Apply(s, Leave(b)))
  {
    CountedStep(s, Leave(b));
    EndIsExact(s.active[b]);
  }

  lemma PromiseWriteStep(s: State, t: nat)
    requires Promise(s) && Enabled(s, Write(t))
    ensures Promise(Apply(s, Write(t)))
  {
    CountedStep(s, Write(t));
    LogGrows(s.log, Wrote(s.writers[t].change));
  }

  lemma PromiseReleaseStep(s: State, t: nat)
    requires Promise(s) && Enabled(s, Release(t))
    ensures Promise(Apply(s, Release(t)))
  {
    CountedStep(s, Release(t));
    LogGrows(s.log, Returned(s.writers[t].change));
  }

  lemma PromiseWriterStep(s: State, step: Step)
    requires Promise(s) && Enabled(s, step) && ByWriter(step)
    ensures Promise(Apply(s, step))
  {
    CountedStep(s, step);
    match step {
      case Acquire(t, _) =>
      case WaitExit(t) => assert s.active.Keys == {};
      case Write(t) => PromiseWriteStep(s, t);
      case Release(t) => PromiseReleaseStep(s, t);
    }
  }

  lemma PromiseStep(s: State, step: Step)
    requires Promise(s) && Enabled(s, step) && WindowClosed(s, step)
    ensures Promise(Apply(s, step))
  {
    if ByWriter(step) {
      PromiseWriterStep(s, step);
    } else if step.Visit? {
      PromiseVisitStep(s, step.b);
    } else if step.Enter? {
      PromiseEnterStep(s, step);
    } else if step.Leave? {
      PromiseLeaveStep(s, step.b);
    } else {
      PromiseCursorStep(s, step);
    }
  }

  lemma {:induction false} PromiseRun(s: State, steps: seq<Step>)
    requires Promise(s) && IsGuardedRun(s, steps)
    ensures IsRun(s, steps) && Promise(Exec(s, steps))
    decreases |steps|
  {
    GuardedIsRun(s, steps);
    if steps != [] {
      PromiseStep(s, steps[0]);
      PromiseRun(Apply(s, steps[0]), steps[1..]);
    }
  }

  /** The calls that a broadcast has made, as the log tells. */
  ghost function CallsOf(log: seq<Event>, b: nat): seq<Receiver> {
    if log == [] then []
    else
      var e := log[|log| - 1];
      CallsOf(log[..|log| - 1], b) + if e.Delivered? && e.broadcast == b then [e.to] else []
  }

  lemma CallsNext(log: seq<Event>, e: Event, b: nat)
    ensures CallsOf(log + [e], b) == CallsOf(log, b) + if e.Delivered? && e.broadcast == b then [e.to] else []
  {
    assert (log + [e])[..|log|] == log;
  }

  /** The log holds the calls of every broadcast, and no others. */
  ghost predicate Logged(s: State) {
    forall b: nat :: CallsOf(s.log, b) ==
      if b in s.active then s.active[b].delivered else if b in s.finished then s.finished[b].delivered else []
  }

  lemma LoggedVisit(s: State, b: nat)
    requires Logged(s) && Enabled(s, Visit(b)) && s.active.Keys !! s.finished.Keys
    ensures Logged(Apply(s, Visit(b)))
  {
    var s' := Apply(s, Visit(b));
    var before, after := s.active[b], s'.active[b];
    forall c: nat ensures CallsOf(s'.log, c) ==
      if c in s'.active then s'.active[c].delivered else if c in s'.finished then s'.finished[c].delivered else []
    {
      if after.delivered != before.delivered {
        CallsNext(s.log, Delivered(b, after.cursor.receiver), c);
        assert CallsOf(s.log, c) + [] == CallsOf(s.log, c);
      }
    }
  }

  lemma LoggedByWriter(s: State, step: Step)
    requires Logged(s) && Enabled(s, step) && ByWriter(step)
    ensures Logged(Apply(s, step))
  {
    var s' := Apply(s, step);
    forall c: nat ensures CallsOf(s'.log, c) == CallsOf(s.log, c) {
      if s'.log != s.log {
        CallsNext(s.log, s'.log[|s.log|], c);
        assert CallsOf(s.log, c) + [] == CallsOf(s.log, c);
      }
    }
  }

  lemma LoggedStep(s: State, step: Step)
    requires Logged(s) && Enabled(s, step) && s.active.Keys !! s.finished.Keys
    ensures Logged(Apply(s, step)) && Apply(s, step).active.Keys !! Apply(s, step).finished.Keys
  {
    if step.Visit? { LoggedVisit(s, step.b); } else if ByWriter(step) { LoggedByWriter(s, step); }
  }

  lemma {:induction false} LoggedRun(s: State, steps: seq<Step>)
    requires Logged(s) && s.active.Keys !! s.finished.Keys && IsRun(s, steps)
    ensures Logged(Exec(s, steps)) && Exec(s, steps).active.Keys !! Exec(s, steps).finished.Keys
    decreases |steps|
  {
    if steps != [] {
      LoggedStep(s, steps[0]);
      LoggedRun(Apply(s, steps[0]), steps[1..]);
    }
  }

  /** In every run the log tells of exactly the calls that each finished broadcast has made, in order. */
  lemma CallsAreLogged(steps: seq<Step>, b: nat)
    requires IsRun(INITIAL, steps) && b in Exec(INITIAL, steps).finished
    ensures CallsOf(Exec(INITIAL, steps).log, b) == Exec(INITIAL, steps).finished[b].delivered
  {
    LoggedRun(INITIAL, steps);
  }

  /**
   The header's promise: the map never changes under an active broadcast, and each finished
   broadcast reached exactly the matching receivers of the map it entered with, once each.
   */
  lemma EveryBroadcastIsExact(steps: seq<Step>)
    requires IsGuardedRun(INITIAL, steps)
    ensures IsRun(INITIAL, steps)
    ensures var e := Exec(INITIAL, steps);
            && (forall b :: b in e.active ==> e.active[b].entry == e.receivers)
            && (forall b :: b in e.finished ==>
                  var f := e.finished[b];
                  StrictlyAscending(f.delivered) &&
                  forall r :: r in f.delivered <==> r in f.entry && f.sender != Some(r) && AskedFor(f.entry[r], f.msg))
  {
    PromiseRun(INITIAL, steps);
    var e := Exec(INITIAL, steps);
    forall b | b in e.finished
      ensures var f := e.finished[b];
              forall r :: r in f.delivered <==> r in f.entry && f.sender != Some(r) && AskedFor(f.entry[r], f.msg)
    {
      var f := e.finished[b];
      WhoIsCalled(f.delivered, f.entry, f.sender, f.msg);
    }
  }

  /** The last thing written is this change. */
  ghost predicate LastWriteIs(log: seq<Event>, c: Change) {
    exists w :: 0 <= w < |log| && log[w] == Wrote(c) && forall m :: w < m < |log| ==> !log[m].Wrote?
  }

  /** A writer that is done, or has returned, was the last to write when it did. */
  ghost predicate ReturnsFollow(s: State) {
    (forall t :: t in s.writers && s.writers[t].Written? ==> LastWriteIs(s.log, s.writers[t].change)) &&
    forall i :: 0 <= i < |s.log| && s.log[i].Returned? ==> LastWriteIs(s.log[..i], s.log[i].change)
  }

  lemma ReturnsGrow(log: seq<Event>, e: Event)
    requires forall i :: 0 <= i < |log| && log[i].Returned? ==> LastWriteIs(log[..i], log[i].change)
    requires e.Returned? ==> LastWriteIs(log, e.change)
    ensures forall i :: 0 <= i < |log + [e]| && (log + [e])[i].Returned? ==> LastWriteIs((log + [e])[..i], (log + [e])[i].change)
    ensures !e.Wrote? ==> forall c :: LastWriteIs(log, c) ==> LastWriteIs(log + [e], c)
    ensures e.Wrote? ==> LastWriteIs(log + [e], e.change)
  {
    var log' := log + [e];
    forall i | 0 <= i < |log'| && log'[i].Returned? ensures LastWriteIs(log'[..i], log'[i].change) {
      assert log'[..i] == if i < |log| then log[..i] else log;
    }
    if !e.Wrote? {
      forall c | LastWriteIs(log, c) ensures LastWriteIs(log', c) {
        var w :| 0 <= w < |log| && log[w] == Wrote(c) && forall m :: w < m < |log| ==> !log[m].Wrote?;
        assert log'[w] == Wrote(c);
      }
    } else {
      assert log'[|log|] == Wrote(e.change);
    }
  }

  lemma ReturnsFollowStep(s: State, step: Step)
    requires Counted(s) && ReturnsFollow(s) && Enabled(s, step)
    ensures ReturnsFollow(Apply(s, step))
  {
    var s' := Apply(s, step);
    if s'.log != s.log { ReturnsGrow(s.log, s'.log[|s.log|]); }
  }

  lemma {:induction false} ReturnsFollowRun(s: State, steps: seq<Step>)
    requires Counted(s) && ReturnsFollow(s) && IsRun(s, steps)
    ensures ReturnsFollow(Exec(s, steps))
    decreases |steps|
  {
    if steps != [] {
      CountedStep(s, steps[0]);
      ReturnsFollowStep(s, steps[0]);
      ReturnsFollowRun(Apply(s, steps[0]), steps[1..]);
    }
  }

  /** Between an unregister's return and a delivery to that receiver lies a new registration of it. */
  lemma NothingAfterUnregister(steps: seq<Step>, i: nat, j: nat)
    requires IsGuardedRun(INITIAL, steps)
    requires IsRun(INITIAL, steps)
    requires var log := Exec(INITIAL, steps).log;
             i < j < |log| && log[i].Returned? && log[i].change.Unregister? && log[j].Delivered?
             && log[j].to == log[i].change.r
    ensures var log := Exec(INITIAL, steps).log;
            exists k :: i < k < j && log[k].Wrote? && log[k].change.Register? && log[k].change.r == log[j].to
  {
    PromiseRun(INITIAL, steps);
    ReturnsFollowRun(INITIAL, steps);
    RegisteredSinceReturn(Exec(INITIAL, steps).log, i, j);
  }

  lemma RegisteredSinceReturn(log: seq<Event>, i: nat, j: nat)
    requires DeliveriesAreCurrent(log)
    requires i < j < |log| && log[i].Returned? && log[i].change.Unregister? && log[j].Delivered?
    requires log[j].to == log[i].change.r && LastWriteIs(log[..i], log[i].change)
    ensures exists k :: i < k < j && log[k].Wrote? && log[k].change.Register? && log[k].change.r == log[j].to
  {
    var before := log[..i];
    var w :| 0 <= w < |before| && before[w] == Wrote(log[i].change) && forall m :: w < m < |before| ==> !before[m].Wrote?;
    assert log[w] == before[w] && forall m :: w < m < i ==> log[m] == before[m];
    RegisteredBetween(log, w, j);
  }

  /** The same from the erasure on, before it has returned. */
  lemma NothingAfterErasure(steps: seq<Step>, i: nat, j: nat)
    requires IsGuardedRun(INITIAL, steps)
    requires IsRun(INITIAL, steps)
    requires var log := Exec(INITIAL, steps).log;
             i < j < |log| && log[i].Wrote? && log[i].change.Unregister? && log[j].Delivered?
             && log[j].to == log[i].change.r
    ensures var log := Exec(INITIAL, steps).log;
            exists k :: i < k < j && log[k].Wrote? && log[k].change.Register? && log[k].change.r == log[j].to
  {
    PromiseRun(INITIAL, steps);
    RegisteredBetween(Exec(INITIAL, steps).log, i, j);
  }

  lemma RegisteredBetween(log: seq<Event>, i: nat, j: nat)
    requires DeliveriesAreCurrent(log)
    requires i < j < |log| && log[i].Wrote? && log[i].change.Unregister? && log[j].Delivered?
    requires log[j].to == log[i].change.r
    ensures exists k :: i < k < j && log[k].Wrote? && log[k].change.Register? && log[k].change.r == log[j].to
  {
    var before, r := log[..j], log[j].to;
    assert LastWriteRegisters(before, r);
    assert before[i] == log[i];
    var k :| 0 <= k < |before| && before[k].Wrote? && before[k].change.Register? && before[k].change.r == r
      && forall m :: k < m < |before| && before[m].Wrote? ==> before[m].change.r != r;
    assert log[k] == before[k];
  }

  // ---------- the two steps really are separate ----------

  lemma ExecAppend(s: State, first: seq<Step>, second: seq<Step>)
    requires IsRun(s, first) && IsRun(Exec(s, first), second)
    ensures IsRun(s, first + second) && Exec(s, first + second) == Exec(Exec(s, first), second)
    decreases |first|
  {
    if first == [] {
      assert first + second == second;
    } else {
      assert (first + second)[0] == first[0] && (first + second)[1..] == first[1..] + second;
      ExecAppend(Apply(s, first[0]), first[1..], second);
    }
  }

  /** The header's promise for one moment: no active broadcast has seen the map change. */
  ghost predicate MapHolds(s: State) {
    forall b :: b in s.active ==> s.active[b].entry == s.receivers
  }

  ghost predicate SafeFrom(s: State) {
    forall more :: IsGuardedRun(s, more) && IsRun(s, more) ==> MapHolds(Exec(s, more))
  }

  /**
   Entering is safe for every continuation in which later broadcasts keep to the assumption exactly
   when no writer past its wait is about to change the map.
   */
  lemma EnteringIsSafeExactlyWhen(steps: seq<Step>, b: nat, sender: Option<Receiver>, msg: Message)
    requires IsGuardedRun(INITIAL, steps) && IsRun(INITIAL, steps)
    requires Enabled(Exec(INITIAL, steps), Enter(b, sender, msg))
    ensures var s, enter := Exec(INITIAL, steps), Enter(b, sender, msg);
            WindowClosed(s, enter) <==> SafeFrom(Apply(s, enter))
  {
    PromiseRun(INITIAL, steps);
    var s, enter := Exec(INITIAL, steps), Enter(b, sender, msg);
    var entered := Apply(s, enter);
    if WindowClosed(s, enter) {
      PromiseStep(s, enter);
      forall more | IsGuardedRun(entered, more) && IsRun(entered, more) ensures MapHolds(Exec(entered, more)) {
        PromiseRun(entered, more);
      }
    } else {
      var t :| t in s.writers && s.writers[t].PastWait? && !ChangesNothing(s, t);
      OneStep(entered, Write(t));
      assert [Write(t)][1..] == [] && IsGuardedRun(entered, [Write(t)]);
      assert !MapHolds(Exec(entered, [Write(t)])) by { assert b in Exec(entered, [Write(t)]).active; }
    }
  }

  /**
   The assumption is needed wherever it could fail: from every reachable state with a writer in
   the window whose write changes the map, entering there lets that write happen under the broadcast.
   */
  lemma EveryOpenWindowBreaksThePromise(steps: seq<Step>, t: nat, b: nat, sender: Option<Receiver>, msg: Message)
    requires IsRun(INITIAL, steps)
    requires var s := Exec(INITIAL, steps);
             && t in s.writers && s.writers[t].PastWait?
             && Applied(s.writers[t].change, s.receivers) != s.receivers
             && b !in s.active && b !in s.finished
    ensures var more := steps + [Enter(b, sender, msg), Write(t)];
            && IsRun(INITIAL, more)
            && var e := Exec(INITIAL, more);
               b in e.active && e.active[b].entry != e.receivers
  {
    var s := Exec(INITIAL, steps);
    TwoSteps(s, Enter(b, sender, msg), Write(t));
    ExecAppend(INITIAL, steps, [Enter(b, sender, msg), Write(t)]);
  }

  const EVERYTHING := [FilterEntry("*", "", 0)]

  lemma OneStep(s: State, a: Step)
    requires Enabled(s, a)
    ensures IsRun(s, [a]) && Exec(s, [a]) == Apply(s, a)
  {
    assert [a][1..] == [];
    assert IsRun(Apply(s, a), []) && Exec(Apply(s, a), []) == Apply(s, a);
  }

  /** Two and four steps of a run. */
  lemma TwoSteps(s: State, a: Step, b: Step)
    requires Enabled(s, a) && Enabled(Apply(s, a), b)
    ensures IsRun(s, [a, b]) && Exec(s, [a, b]) == Apply(Apply(s, a), b)
  {
    OneStep(Apply(s, a), b);
    assert [a, b][0] == a && [a, b][1..] == [b];
  }

  lemma FourSteps(s: State, a: Step, b: Step, c: Step, d: Step)
    requires Enabled(s, a) && Enabled(Apply(s, a), b)
    requires var t := Apply(Apply(s, a), b); Enabled(t, c) && Enabled(Apply(t, c), d)
    ensures IsRun(s, [a, b] + [c, d])
    ensures Exec(s, [a, b] + [c, d]) == Apply(Apply(Apply(Apply(s, a), b), c), d)
  {
    TwoSteps(s, a, b);
    TwoSteps(Apply(Apply(s, a), b), c, d);
    ExecAppend(s, [a, b], [c, d]);
  }

  ghost predicate Idle(s: State) {
    s.lock == None && s.writers == map[] && s.active == map[] && s.activeCount == 0 && s.finished == map[]
  }

  lemma Registered(s: State, r: Receiver) returns (steps: seq<Step>)
    requires Idle(s)
    ensures IsRun(s, steps) && Idle(Exec(s, steps))
    ensures Exec(s, steps).receivers == s.receivers[r := EVERYTHING]
    ensures Exec(s, steps).log == s.log + [Wrote(Register(r, EVERYTHING)), Returned(Register(r, EVERYTHING))]
  {
    var change := Register(r, EVERYTHING);
    FourSteps(s, Acquire(7, change), WaitExit(7), Write(7), Release(7));
    steps := [Acquire(7, change), WaitExit(7)] + [Write(7), Release(7)];
  }

  lemma Visiting(s: State, msg: Message) returns (steps: seq<Step>)
    requires s.receivers == map[1 := EVERYTHING, 2 := EVERYTHING]
    requires s.active == map[0 := Broadcast(None, msg, s.receivers, NotStarted, [])]
    ensures IsRun(s, steps)
    ensures var e := Exec(s, steps);
            && e.receivers == s.receivers && e.writers == s.writers
            && e.active == map[0 := Broadcast(None, msg, s.receivers, At(1, true), [1])]
  {
    CursorFromPasses(s.receivers, -1, 1);
    assert CursorFrom(s.receivers, -1) == At(1, false);
    assert Wants(EVERYTHING, msg) by { assert EntryMatches(EVERYTHING[0], msg); }
    var t := Apply(s, Begin(0));
    assert t.active[0] == Broadcast(None, msg, s.receivers, At(1, false), []);
    assert Visited(t.receivers, t.active[0]) == Broadcast(None, msg, s.receivers, At(1, true), [1]);
    TwoSteps(s, Begin(0), Visit(0));
    steps := [Begin(0), Visit(0)];
  }

  lemma Entering(s: State, msg: Message) returns (steps: seq<Step>)
    requires Idle(s)
    ensures IsRun(s, steps)
    ensures var e := Exec(s, steps);
            && e.receivers == s.receivers && e.writers == map[7 := PastWait(Unregister(2))]
            && e.active == map[0 := Broadcast(None, msg, s.receivers, NotStarted, [])]
  {
    TwoSteps(s, Acquire(7, Unregister(2)), WaitExit(7));
    var t := Exec(s, [Acquire(7, Unregister(2)), WaitExit(7)]);
    OneStep(t, Enter(0, None, msg));
    ExecAppend(s, [Acquire(7, Unregister(2)), WaitExit(7)], [Enter(0, None, msg)]);
    steps := [Acquire(7, Unregister(2)), WaitExit(7)] + [Enter(0, None, msg)];
  }

  lemma LeftEarly(s: State, msg: Message) returns (steps: seq<Step>)
    requires s.receivers == map[1 := EVERYTHING, 2 := EVERYTHING]
    requires s.writers == map[7 := PastWait(Unregister(2))]
    requires s.active == map[0 := Broadcast(None, msg, s.receivers, At(1, true), [1])]
    ensures IsRun(s, steps)
    ensures var e := Exec(s, steps);
            && 0 in e.finished && e.finished[0].entry == s.receivers
            && e.finished[0].sender == None && e.finished[0].msg == msg && e.finished[0].delivered == [1]
  {
    var t := Apply(s, Write(7));
    TwoSteps(s, Write(7), Advance(0));
    var u := Apply(t, Advance(0));
    assert u.active[0].cursor == End by {
      assert (set r | r in t.receivers && r > 1) == {};
    }
    OneStep(u, Leave(0));
    ExecAppend(s, [Write(7), Advance(0)], [Leave(0)]);
    steps := [Write(7), Advance(0)] + [Leave(0)];
  }

  /**
   A run of the code as written breaks the promise: receiver 2 is erased between the two visits of
   a broadcast that entered while both were registered, and the broadcast ends without reaching it.
   */
  lemma ABroadcastCanMissAReceiver(msg: Message) returns (steps: seq<Step>)
    ensures IsRun(INITIAL, steps)
    ensures var e := Exec(INITIAL, steps);
            && 0 in e.finished
            && e.finished[0].entry == map[1 := EVERYTHING, 2 := EVERYTHING]
            && e.finished[0].delivered == [1]
            && !ExactDelivery(e.finished[0].delivered, e.finished[0].entry, e.finished[0].sender, e.finished[0].msg)
  {
    var one := Registered(INITIAL, 1);
    var two := Registered(Exec(INITIAL, one), 2);
    ExecAppend(INITIAL, one, two);
    var s := Exec(INITIAL, one + two);
    var enter := Entering(s, msg);
    ExecAppend(INITIAL, one + two, enter);
    var visit := Visiting(Exec(s, enter), msg);
    ExecAppend(INITIAL, one + two + enter, visit);
    var leave := LeftEarly(Exec(INITIAL, one + two + enter + visit), msg);
    ExecAppend(INITIAL, one + two + enter + visit, leave);
    steps := one + two + enter + visit + leave;
    var f := Exec(INITIAL, steps).finished[0];
    assert Wants(EVERYTHING, msg) by { assert EntryMatches(EVERYTHING[0], msg); }
    assert 2 in Targets(f.entry, f.sender, f.msg) && 2 !in Elements(f.delivered);
  }
}
