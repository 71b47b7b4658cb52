/**
 The three threads of a plugin's connection (src/tmx/TmxCore/src/PluginConnection.cpp) and the
 hand-managed messages they pass on (src/tmx/TmxApi/tmx/IvpMessage.c).

 The receiver thread fills two bounded queues, each drained by its own processor thread that
 sleeps on an auto-reset event.  A step is one critical section or one call on an event.
 */
module PluginConnections {
  import opened Wrappers
  import opened Queues

  /** A parsed message; the two flags are what the isStatusMsg and isEventLogMsg tests answer. */
  datatype Message = Message(id: nat, isStatus: bool, isEventLog: bool)

  predicate IsSlow(m: Message) {
    m.isStatus || m.isEventLog
  }

  // ---------- one queue ----------

  class MessageQueue {
    var queue: seq<Message>
    var messageWaiting: bool

    constructor ()
      ensures queue == [] && !messageWaiting
    {
      queue, messageWaiting := [], false;
    }

    /** The receiver's critical section. */
    method Push(m: Message) returns (freed: seq<Message>)
      modifies this`queue
      ensures queue == Pushed(old(queue), m) && freed == FreedByPush(old(queue))
      ensures old(queue) + [m] == freed + queue
      ensures |old(queue)| <= QUEUE_CAPACITY ==> |queue| <= QUEUE_CAPACITY
    {
      freed := [];
      if |queue| == QUEUE_CAPACITY {
        freed := [queue[0]];
        queue := queue[1..];
      }
      queue := queue + [m];
    }

    /** The processor's critical section; the flag keeps its value when there is nothing to take. */
    method Pop() returns (m: Option<Message>)
      modifies this
      ensures old(queue) == [] ==> m == None && queue == [] && messageWaiting == old(messageWaiting)
      ensures old(queue) != [] ==> m.Some? && old(queue) == [m.value] + queue && messageWaiting == (queue != [])
    {
      if queue != [] {
        m := Some(queue[0]);
        queue := queue[1..];
        messageWaiting := queue != [];
      } else {
        m := None;
      }
    }
  }

  // ---------- one lane: a queue, its event and its processor thread ----------

  datatype Pc =
    | AtLoop             // before the test for interruption
    | Waiting            // in WaitOne
    | Popping            // about to lock the queue
    | Handling(m: Message)
    | Exited

  datatype Processor = Processor(pc: Pc, messageWaiting: bool, interrupted: bool)

  /**
   What became of the lane's arrivals, by arrival number: those below `gone` were taken or
   dropped, `taken` lists the former in order, and `droppedBy` names the arrival that pushed out
   each of the latter.
   */
  datatype History = History(arrivals: seq<Message>, gone: nat, taken: seq<nat>, droppedBy: map<nat, nat>, lateTakes: nat)

  datatype Lane = Lane(queue: seq<Message>, event: bool, proc: Processor, past: History, cleared: bool)

  const NEW_LANE := Lane([], false, Processor(AtLoop, false, false), History([], 0, [], map[], 0), false)

  function HistoryAfterPush(h: History, q: seq<Message>, m: Message): History {
    var n := |h.arrivals|;
    if |q| == QUEUE_CAPACITY then
      h.(arrivals := h.arrivals + [m], gone := h.gone + 1, droppedBy := h.droppedBy[h.gone := n])
    else h.(arrivals := h.arrivals + [m])
  }

  function PushLane(l: Lane, m: Message): Lane {
    l.(queue := Pushed(l.queue, m), past := HistoryAfterPush(l.past, l.queue, m))
  }

  datatype Action = Check | Wake | Take | Finish

  predicate CanAct(l: Lane, a: Action) {
    match a
    case Check => l.proc.pc.AtLoop?
    case Wake => l.proc.pc.Waiting? && l.event
    case Take => l.proc.pc.Popping?
    case Finish => l.proc.pc.Handling?
  }

  function TakeLane(l: Lane): Lane {
    if l.queue == [] then l.(proc := l.proc.(pc := AtLoop))
    else
      var rest := l.queue[1..];
      l.(queue := rest, proc := l.proc.(pc := Handling(l.queue[0]), messageWaiting := rest != []),
         past := l.past.(gone := l.past.gone + 1, taken := l.past.taken + [l.past.gone],
                         lateTakes := l.past.lateTakes + if l.proc.interrupted then 1 else 0))
  }

  function Act(l: Lane, a: Action): Lane
    requires CanAct(l, a)
  {
    match a
    case Check =>
      l.(proc := l.proc.(pc := if l.proc.interrupted then Exited else if l.proc.messageWaiting then Popping else Waiting))
    case Wake => l.(event := false, proc := l.proc.(pc := Popping))
    case Take => TakeLane(l)
    case Finish => l.(proc := l.proc.(pc := AtLoop))
  }

  /** FIFO with drop-oldest: every arrival is still queued, was taken, or was dropped by the 50th after it. */
  ghost predicate Fifo(l: Lane) {
    var h := l.past;
    && h.gone <= |h.arrivals|
    && (if l.cleared then l.queue == [] else l.queue == h.arrivals[h.gone..])
    && |l.queue| <= QUEUE_CAPACITY
    && (forall i, j :: 0 <= i < j < |h.taken| ==> h.taken[i] < h.taken[j])
    && (forall i :: 0 <= i < |h.taken| ==> h.taken[i] < h.gone && h.taken[i] !in h.droppedBy)
    && (forall k :: k in h.droppedBy ==> k < h.gone && h.droppedBy[k] == k + QUEUE_CAPACITY)
    && (forall k :: 0 <= k < h.gone ==> k in h.taken || k in h.droppedBy)
    && (l.proc.pc.Handling? ==> h.taken != [] && l.proc.pc.m == h.arrivals[h.taken[|h.taken| - 1]])
  }

  /** No lost wakeup and no spinning; `aboutToSet` is the receiver between its push and its Set. */
  ghost predicate Awake(l: Lane, aboutToSet: bool) {
    && (l.proc.pc.Waiting? ==> !l.proc.messageWaiting)
    && (!l.proc.pc.Exited? && l.proc.messageWaiting ==> l.queue != [])
    && (!l.proc.pc.Exited? && !l.proc.pc.Popping? && !l.proc.messageWaiting && l.queue != [] ==> l.event || aboutToSet)
  }

  /** An interrupted processor takes at most one more message. */
  ghost predicate Winding(l: Lane) {
    && (!l.proc.interrupted ==> l.past.lateTakes == 0 && !l.proc.pc.Exited?)
    && l.past.lateTakes <= 1
    && (l.proc.pc.Waiting? || l.proc.pc.Popping? ==> l.past.lateTakes == 0)
    && (l.cleared ==> l.proc.pc.Exited?)
  }

  lemma FifoPush(l: Lane, m: Message)
    requires Fifo(l) && !l.cleared
    ensures Fifo(PushLane(l, m))
  {
    var l' := PushLane(l, m);
    assert l'.queue == l'.past.arrivals[l'.past.gone..];
  }

  lemma FifoAct(l: Lane, a: Action)
    requires Fifo(l) && Winding(l) && CanAct(l, a)
    ensures Fifo(Act(l, a))
  {
    if a.Take? && l.queue != [] {
      var h, h' := l.past, Act(l, a).past;
      assert l.queue[1..] == h.arrivals[h.gone + 1..];
      assert h'.taken[|h.taken|] == h.gone;
      forall k | 0 <= k < h'.gone ensures k in h'.taken || k in h'.droppedBy {
        if k < h.gone { assert k in h.taken ==> k in h'.taken; }
      }
    }
  }

  lemma AwakeAct(l: Lane, a: Action, aboutToSet: bool)
    requires Awake(l, aboutToSet) && Winding(l) && CanAct(l, a)
    ensures Awake(Act(l, a), aboutToSet) && Winding(Act(l, a))
  {
  }

  // ---------- the connection ----------

  datatype Receiver =
    | Reading
    | Parsed(m: Message)         // parsed, not yet queued
    | AboutToSet(slow: bool)     // queued, event not yet set
    | Closing(stage: nat)        // the close branch: interrupt, interrupt, set, set, join, join, clear, clear
    | Gone

  /** The heap of messages: what was allocated and freed, and the library's live-message counter. */
  datatype Memory = Memory(parsed: seq<Message>, destroyed: seq<Message>, start: int, live: int)

  datatype State = State(receiver: Receiver, fast: Lane, slow: Lane, mem: Memory)

  function Start(live: int): State {
    State(Reading, NEW_LANE, NEW_LANE, Memory([], [], live, live))
  }

  datatype Step =
    | Parse(m: Message)
    | Push
    | Set
    | Close
    | CloseStep
    | Run(slow: bool, action: Action)

  function LaneOf(s: State, slow: bool): Lane {
    if slow then s.slow else s.fast
  }

  function WithLane(s: State, slow: bool, l: Lane): State {
    if slow then s.(slow := l) else s.(fast := l)
  }

  function Allocated(mem: Memory, m: Message): Memory {
    mem.(parsed := mem.parsed + [m], live := mem.live + 1)
  }

  function Freed(mem: Memory, ms: seq<Message>): Memory {
    mem.(destroyed := mem.destroyed + ms, live := mem.live - |ms|)
  }

  ghost predicate Enabled(s: State, step: Step) {
    match step
    case Parse(m) => s.receiver.Reading? && forall i :: 0 <= i < |s.mem.parsed| ==> s.mem.parsed[i].id != m.id
    case Push => s.receiver.Parsed?
    case Set => s.receiver.AboutToSet?
    case Close => s.receiver.Reading?
    case CloseStep =>
      && s.receiver.Closing?
      && (s.receiver.stage == 4 ==> s.fast.proc.pc.Exited?)
      && (s.receiver.stage == 5 ==> s.slow.proc.pc.Exited?)
    case Run(slow, a) => CanAct(LaneOf(s, slow), a)
  }

  function Interrupted(l: Lane): Lane { l.(proc := l.proc.(interrupted := true)) }
  function Signalled(l: Lane): Lane { l.(event := true) }
  function Cleared(l: Lane): Lane { l.(queue := [], cleared := true) }

  /**
   One statement of the close branch, seen from a lane: the fast lane comes first in each of
   interrupt (0, 1), set (2, 3), join (4, 5) and clear (6, 7).
   */
  function CloseLane(l: Lane, stage: nat, mine: nat): Lane {
    if stage == mine then Interrupted(l)
    else if stage == 2 + mine then Signalled(l)
    else if stage == 6 + mine then Cleared(l)
    else l
  }

  function FreedByClose(s: State, stage: nat): seq<Message> {
    if stage == 6 then s.fast.queue else if stage == 7 then s.slow.queue else []
  }

  function CloseStage(s: State, stage: nat): State {
    State(if stage < 7 then Closing(stage + 1) else Gone,
          CloseLane(s.fast, stage, 0), CloseLane(s.slow, stage, 1), Freed(s.mem, FreedByClose(s, stage)))
  }

  ghost function Apply(s: State, step: Step): State
    requires Enabled(s, step)
  {
    match step
    case Parse(m) => s.(receiver := Parsed(m), mem := Allocated(s.mem, m))
    case Push =>
      var m := s.receiver.m;
      var slow := IsSlow(m);
      var l := LaneOf(s, slow);
      WithLane(s, slow, PushLane(l, m)).(receiver := AboutToSet(slow), mem := Freed(s.mem, FreedByPush(l.queue)))
    case Set => WithLane(s, s.receiver.slow, Signalled(LaneOf(s, s.receiver.slow))).(receiver := Reading)
    case Close => s.(receiver := Closing(0))
    case CloseStep => CloseStage(s, s.receiver.stage)
    case Run(slow, a) =>
      var l := LaneOf(s, slow);
      var s1 := WithLane(s, slow, Act(l, a));
      if a.Finish? then s1.(mem := Freed(s.mem, [l.proc.pc.m])) else s1
  }

  ghost predicate IsRun(s: State, steps: seq<Step>)
    decreases |steps|
  {
    steps == [] || (Enabled(s, steps[0]) && IsRun(Apply(s, steps[0]), steps[1..]))
  }

  ghost function Exec(s: State, steps: seq<Step>): State
    requires IsRun(s, steps)
    decreases |steps|
  {
    if steps == [] then s else Exec(Apply(s, steps[0]), steps[1..])
  }

  // ---------- lanes in every interleaving ----------

  ghost predicate Kinds(l: Lane, slow: bool) {
    && (forall i :: 0 <= i < |l.queue| ==> IsSlow(l.queue[i]) == slow)
    && (l.proc.pc.Handling? ==> IsSlow(l.proc.pc.m) == slow)
  }

  ghost predicate LaneInv(l: Lane, slow: bool, aboutToSet: bool) {
    Fifo(l) && Awake(l, aboutToSet) && Winding(l) && Kinds(l, slow)
  }

  /** How far the close branch has come with a lane: `mine` is the lane's place in it. */
  ghost predicate Closed(l: Lane, r: Receiver, mine: nat) {
    && (r.Closing? ==> r.stage < 8)
    && (l.proc.interrupted <==> r.Gone? || (r.Closing? && r.stage > mine))
    && (r.Gone? || (r.Closing? && r.stage > 2 + mine) ==> !l.proc.pc.Waiting? || l.event)
    && (r.Gone? || (r.Closing? && r.stage > 4 + mine) ==> l.proc.pc.Exited?)
    && (l.cleared <==> r.Gone? || (r.Closing? && r.stage > 6 + mine))
  }

  ghost predicate Lanes(s: State) {
    && LaneInv(s.fast, false, s.receiver == AboutToSet(false))
    && LaneInv(s.slow, true, s.receiver == AboutToSet(true))
    && Closed(s.fast, s.receiver, 0) && Closed(s.slow, s.receiver, 1)
  }

  lemma PushLaneKeeps(l: Lane, m: Message)
    requires LaneInv(l, IsSlow(m), false) && !l.cleared
    ensures LaneInv(PushLane(l, m), IsSlow(m), true)
  {
    FifoPush(l, m);
  }

  lemma ActKeeps(l: Lane, a: Action, slow: bool, aboutToSet: bool, r: Receiver, mine: nat)
    requires LaneInv(l, slow, aboutToSet) && Closed(l, r, mine) && CanAct(l, a)
    ensures LaneInv(Act(l, a), slow, aboutToSet) && Closed(Act(l, a), r, mine)
  {
    FifoAct(l, a);
    AwakeAct(l, a, aboutToSet);
  }

  lemma CloseLaneKeeps(l: Lane, slow: bool, stage: nat, mine: nat)
    requires LaneInv(l, slow, false) && Closed(l, Closing(stage), mine) && mine <= 1
    requires stage == 4 + mine ==> l.proc.pc.Exited?
    ensures var l' := CloseLane(l, stage, mine);
            LaneInv(l', slow, false) && Closed(l', if stage < 7 then Closing(stage + 1) else Gone, mine)
  {
  }

  lemma CloseKeeps(s: State)
    requires Lanes(s) && Enabled(s, CloseStep)
    ensures Lanes(Apply(s, CloseStep))
  {
    CloseLaneKeeps(s.fast, false, s.receiver.stage, 0);
    CloseLaneKeeps(s.slow, true, s.receiver.stage, 1);
  }

  lemma RunKeeps(s: State, slow: bool, a: Action)
    requires Lanes(s) && Enabled(s, Run(slow, a))
    ensures Lanes(Apply(s, Run(slow, a)))
  {
    ActKeeps(LaneOf(s, slow), a, slow, s.receiver == AboutToSet(slow), s.receiver, if slow then 1 else 0);
  }

  lemma SignalKeeps(l: Lane, slow: bool, mine: nat)
    requires LaneInv(l, slow, true) && Closed(l, AboutToSet(slow), mine)
    ensures LaneInv(Signalled(l), slow, false) && Closed(Signalled(l), Reading, mine)
  {
  }

  lemma SetKeeps(s: State)
    requires Lanes(s) && s.receiver.AboutToSet?
    ensures Lanes(Apply(s, Set))
  {
    var slow := s.receiver.slow;
    SignalKeeps(LaneOf(s, slow), slow, if slow then 1 else 0);
  }

  lemma PushKeeps(s: State)
    requires Lanes(s) && s.receiver.Parsed?
    ensures Lanes(Apply(s, Push))
  {
    PushLaneKeeps(LaneOf(s, IsSlow(s.receiver.m)), s.receiver.m);
  }

  lemma LanesStep(s: State, step: Step)
    requires Lanes(s) && Enabled(s, step)
    ensures Lanes(Apply(s, step))
  {
    match step {
      case Push => PushKeeps(s);
      case Set => SetKeeps(s);
      case CloseStep => CloseKeeps(s);
      case Run(slow, a) => RunKeeps(s, slow, a);
      case _ =>
    }
  }

  lemma {:induction false} LanesRun(s: State, steps: seq<Step>)
    requires Lanes(s) && IsRun(s, steps)
    ensures Lanes(Exec(s, steps))
    decreases |steps|
  {
    if steps != [] {
      LanesStep(s, steps[0]);
      LanesRun(Apply(s, steps[0]), steps[1..]);
    }
  }

  lemma StartLanes(live: int)
    ensures Lanes(Start(live))
  {
  }

  lemma Reached(live: int, steps: seq<Step>) returns (e: State)
    requires IsRun(Start(live), steps)
    ensures e == Exec(Start(live), steps) && Lanes(e)
  {
    StartLanes(live);
    LanesRun(Start(live), steps);
    e := Exec(Start(live), steps);
  }

  /** In WaitOne, or at the loop's test with nothing known to be waiting. */
  predicate GoingToSleep(l: Lane) {
    l.proc.pc.Waiting? || (l.proc.pc.AtLoop? && !l.proc.messageWaiting)
  }

  /**
   In every interleaving: a processor that sleeps or is about to while its queue holds messages has
   its event set, or the receiver is about to set it; one that skips the wait finds a message; and
   after its interruption it takes at most one more.
   */
  lemma NoLostWakeupNoSpinning(live: int, steps: seq<Step>, slow: bool)
    requires IsRun(Start(live), steps)
    ensures var e := Exec(Start(live), steps); var l := LaneOf(e, slow);
            && (GoingToSleep(l) && l.queue != [] ==> l.event || e.receiver == AboutToSet(slow))
            && (l.proc.pc.AtLoop? && l.proc.messageWaiting ==> l.queue != [])
            && l.past.lateTakes <= 1
  {
    var e := Reached(live, steps);
    assert LaneInv(LaneOf(e, slow), slow, e.receiver == AboutToSet(slow));
  }

  /**
   Each lane is exactly FIFO with drop-oldest: what was taken is a subsequence of the arrivals in
   order, an arrival was dropped only by the 50th after it, the rest is the queue, and each lane
   sees only its own kind of message.
   */
  lemma LanesAreFifo(live: int, steps: seq<Step>, slow: bool)
    requires IsRun(Start(live), steps)
    ensures var l := LaneOf(Exec(Start(live), steps), slow);
            && Fifo(l) && |l.queue| <= 50
            && (forall k :: k in l.past.droppedBy ==> l.past.droppedBy[k] == k + 50)
            && (slow && l.proc.pc.Handling? ==> l.proc.pc.m.isStatus || l.proc.pc.m.isEventLog)
            && (!slow && l.proc.pc.Handling? ==> !l.proc.pc.m.isStatus && !l.proc.pc.m.isEventLog)
  {
    var e := Reached(live, steps);
    assert LaneInv(LaneOf(e, slow), slow, e.receiver == AboutToSet(slow));
  }

  /** The step sets the lane's event. */
  ghost predicate Signals(s: State, step: Step, slow: bool) {
    (step.Set? && s.receiver == AboutToSet(slow)) ||
    (step.CloseStep? && s.receiver == Closing(if slow then 3 else 2))
  }

  ghost predicate Unsignalled(s: State, steps: seq<Step>, slow: bool)
    requires IsRun(s, steps)
    decreases |steps|
  {
    steps == [] || (!Signals(s, steps[0], slow) && Unsignalled(Apply(s, steps[0]), steps[1..], slow))
  }

  lemma EventStaysDown(s: State, step: Step, slow: bool)
    requires Enabled(s, step) && !Signals(s, step, slow) && !LaneOf(s, slow).event
    ensures !LaneOf(Apply(s, step), slow).event
  {
  }

  lemma {:induction false} NoEventWithoutSignal(s: State, steps: seq<Step>, slow: bool)
    requires IsRun(s, steps) && Unsignalled(s, steps, slow) && !LaneOf(s, slow).event
    ensures !LaneOf(Exec(s, steps), slow).event
    decreases |steps|
  {
    if steps != [] {
      EventStaysDown(s, steps[0], slow);
      NoEventWithoutSignal(Apply(s, steps[0]), steps[1..], slow);
    }
  }

  /** A wakeup uses up its signal: until the event is set again the processor does not wake again. */
  lemma EachWakeupNeedsASignal(s: State, slow: bool, steps: seq<Step>)
    requires Enabled(s, Run(slow, Wake)) && IsRun(Apply(s, Run(slow, Wake)), steps)
    requires Unsignalled(Apply(s, Run(slow, Wake)), steps, slow)
    ensures !Enabled(Exec(Apply(s, Run(slow, Wake)), steps), Run(slow, Wake))
  {
    NoEventWithoutSignal(Apply(s, Run(slow, Wake)), steps, slow);
  }

  // ---------- the close branch ends ----------

  function Rank(pc: Pc): nat {
    match pc
    case Waiting => 4
    case Popping => 3
    case Handling(_) => 2
    case AtLoop => 1
    case Exited => 0
  }

  ghost predicate Released(r: Receiver, slow: bool) {
    r.Gone? || (r.Closing? && r.stage > if slow then 3 else 2)
  }

  lemma CanMove(l: Lane) returns (a: Action)
    requires !l.proc.pc.Exited? && (l.proc.pc.Waiting? ==> l.event)
    ensures CanAct(l, a)
  {
    a := match l.proc.pc
         case Waiting => Wake
         case Popping => Take
         case Handling(_) => Finish
         case AtLoop => Check;
  }

  /** The step brings the processor nearer to its exit if it is its own, and leaves it where it is if not. */
  ghost predicate Nearer(s: State, step: Step, slow: bool)
    requires Enabled(s, step)
  {
    var pc, pc' := LaneOf(s, slow).proc.pc, LaneOf(Apply(s, step), slow).proc.pc;
    if step.Run? && step.slow == slow then Rank(pc') < Rank(pc) else pc' == pc
  }

  ghost predicate HasMove(s: State, slow: bool) {
    exists a :: Enabled(s, Run(slow, a))
  }

  lemma MovesOn(s: State, slow: bool)
    requires Lanes(s) && Released(s.receiver, slow)
    ensures LaneOf(s, slow).proc.pc.Exited? || HasMove(s, slow)
  {
    if !LaneOf(s, slow).proc.pc.Exited? {
      var a := CanMove(LaneOf(s, slow));
      assert Enabled(s, Run(slow, a));
    }
  }

  lemma RankStep(s: State, step: Step, slow: bool)
    requires Lanes(s) && Released(s.receiver, slow) && Enabled(s, step)
    ensures Nearer(s, step, slow)
  {
  }

  /**
   Once the close branch has interrupted a processor and set its event, that processor can always
   move on until it has exited.
   */
  lemma JoinsNeverBlock(live: int, steps: seq<Step>, slow: bool)
    requires IsRun(Start(live), steps) && Released(Exec(Start(live), steps).receiver, slow)
    ensures var e := Exec(Start(live), steps);
            LaneOf(e, slow).proc.pc.Exited? || HasMove(e, slow)
  {
    var e := Reached(live, steps);
    MovesOn(e, slow);
  }

  /** Each of its moves, and nothing else, brings it nearer to the exit: the join returns after at most four. */
  lemma JoinsReturn(live: int, steps: seq<Step>, step: Step, slow: bool)
    requires IsRun(Start(live), steps) && Enabled(Exec(Start(live), steps), step)
    requires Released(Exec(Start(live), steps).receiver, slow)
    ensures Nearer(Exec(Start(live), steps), step, slow)
  {
    var e := Reached(live, steps);
    RankStep(e, step, slow);
  }

  // ---------- the connection can always be closed ----------

  function StepsToGo(r: Receiver): nat {
    match r
    case Parsed(_) => 12
    case AboutToSet(_) => 11
    case Reading => 10
    case Closing(stage) => if stage < 8 then 9 - stage else 1
    case Gone => 0
  }

  /** The processor that the close branch waits for. */
  predicate Joining(s: State, slow: bool) {
    s.receiver == Closing(if slow then 5 else 4) && !LaneOf(s, slow).proc.pc.Exited?
  }

  lemma NextStep(s: State) returns (step: Step)
    requires Lanes(s) && !s.receiver.Gone? && !Joining(s, false) && !Joining(s, true)
    ensures Enabled(s, step) && StepsToGo(Apply(s, step).receiver) < StepsToGo(s.receiver)
  {
    step := match s.receiver
            case Parsed(_) => Push
            case AboutToSet(_) => Set
            case Reading => Close
            case Closing(_) => CloseStep;
  }

  lemma JoinedMove(s: State, slow: bool) returns (a: Action)
    requires Lanes(s) && Joining(s, slow)
    ensures Enabled(s, Run(slow, a)) && Apply(s, Run(slow, a)).receiver == s.receiver
    ensures Rank(LaneOf(Apply(s, Run(slow, a)), slow).proc.pc) < Rank(LaneOf(s, slow).proc.pc)
  {
    MovesOn(s, slow);
    a :| Enabled(s, Run(slow, a));
    RankStep(s, Run(slow, a), slow);
  }

  function MovesToGo(s: State): nat {
    if Joining(s, false) then Rank(s.fast.proc.pc) else if Joining(s, true) then Rank(s.slow.proc.pc) else 0
  }

  lemma {:induction false} ClosesFrom(s: State) returns (steps: seq<Step>)
    requires Lanes(s)
    ensures IsRun(s, steps) && Exec(s, steps).receiver.Gone?
    decreases StepsToGo(s.receiver), MovesToGo(s)
  {
    if s.receiver.Gone? {
      steps := [];
    } else {
      var step := Close;
      if Joining(s, false) {
        var a := JoinedMove(s, false);
        step := Run(false, a);
      } else if Joining(s, true) {
        var a := JoinedMove(s, true);
        step := Run(true, a);
      } else {
        step := NextStep(s);
      }
      LanesStep(s, step);
      var rest := ClosesFrom(Apply(s, step));
      steps := [step] + rest;
      assert steps[0] == step && steps[1..] == rest;
    }
  }

  /** From every reachable state there is a run that closes the connection. */
  lemma CanBeClosed(live: int, steps: seq<Step>) returns (more: seq<Step>)
    requires IsRun(Start(live), steps)
    ensures IsRun(Exec(Start(live), steps), more) && Exec(Exec(Start(live), steps), more).receiver.Gone?
  {
    var e := Reached(live, steps);
    more := ClosesFrom(e);
  }

  // ---------- conservation of messages ----------

  function InHand(r: Receiver): seq<Message> {
    if r.Parsed? then [r.m] else []
  }

  function Held(l: Lane): seq<Message> {
    if l.proc.pc.Handling? then [l.proc.pc.m] else []
  }

  function Owned(l: Lane): multiset<Message> {
    multiset(l.queue) + multiset(Held(l))
  }

  function Alive(s: State): multiset<Message> {
    multiset(InHand(s.receiver)) + Owned(s.fast) + Owned(s.slow)
  }

  /** The heap balances: what was parsed is alive or freed, and the counter counts what is alive. */
  ghost predicate Balanced(mem: Memory, alive: multiset<Message>) {
    && multiset(mem.parsed) == alive + multiset(mem.destroyed)
    && mem.live == mem.start + |mem.parsed| - |mem.destroyed|
    && (forall i, j :: 0 <= i < j < |mem.parsed| ==> mem.parsed[i].id != mem.parsed[j].id)
  }

  lemma FreeKeepsBalance(mem: Memory, alive: multiset<Message>, ms: seq<Message>)
    requires Balanced(mem, alive + multiset(ms))
    ensures Balanced(Freed(mem, ms), alive)
  {
  }

  lemma PushOwned(q: seq<Message>, m: Message)
    ensures multiset(q) + multiset([m]) == multiset(FreedByPush(q)) + multiset(Pushed(q, m))
  {
    if |q| == QUEUE_CAPACITY {
      assert q + [m] == [q[0]] + (q[1..] + [m]);
    }
    assert multiset(q + [m]) == multiset(q) + multiset([m]);
  }

  lemma TakeOwned(l: Lane)
    requires l.proc.pc.Popping?
    ensures Owned(TakeLane(l)) == Owned(l)
  {
    if l.queue != [] {
      assert l.queue == [l.queue[0]] + l.queue[1..];
      assert multiset(l.queue) == multiset([l.queue[0]]) + multiset(l.queue[1..]);
    }
  }

  lemma ActOwned(l: Lane, a: Action)
    requires CanAct(l, a)
    ensures !a.Finish? ==> Owned(Act(l, a)) == Owned(l)
    ensures a.Finish? ==> Owned(Act(l, a)) + multiset([l.proc.pc.m]) == Owned(l)
  {
    if a.Take? { TakeOwned(l); }
  }

  /** What a step frees. */
  ghost function FreedBy(s: State, step: Step): seq<Message>
    requires Enabled(s, step)
  {
    match step
    case Push => FreedByPush(LaneOf(s, IsSlow(s.receiver.m)).queue)
    case CloseStep => FreedByClose(s, s.receiver.stage)
    case Run(slow, a) => if a.Finish? then [LaneOf(s, slow).proc.pc.m] else []
    case _ => []
  }

  lemma CloseOwned(l: Lane, stage: nat, mine: nat)
    ensures stage == 6 + mine ==> Owned(CloseLane(l, stage, mine)) + multiset(l.queue) == Owned(l)
    ensures stage != 6 + mine ==> Owned(CloseLane(l, stage, mine)) == Owned(l)
  {
  }

  lemma Rearranged(x': multiset<Message>, freed: multiset<Message>, h': multiset<Message>,
                   x: multiset<Message>, h: multiset<Message>, y: multiset<Message>)
    requires x' + freed + h' == x + h
    ensures h' + x' + y + freed == h + x + y
    ensures x' + y + freed + h' == x + y + h
  {
    forall m ensures (h' + x' + y + freed)[m] == (h + x + y)[m] {
      assert (x' + freed + h')[m] == (x + h)[m];
    }
    forall m ensures (x' + y + freed + h')[m] == (x + y + h)[m] {
      assert (x' + freed + h')[m] == (x + h)[m];
    }
  }

  lemma PushLaneOwned(l: Lane, m: Message)
    ensures Owned(PushLane(l, m)) + multiset(FreedByPush(l.queue)) + multiset{} == Owned(l) + multiset([m])
  {
    PushOwned(l.queue, m);
    Rearranged(multiset(Pushed(l.queue, m)), multiset(FreedByPush(l.queue)), multiset{},
               multiset(l.queue), multiset([m]), multiset(Held(l)));
  }

  /** Owners before and after, when only one lane and the receiver's hand change. */
  lemma AliveParts(s: State, s': State, freed: multiset<Message>, slow: bool)
    requires LaneOf(s', !slow) == LaneOf(s, !slow)
    requires Owned(LaneOf(s', slow)) + freed + multiset(InHand(s'.receiver))
             == Owned(LaneOf(s, slow)) + multiset(InHand(s.receiver))
    ensures Alive(s') + freed == Alive(s)
  {
    var h', h := multiset(InHand(s'.receiver)), multiset(InHand(s.receiver));
    Rearranged(Owned(LaneOf(s', slow)), freed, h', Owned(LaneOf(s, slow)), h, Owned(LaneOf(s, !slow)));
    if slow {
      Swapped(h', Owned(s'.fast), Owned(s'.slow));
      Swapped(h, Owned(s.fast), Owned(s.slow));
    }
  }

  lemma Swapped(h: multiset<Message>, x: multiset<Message>, y: multiset<Message>)
    ensures h + x + y == h + y + x
  {
  }

  lemma AlivePush(s: State)
    requires s.receiver.Parsed?
    ensures Alive(Apply(s, Push)) + multiset(FreedBy(s, Push)) == Alive(s)
  {
    var m := s.receiver.m;
    PushLaneOwned(LaneOf(s, IsSlow(m)), m);
    AliveParts(s, Apply(s, Push), multiset(FreedBy(s, Push)), IsSlow(m));
  }

  /** Even stages of the close branch are about the fast lane, odd ones about the slow lane. */
  lemma AliveClose(s: State)
    requires Lanes(s) && Enabled(s, CloseStep)
    ensures Alive(Apply(s, CloseStep)) + multiset(FreedBy(s, CloseStep)) == Alive(s)
  {
    var stage := s.receiver.stage;
    var slow := stage == 1 || stage == 3 || stage == 5 || stage == 7;
    CloseOwned(LaneOf(s, slow), stage, if slow then 1 else 0);
    AliveParts(s, Apply(s, CloseStep), multiset(FreedBy(s, CloseStep)), slow);
  }

  lemma AliveRun(s: State, slow: bool, a: Action)
    requires Enabled(s, Run(slow, a))
    ensures Alive(Apply(s, Run(slow, a))) + multiset(FreedBy(s, Run(slow, a))) == Alive(s)
  {
    ActOwned(LaneOf(s, slow), a);
    AliveParts(s, Apply(s, Run(slow, a)), multiset(FreedBy(s, Run(slow, a))), slow);
  }

  lemma AliveStep(s: State, step: Step)
    requires Lanes(s) && Enabled(s, step) && !step.Parse?
    ensures Alive(Apply(s, step)) + multiset(FreedBy(s, step)) == Alive(s)
  {
    match step {
      case Push => AlivePush(s);
      case CloseStep => AliveClose(s);
      case Run(slow, a) => AliveRun(s, slow, a);
      case Set =>
      case Close =>
    }
  }

  lemma MemoryStep(s: State, step: Step)
    requires Enabled(s, step) && !step.Parse?
    ensures Apply(s, step).mem == Freed(s.mem, FreedBy(s, step))
  {
    assert s.mem.destroyed + [] == s.mem.destroyed;
  }

  lemma BalanceStep(s: State, step: Step)
    requires Lanes(s) && Balanced(s.mem, Alive(s)) && Enabled(s, step)
    ensures Balanced(Apply(s, step).mem, Alive(Apply(s, step)))
  {
    if step.Parse? {
      ParseKeepsBalance(s, step.m);
    } else {
      AliveStep(s, step);
      MemoryStep(s, step);
      FreeKeepsBalance(s.mem, Alive(Apply(s, step)), FreedBy(s, step));
    }
  }

  lemma ParseKeepsBalance(s: State, m: Message)
    requires Balanced(s.mem, Alive(s)) && Enabled(s, Parse(m))
    ensures Balanced(Apply(s, Parse(m)).mem, Alive(Apply(s, Parse(m))))
  {
    assert Alive(Apply(s, Parse(m))) == Alive(s) + multiset([m]);
  }

  lemma {:induction false} BalanceRun(s: State, steps: seq<Step>)
    requires Lanes(s) && Balanced(s.mem, Alive(s)) && IsRun(s, steps)
    ensures var e := Exec(s, steps); Lanes(e) && Balanced(e.mem, Alive(e)) && e.mem.start == s.mem.start
    decreases |steps|
  {
    if steps != [] {
      BalanceStep(s, steps[0]);
      LanesStep(s, steps[0]);
      StartStays(s, steps[0]);
      BalanceRun(Apply(s, steps[0]), steps[1..]);
    }
  }

  lemma StartStays(s: State, step: Step)
    requires Enabled(s, step)
    ensures Apply(s, step).mem.start == s.mem.start
  {
  }

  lemma {:induction false} DistinctOccurOnce(parsed: seq<Message>, m: Message)
    requires forall i, j :: 0 <= i < j < |parsed| ==> parsed[i].id != parsed[j].id
    ensures multiset(parsed)[m] <= 1
  {
    if parsed != [] {
      var n := |parsed| - 1;
      assert parsed == parsed[..n] + [parsed[n]];
      DistinctOccurOnce(parsed[..n], m);
      assert multiset(parsed)[m] == multiset(parsed[..n])[m] + if m == parsed[n] then 1 else 0;
      assert m in parsed[..n] ==> m.id != parsed[n].id;
    }
  }

  /**
   In every reachable state what was parsed is in hand, queued, held or freed, nothing is freed
   twice, the live counter counts what is not freed, and once the connection is gone every message
   was freed exactly once and the counter is back where it started.
   */
  lemma MessagesAreConserved(live: int, steps: seq<Step>)
    requires IsRun(Start(live), steps)
    ensures var e := Exec(Start(live), steps);
            && multiset(e.mem.parsed) == Alive(e) + multiset(e.mem.destroyed)
            && (forall m :: multiset(e.mem.destroyed)[m] <= 1)
            && e.mem.live == live + |e.mem.parsed| - |e.mem.destroyed|
            && (e.receiver.Gone? ==> multiset(e.mem.destroyed) == multiset(e.mem.parsed) && e.mem.live == live)
  {
    BalanceRun(Start(live), steps);
    var e := Exec(Start(live), steps);
    FreedOnce(e.mem, Alive(e));
    if e.receiver.Gone? { NothingLeft(e); }
  }

  lemma FreedOnce(mem: Memory, alive: multiset<Message>)
    requires Balanced(mem, alive)
    ensures forall m :: multiset(mem.destroyed)[m] <= 1
  {
    forall m ensures multiset(mem.destroyed)[m] <= 1 {
      DistinctOccurOnce(mem.parsed, m);
      assert multiset(mem.parsed)[m] == alive[m] + multiset(mem.destroyed)[m];
    }
  }

  lemma NothingLeft(s: State)
    requires Lanes(s) && Balanced(s.mem, Alive(s)) && s.receiver.Gone?
    ensures multiset(s.mem.destroyed) == multiset(s.mem.parsed) && s.mem.live == s.mem.start
  {
    assert Alive(s) == multiset{};
    assert |s.mem.destroyed| == |multiset(s.mem.destroyed)| && |s.mem.parsed| == |multiset(s.mem.parsed)|;
  }
}
