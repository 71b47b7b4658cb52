/**
 The plugin supervisor (src/tmx/TmxCore/src/PluginMonitor.cpp).

 `PluginMonitor` holds the loops of a pass.  Below it the pass is cut into its steps, one plugin
 at a time, and interleaved with everything that happens around it: messages recorded by other
 threads, processes dying, plugins enabled, disabled and reconfigured, the database failing.
 */
module Supervision {
  import opened Wrappers
  import PathCheck

  datatype Signal = TERM | INT | KILL

  datatype KillState = Alive | TermSent | IntSent | KillSent

  /** An installed plugin as a database read shows it; the maps below are keyed by its id. */
  datatype Installed = Installed(pluginId: nat, interval: nat, exe: seq<string>)

  datatype MessageData = MessageData(first: nat, last: nat)

  /**
   The monitoring data of a running plugin.  `entry` is the key of the running map: it keeps the
   values it had at launch.  `since` is history: how many messages had been drained at launch.
   */
  datatype Tracked = Tracked(entry: Installed, pid: nat, startTime: nat, lastReceived: nat, kill: KillState, since: nat)

  type Messages = map<nat, MessageData>
  type Running = map<nat, Tracked>
  type Enabled = map<nat, Installed>

  datatype Limits = Limits(maxStartup: nat, now: nat)

  // ---------- the decisions of a pass ----------

  function Recorded(ms: Messages, source: nat, time: nat): Messages {
    if source == 0 then ms
    else if source in ms then ms[source := ms[source].(last := time)]
    else ms[source := MessageData(time, time)]
  }

  function Refreshed(t: Tracked, ms: Messages): Tracked {
    if t.entry.pluginId in ms then t.(lastReceived := ms[t.entry.pluginId].last) else t
  }

  /** The zero test reads the interval of the launch, the comparison the fresh one. */
  predicate ShouldKill(id: nat, t: Tracked, enabled: Enabled, lim: Limits) {
    if id !in enabled then true
    else if t.lastReceived == 0 then t.startTime + lim.maxStartup <= lim.now
    else t.entry.interval != 0 && enabled[id].interval + t.lastReceived <= lim.now
  }

  function NextKill(id: nat, t: Tracked, enabled: Enabled, lim: Limits): KillState {
    match t.kill
    case TermSent => IntSent
    case IntSent => KillSent
    case KillSent => KillSent
    case Alive => if ShouldKill(id, t, enabled, lim) then TermSent else Alive
  }

  function Escalated(id: nat, t: Tracked, enabled: Enabled, lim: Limits): Tracked {
    t.(kill := NextKill(id, t, enabled, lim))
  }

  /** The signals a kill state stands for. */
  function Sent(k: KillState): seq<Signal> {
    match k
    case Alive => []
    case TermSent => [TERM]
    case IntSent => [TERM, INT]
    case KillSent => [TERM, INT, KILL]
  }

  predicate DistinctPlugins(running: Running) {
    forall i, j :: i in running && j in running && i != j ==> running[i].entry.pluginId != running[j].entry.pluginId
  }

  class PluginMonitor {
    var messages: Messages
    var running: Running
    var sent: map<nat, seq<Signal>>  // what each running plugin's process was given by kill()

    constructor ()
      ensures messages == map[] && running == map[] && sent == map[]
    {
      messages, running, sent := map[], map[], map[];
    }

    method OnMessageReceived(source: nat, time: nat)
      modifies this`messages
      ensures messages == Recorded(old(messages), source, time)
    {
      if source == 0 { return; }
      if source in messages {
        messages := messages[source := messages[source].(last := time)];
      } else {
        messages := messages[source := MessageData(time, time)];
      }
    }

    /** The drain: for each heard plugin, the search for the running entry with its plugin id. */
    method DrainMessages()
      requires DistinctPlugins(running)
      modifies this`messages, this`running
      ensures messages == map[]
      ensures running.Keys == old(running).Keys
      ensures forall id :: id in running ==> running[id] == Refreshed(old(running)[id], old(messages))
    {
      var todo := messages.Keys;
      while todo != {}
        invariant todo <= messages.Keys && messages == old(messages)
        invariant running.Keys == old(running).Keys
        invariant forall id :: id in running ==> running[id].entry == old(running)[id].entry
        invariant forall id :: id in running ==>
          running[id] == if old(running)[id].entry.pluginId in todo then old(running)[id]
                         else Refreshed(old(running)[id], messages)
      {
        var source :| source in todo;
        if id :| id in running && running[id].entry.pluginId == source {
          running := running[id := running[id].(lastReceived := messages[source].last)];
        }
        todo := todo - {source};
      }
      messages := map[];
    }

    /** One turn of the escalation switch. */
    method EscalateOne(id: nat, enabled: Enabled, lim: Limits)
      requires id in running && id in sent && sent[id] == Sent(running[id].kill)
      modifies this`running, this`sent
      ensures running == old(running)[id := Escalated(id, old(running)[id], enabled, lim)]
      ensures sent == old(sent)[id := Sent(running[id].kill)]
      ensures old(sent)[id] <= sent[id] && |sent[id]| <= |old(sent)[id]| + 1
    {
      var t := running[id];
      assert [] + [TERM] == Sent(TermSent) && [TERM] + [INT] == Sent(IntSent) && [TERM, INT] + [KILL] == Sent(KillSent);
      match t.kill {
        case TermSent => sent := sent[id := sent[id] + [INT]]; running := running[id := t.(kill := IntSent)];
        case IntSent => sent := sent[id := sent[id] + [KILL]]; running := running[id := t.(kill := KillSent)];
        case KillSent =>
        case Alive =>
          if ShouldKill(id, t, enabled, lim) {
            sent := sent[id := sent[id] + [TERM]];
            running := running[id := t.(kill := TermSent)];
          }
      }
    }

    /** The escalation loop: in one pass every running plugin gets at most one signal. */
    method EscalateKills(enabled: Enabled, lim: Limits)
      requires sent.Keys == running.Keys && forall id :: id in running ==> sent[id] == Sent(running[id].kill)
      modifies this`running, this`sent
      ensures running.Keys == old(running).Keys && sent.Keys == running.Keys
      ensures forall id :: id in running ==> running[id] == Escalated(id, old(running)[id], enabled, lim)
      ensures forall id :: id in running ==>
                sent[id] == Sent(running[id].kill) && old(sent)[id] <= sent[id] && |sent[id]| <= |old(sent)[id]| + 1
    {
      var todo := running.Keys;
      ghost var was, gave := running, sent;
      while todo != {}
        invariant Halfway(was, gave, todo, running, sent, enabled, lim)
      {
        var id :| id in todo;
        ghost var running0, sent0 := running, sent;
        EscalateOne(id, enabled, lim);
        HalfwayOne(was, gave, todo, running0, sent0, enabled, lim, id, sent[id]);
        todo := todo - {id};
      }
    }
  }

  /** Plugins still to do are as they were; the others have been escalated once. */
  ghost predicate Halfway(was: Running, gave: map<nat, seq<Signal>>, todo: set<nat>, running: Running,
                          sent: map<nat, seq<Signal>>, enabled: Enabled, lim: Limits)
  {
    todo <= was.Keys && was.Keys == gave.Keys == running.Keys == sent.Keys &&
    (forall id :: id in todo ==> running[id] == was[id] && sent[id] == gave[id]) &&
    (forall id :: id in running && id !in todo ==> running[id] == Escalated(id, was[id], enabled, lim)) &&
    forall id :: id in running ==>
      sent[id] == Sent(running[id].kill) && gave[id] <= sent[id] && |sent[id]| <= |gave[id]| + 1
  }

  lemma HalfwayOne(was: Running, gave: map<nat, seq<Signal>>, todo: set<nat>, running: Running,
                   sent: map<nat, seq<Signal>>, enabled: Enabled, lim: Limits, id: nat, signals: seq<Signal>)
    requires Halfway(was, gave, todo, running, sent, enabled, lim) && id in todo
    requires signals == Sent(Escalated(id, was[id], enabled, lim).kill)
    requires gave[id] <= signals && |signals| <= |gave[id]| + 1
    ensures Halfway(was, gave, todo - {id}, running[id := Escalated(id, was[id], enabled, lim)], sent[id := signals], enabled, lim)
  {
  }

  // ---------- the supervisor and its surroundings ----------

  /** A zombie still answers kill(pid, 0); it is gone once the supervisor has waited for it. */
  datatype Life = Running | Zombie | Reaped

  /** A process the supervisor started, with the plugin entry as it was then. */
  datatype Process = Process(plugin: nat, entry: Installed, life: Life, signals: seq<Signal>)

  predicate Present(p: Process) {
    p.life != Reaped
  }

  datatype Heard = Heard(source: nat, time: nat)

  /** The log of everything recorded, and how much of it the last drain had seen. */
  datatype MessageLog = MessageLog(heard: seq<Heard>, drained: nat)

  datatype Phase =
    | Sleeping
    | Drained
    | Reaping(todo: set<nat>, enabled: Enabled, maxStartup: nat)
    | Escalating(todo: set<nat>, enabled: Enabled, lim: Limits)
    | Launching(todo: set<nat>, enabled: Enabled)

  datatype State = State(messages: Messages, running: Running, procs: map<nat, Process>, log: MessageLog, phase: Phase)

  const INITIAL := State(map[], map[], map[], MessageLog([], 0), Sleeping)

  datatype Launch = BadPath | ExecFails | Started(pid: nat, time: nat)

  datatype Step =
    | Record(source: nat, time: nat)
    | Die(pid: nat)
    | Drain
    | DatabaseFails
    | ReadDatabase(enabled: Enabled, maxStartup: nat)
    | Reap(id: nat)
    | BeginEscalation(now: nat)
    | Escalate(id: nat)
    | BeginLaunching
    | LaunchPlugin(id: nat, outcome: Launch)
    | EndPass

  /** `owner` is the plugin table: installed plugins have distinct plugin ids. */
  ghost predicate Injective(owner: nat -> nat) {
    forall i, j :: owner(i) == owner(j) ==> i == j
  }

  ghost predicate Can(owner: nat -> nat, s: State, step: Step) {
    match step
    case Record(_, _) => true
    case Die(pid) => pid in s.procs && s.procs[pid].life == Running
    case Drain => s.phase.Sleeping?
    case DatabaseFails => s.phase.Drained?
    case ReadDatabase(enabled, _) => s.phase.Drained? && forall id :: id in enabled ==> enabled[id].pluginId == owner(id)
    case Reap(id) => s.phase.Reaping? && id in s.phase.todo && id in s.running && s.running[id].pid in s.procs
    case BeginEscalation(_) => s.phase.Reaping? && s.phase.todo == {}
    case Escalate(id) => s.phase.Escalating? && id in s.phase.todo && id in s.running && s.running[id].pid in s.procs
    case BeginLaunching => s.phase.Escalating? && s.phase.todo == {}
    case LaunchPlugin(id, outcome) =>
      && s.phase.Launching? && id in s.phase.todo && id in s.phase.enabled
      && (outcome.BadPath? <==> !PathCheck.Accepts(s.phase.enabled[id].exe))
      && (outcome.Started? ==> outcome.pid !in s.procs)
    case EndPass => s.phase.Launching? && s.phase.todo == {}
  }

  ghost function AfterReap(s: State, id: nat): State
    requires id in s.running && s.running[id].pid in s.procs && s.phase.Reaping?
  {
    var pid := s.running[id].pid;
    var s1 := s.(phase := Reaping(s.phase.todo - {id}, s.phase.enabled, s.phase.maxStartup));
    // waitpid releases a zombie, and then kill(pid, 0) no longer finds it
    if s.procs[pid].life == Running then s1
    else s1.(procs := s.procs[pid := s.procs[pid].(life := Reaped)], running := s.running - {id})
  }

  ghost function AfterEscalate(s: State, id: nat): State
    requires id in s.running && s.running[id].pid in s.procs && s.phase.Escalating?
  {
    var t := Escalated(id, s.running[id], s.phase.enabled, s.phase.lim);
    var p := s.procs[t.pid];
    var more := if t.kill == s.running[id].kill then [] else [Sent(t.kill)[|Sent(t.kill)| - 1]];
    State(s.messages, s.running[id := t], s.procs[t.pid := p.(signals := p.signals + more)], s.log,
          Escalating(s.phase.todo - {id}, s.phase.enabled, s.phase.lim))
  }

  ghost function AfterLaunch(s: State, id: nat, outcome: Launch): State
    requires s.phase.Launching? && id in s.phase.enabled
  {
    var s1 := s.(phase := Launching(s.phase.todo - {id}, s.phase.enabled));
    if id in s.running || !outcome.Started? then s1
    else
      var entry := s.phase.enabled[id];
      s1.(running := s.running[id := Tracked(entry, outcome.pid, outcome.time, 0, Alive, s.log.drained)],
          procs := s.procs[outcome.pid := Process(id, entry, Running, [])])
  }

  ghost function Apply(owner: nat -> nat, s: State, step: Step): State
    requires Can(owner, s, step)
  {
    match step
    case Record(source, time) =>
      s.(messages := Recorded(s.messages, source, time),
         log := s.log.(heard := if source == 0 then s.log.heard else s.log.heard + [Heard(source, time)]))
    case Die(pid) => s.(procs := s.procs[pid := s.procs[pid].(life := Zombie)])
    case Drain =>
      State(map[], map id | id in s.running :: Refreshed(s.running[id], s.messages), s.procs,
            MessageLog(s.log.heard, |s.log.heard|), Drained)
    case DatabaseFails => s.(phase := Sleeping)
    case ReadDatabase(enabled, maxStartup) => s.(phase := Reaping(s.running.Keys, enabled, maxStartup))
    case Reap(id) => AfterReap(s, id)
    case BeginEscalation(now) =>
      s.(phase := Escalating(s.running.Keys, s.phase.enabled, Limits(s.phase.maxStartup, now)))
    case Escalate(id) => AfterEscalate(s, id)
    case BeginLaunching => s.(phase := Launching(s.phase.enabled.Keys, s.phase.enabled))
    case LaunchPlugin(id, outcome) => AfterLaunch(s, id, outcome)
    case EndPass => s.(phase := Sleeping)
  }

  ghost predicate IsRun(owner: nat -> nat, s: State, steps: seq<Step>)
    decreases |steps|
  {
    steps == [] || (Can(owner, s, steps[0]) && IsRun(owner, Apply(owner, s, steps[0]), steps[1..]))
  }

  ghost function Exec(owner: nat -> nat, s: State, steps: seq<Step>): State
    requires IsRun(owner, s, steps)
    decreases |steps|
  {
    if steps == [] then s else Exec(owner, Apply(owner, s, steps[0]), steps[1..])
  }

  // ---------- one process per plugin, signals in order ----------

  /** A tracked plugin and its process. */
  ghost predicate Matches(id: nat, t: Tracked, procs: map<nat, Process>) {
    && t.pid in procs
    && procs[t.pid].plugin == id && procs[t.pid].entry == t.entry && procs[t.pid].life != Reaped
    && procs[t.pid].signals == Sent(t.kill)
  }

  ghost predicate Tended(running: Running, procs: map<nat, Process>) {
    && (forall id :: id in running ==> Matches(id, running[id], procs))
    && (forall p :: p in procs && procs[p].life != Reaped ==> procs[p].plugin in running && running[procs[p].plugin].pid == p)
    && (forall p :: p in procs ==> procs[p].signals <= [TERM, INT, KILL])
  }

  lemma ReapTends(s: State, id: nat)
    requires Tended(s.running, s.procs) && s.phase.Reaping? && id in s.running
    ensures var s' := AfterReap(s, id); Tended(s'.running, s'.procs)
  {
  }

  lemma EscalateTends(s: State, id: nat)
    requires Tended(s.running, s.procs) && s.phase.Escalating? && id in s.running
    ensures var s' := AfterEscalate(s, id); Tended(s'.running, s'.procs)
  {
    var s' := AfterEscalate(s, id);
    var pid := s.running[id].pid;
    assert s'.procs[pid].signals == Sent(s'.running[id].kill);
    assert forall j :: j in s.running && j != id ==> s.running[j].pid != pid;
  }

  lemma LaunchTends(s: State, id: nat, outcome: Launch)
    requires Tended(s.running, s.procs) && s.phase.Launching? && id in s.phase.enabled
    requires outcome.Started? ==> outcome.pid !in s.procs
    ensures var s' := AfterLaunch(s, id, outcome); Tended(s'.running, s'.procs)
  {
  }

  lemma TendedStep(owner: nat -> nat, s: State, step: Step)
    requires Tended(s.running, s.procs) && Can(owner, s, step)
    ensures var s' := Apply(owner, s, step); Tended(s'.running, s'.procs)
  {
    match step {
      case Reap(id) => ReapTends(s, id);
      case Escalate(id) => EscalateTends(s, id);
      case LaunchPlugin(id, outcome) => LaunchTends(s, id, outcome);
      case _ =>
    }
  }

  lemma {:induction false} TendedRun(owner: nat -> nat, s: State, steps: seq<Step>)
    requires Tended(s.running, s.procs) && IsRun(owner, s, steps)
    ensures var e := Exec(owner, s, steps); Tended(e.running, e.procs)
    decreases |steps|
  {
    if steps != [] {
      TendedStep(owner, s, steps[0]);
      TendedRun(owner, Apply(owner, s, steps[0]), steps[1..]);
    }
  }

  /**
   In every reachable state two processes of the same plugin are not both there, and the signals
   any process was sent are a prefix of TERM, INT, KILL.
   */
  lemma AtMostOneProcess(owner: nat -> nat, steps: seq<Step>)
    requires IsRun(owner, INITIAL, steps)
    ensures var e := Exec(owner, INITIAL, steps);
            && (forall p, q :: p in e.procs && q in e.procs && Present(e.procs[p]) && Present(e.procs[q]) ==>
                  e.procs[p].plugin == e.procs[q].plugin ==> p == q)
            && (forall p :: p in e.procs ==> e.procs[p].signals <= [TERM, INT, KILL])
  {
    TendedRun(owner, INITIAL, steps);
  }

  /** Nothing takes a signal back: whatever is enabled or disabled later, a process's list only grows. */
  lemma {:induction false} SignalsOnlyGrow(owner: nat -> nat, s: State, steps: seq<Step>, p: nat)
    requires IsRun(owner, s, steps) && p in s.procs
    ensures var e := Exec(owner, s, steps);
            p in e.procs && s.procs[p].signals <= e.procs[p].signals && e.procs[p].entry == s.procs[p].entry
    decreases |steps|
  {
    if steps != [] {
      SignalStep(owner, s, steps[0], p);
      SignalsOnlyGrow(owner, Apply(owner, s, steps[0]), steps[1..], p);
    }
  }

  lemma SignalStep(owner: nat -> nat, s: State, step: Step, p: nat)
    requires Can(owner, s, step) && p in s.procs
    ensures var s' := Apply(owner, s, step);
            p in s'.procs && s.procs[p].signals <= s'.procs[p].signals && s'.procs[p].entry == s.procs[p].entry
  {
  }

  // ---------- the last time a plugin was heard ----------

  /** Replaying the log in recording order: the time of the last message from `source`, or 0. */
  function LastHeard(log: seq<Heard>, source: nat): nat {
    if log == [] then 0
    else if log[|log| - 1].source == source then log[|log| - 1].time
    else LastHeard(log[..|log| - 1], source)
  }

  predicate Occurs(log: seq<Heard>, source: nat) {
    exists i :: 0 <= i < |log| && log[i].source == source
  }

  lemma {:induction false} LastHeardAppend(a: seq<Heard>, b: seq<Heard>, source: nat)
    ensures LastHeard(a + b, source) == if Occurs(b, source) then LastHeard(b, source) else LastHeard(a, source)
    decreases |b|
  {
    if b == [] {
      assert a + b == a;
    } else {
      var n := |b| - 1;
      assert (a + b)[..|a + b| - 1] == a + b[..n] && (a + b)[|a + b| - 1] == b[n];
      if b[n].source != source {
        LastHeardAppend(a, b[..n], source);
        assert Occurs(b, source) <==> Occurs(b[..n], source) by {
          if i :| 0 <= i < |b| && b[i].source == source { assert b[..n][i].source == source; }
        }
      }
    }
  }

  /** The time of the first message from `source`. */
  function FirstHeard(log: seq<Heard>, source: nat): nat {
    if log == [] then 0 else if log[0].source == source then log[0].time else FirstHeard(log[1..], source)
  }

  lemma {:induction false} FirstHeardAppend(a: seq<Heard>, h: Heard, source: nat)
    ensures FirstHeard(a + [h], source) == if Occurs(a, source) then FirstHeard(a, source) else FirstHeard([h], source)
  {
    if a == [] {
      assert a + [h] == [h];
    } else {
      assert (a + [h])[0] == a[0] && (a + [h])[1..] == a[1..] + [h];
      FirstHeardAppend(a[1..], h, source);
      if i :| 0 <= i < |a| && a[i].source == source {
        if i > 0 { assert a[1..][i - 1].source == source; }
      }
    }
  }

  /** The message map is a summary of the log since the last drain: first and last time of each source. */
  ghost predicate Summarizes(ms: Messages, recent: seq<Heard>) {
    && (forall source :: source in ms ==> ms[source].first == FirstHeard(recent, source))
    && (forall source :: source in ms <==> Occurs(recent, source))
    && (forall source :: source in ms ==> ms[source].last == LastHeard(recent, source))
  }

  lemma RecordSummarizes(ms: Messages, recent: seq<Heard>, source: nat, time: nat)
    requires Summarizes(ms, recent) && source != 0
    ensures Summarizes(Recorded(ms, source, time), recent + [Heard(source, time)])
  {
    var recent' := recent + [Heard(source, time)];
    assert recent'[..|recent|] == recent;
    forall x ensures FirstHeard(recent', x) == if Occurs(recent, x) then FirstHeard(recent, x) else if x == source then time else 0 {
      FirstHeardAppend(recent, Heard(source, time), x);
      assert [Heard(source, time)][1..] == [];
    }
    forall x ensures Occurs(recent', x) <==> x == source || Occurs(recent, x) {
      assert recent'[|recent|].source == source;
      if i :| 0 <= i < |recent| && recent[i].source == x { assert recent'[i].source == x; }
    }
  }

  ghost predicate Timed(t: Tracked, log: MessageLog) {
    && t.since <= log.drained <= |log.heard|
    && t.lastReceived == LastHeard(log.heard[t.since..log.drained], t.entry.pluginId)
  }

  ghost predicate Listening(s: State) {
    && s.log.drained <= |s.log.heard|
    && Summarizes(s.messages, s.log.heard[s.log.drained..])
    && (forall id :: id in s.running ==> Timed(s.running[id], s.log))
  }

  lemma DrainTimes(t: Tracked, ms: Messages, log: MessageLog)
    requires log.drained <= |log.heard| && Timed(t, log) && Summarizes(ms, log.heard[log.drained..])
    ensures Timed(Refreshed(t, ms), MessageLog(log.heard, |log.heard|))
  {
    var before, recent := log.heard[t.since..log.drained], log.heard[log.drained..];
    assert log.heard[t.since..|log.heard|] == before + recent;
    LastHeardAppend(before, recent, t.entry.pluginId);
  }

  lemma DrainListens(s: State)
    requires Listening(s)
    ensures Listening(State(map[], map id | id in s.running :: Refreshed(s.running[id], s.messages), s.procs,
                            MessageLog(s.log.heard, |s.log.heard|), Drained))
  {
    forall id | id in s.running
      ensures Timed(Refreshed(s.running[id], s.messages), MessageLog(s.log.heard, |s.log.heard|))
    {
      DrainTimes(s.running[id], s.messages, s.log);
    }
  }

  lemma RecordListens(s: State, source: nat, time: nat)
    requires Listening(s) && source != 0
    ensures Listening(s.(messages := Recorded(s.messages, source, time),
                         log := s.log.(heard := s.log.heard + [Heard(source, time)])))
  {
    var heard' := s.log.heard + [Heard(source, time)];
    RecordSummarizes(s.messages, s.log.heard[s.log.drained..], source, time);
    assert heard'[s.log.drained..] == s.log.heard[s.log.drained..] + [Heard(source, time)];
    forall id | id in s.running ensures Timed(s.running[id], s.log.(heard := heard')) {
      assert heard'[s.running[id].since..s.log.drained] == s.log.heard[s.running[id].since..s.log.drained];
    }
  }

  lemma ListeningStep(owner: nat -> nat, s: State, step: Step)
    requires Listening(s) && Can(owner, s, step)
    ensures Listening(Apply(owner, s, step))
  {
    match step {
      case Record(source, time) => if source != 0 { RecordListens(s, source, time); }
      case Drain => DrainListens(s);
      case LaunchPlugin(id, outcome) => assert s.log.heard[s.log.drained..s.log.drained] == [];
      case _ =>
    }
  }

  lemma {:induction false} ListeningRun(owner: nat -> nat, s: State, steps: seq<Step>)
    requires Listening(s) && IsRun(owner, s, steps)
    ensures Listening(Exec(owner, s, steps))
    decreases |steps|
  {
    if steps != [] {
      ListeningStep(owner, s, steps[0]);
      ListeningRun(owner, Apply(owner, s, steps[0]), steps[1..]);
    }
  }

  /** Why a process may be told to stop, in terms of the whole log. */
  ghost predicate HasReason(s: State, id: nat)
    requires s.phase.Escalating? && id in s.running && s.running[id].pid in s.procs
    requires s.running[id].since <= s.log.drained <= |s.log.heard|
  {
    var t, p, enabled, lim := s.running[id], s.procs[s.running[id].pid], s.phase.enabled, s.phase.lim;
    var heard := LastHeard(s.log.heard[t.since..s.log.drained], p.entry.pluginId);
    || id !in enabled
    || (heard == 0 && t.startTime + lim.maxStartup <= lim.now)
    || (heard != 0 && p.entry.interval != 0 && enabled[id].interval + heard <= lim.now)
  }

  /**
   In every run a process gets at most one signal per visit, the first is TERM, and TERM is sent
   exactly when no signal was sent before and there is a reason: the plugin is disabled, it was
   never heard within the startup limit, or it was silent for too long, where the silence is
   measured by replaying the message log.
   */
  lemma TermNeedsAReason(owner: nat -> nat, steps: seq<Step>, id: nat)
    requires IsRun(owner, INITIAL, steps) && Can(owner, Exec(owner, INITIAL, steps), Escalate(id))
    ensures var e := Exec(owner, INITIAL, steps);
            var p := e.running[id].pid;
            && p in e.procs && e.running[id].since <= e.log.drained <= |e.log.heard|
            && var before, after := e.procs[p].signals, Apply(owner, e, Escalate(id)).procs[p].signals;
               && |after| <= |before| + 1
               && (before == [] ==> (after == [TERM] <==> HasReason(e, id)) && (after == [] <==> !HasReason(e, id)))
               && (before != [] && |before| < 3 ==> |after| == |before| + 1)
  {
    TendedRun(owner, INITIAL, steps);
    ListeningRun(owner, INITIAL, steps);
  }

  // ---------- one signal per pass ----------

  /** A moment of the escalation that began in `s0`: plugins still to do are as they were then. */
  ghost predicate Amid(s0: State, s: State) {
    s0.phase.Escalating? && s.phase.Escalating? &&
    s.phase.enabled == s0.phase.enabled && s.phase.lim == s0.phase.lim && s.phase.todo <= s0.running.Keys &&
    s.running.Keys == s0.running.Keys &&
    (forall id :: id in s.phase.todo ==> s.running[id] == s0.running[id]) &&
    forall id :: id in s.running && id !in s.phase.todo ==>
      s.running[id] == Escalated(id, s0.running[id], s.phase.enabled, s.phase.lim)
  }

  lemma AmidStep(owner: nat -> nat, s0: State, s: State, step: Step)
    requires Amid(s0, s) && Can(owner, s, step) && !step.BeginLaunching?
    ensures Amid(s0, Apply(owner, s, step))
  {
  }

  ghost predicate WithinEscalation(steps: seq<Step>) {
    forall i :: 0 <= i < |steps| ==> !steps[i].BeginLaunching?
  }

  lemma {:induction false} AmidRun(owner: nat -> nat, s0: State, s: State, steps: seq<Step>)
    requires Amid(s0, s) && Tended(s.running, s.procs) && IsRun(owner, s, steps) && WithinEscalation(steps)
    ensures var e := Exec(owner, s, steps); Amid(s0, e) && Tended(e.running, e.procs)
    decreases |steps|
  {
    if steps != [] {
      AmidStep(owner, s0, s, steps[0]);
      TendedStep(owner, s, steps[0]);
      assert forall i :: 0 <= i < |steps[1..]| ==> steps[1..][i] == steps[i + 1];
      AmidRun(owner, s0, Apply(owner, s, steps[0]), steps[1..]);
    }
  }

  lemma EscalatedOnce(id: nat, t: Tracked, enabled: Enabled, lim: Limits)
    ensures var before, after := Sent(t.kill), Sent(Escalated(id, t, enabled, lim).kill);
            before <= after && |after| <= |before| + 1
  {
  }

  /**
   In every run, from the beginning of a pass's escalation to its end, whatever happens in between,
   each running plugin is escalated exactly once, and its process gets at most one signal.
   */
  lemma OneSignalPerPass(owner: nat -> nat, steps: seq<Step>, now: nat, pass: seq<Step>)
    requires IsRun(owner, INITIAL, steps) && Can(owner, Exec(owner, INITIAL, steps), BeginEscalation(now))
    requires var s := Apply(owner, Exec(owner, INITIAL, steps), BeginEscalation(now));
             IsRun(owner, s, pass) && WithinEscalation(pass) && Can(owner, Exec(owner, s, pass), BeginLaunching)
    ensures var s := Apply(owner, Exec(owner, INITIAL, steps), BeginEscalation(now));
            var e := Exec(owner, s, pass);
            e.running.Keys == s.running.Keys &&
            forall id :: id in s.running ==> SignalledOnce(s, e, id)
  {
    TendedRun(owner, INITIAL, steps);
    var s := Apply(owner, Exec(owner, INITIAL, steps), BeginEscalation(now));
    AmidRun(owner, s, s, pass);
    var e := Exec(owner, s, pass);
    forall id | id in s.running ensures SignalledOnce(s, e, id) {
      assert Matches(id, s.running[id], s.procs) && Matches(id, e.running[id], e.procs);
      EscalatedOnce(id, s.running[id], s.phase.enabled, s.phase.lim);
    }
  }

  ghost predicate SignalledOnce(s: State, e: State, id: nat) {
    s.phase.Escalating? && id in s.running && id in e.running &&
    e.running[id] == Escalated(id, s.running[id], s.phase.enabled, s.phase.lim) &&
    var p := s.running[id].pid;
    p in s.procs && p in e.procs &&
    s.procs[p].signals <= e.procs[p].signals && |e.procs[p].signals| <= |s.procs[p].signals| + 1 &&
    e.procs[p].signals == Sent(e.running[id].kill)
  }

  // ---------- a whole pass ----------

  /** A moment of the reaping that began in `s0`: dead processes are gone from what has been visited. */
  ghost predicate MidReap(s0: State, s: State) {
    s0.phase.Reaping? && s.phase.Reaping? &&
    s.phase.enabled == s0.phase.enabled && s.phase.maxStartup == s0.phase.maxStartup &&
    s.phase.todo <= s.running.Keys <= s0.running.Keys &&
    (forall id :: id in s.running ==> s.running[id] == s0.running[id]) &&
    (forall p :: p in s0.procs ==> p in s.procs && (s0.procs[p].life != Running ==> s.procs[p].life != Running)) &&
    (forall id :: id in s0.running && id !in s.running ==>
       s0.running[id].pid in s.procs && s.procs[s0.running[id].pid].life == Reaped) &&
    forall id :: id in s.running && id !in s.phase.todo ==>
      s.running[id].pid in s0.procs && s0.procs[s.running[id].pid].life == Running
  }

  lemma MidReapAlive(s0: State, s: State, id: nat)
    requires MidReap(s0, s) && id in s.phase.todo && Matches(id, s0.running[id], s0.procs)
    requires s.running[id].pid in s.procs && s.procs[s.running[id].pid].life == Running
    ensures MidReap(s0, s.(phase := Reaping(s.phase.todo - {id}, s.phase.enabled, s.phase.maxStartup)))
  {
  }

  lemma MidReapDead(s0: State, s: State, id: nat, pid: nat)
    requires MidReap(s0, s) && id in s.phase.todo && s.running[id].pid == pid && pid in s.procs
    ensures MidReap(s0, s.(phase := Reaping(s.phase.todo - {id}, s.phase.enabled, s.phase.maxStartup),
                           procs := s.procs[pid := s.procs[pid].(life := Reaped)], running := s.running - {id}))
  {
  }

  lemma MidReapVisit(s0: State, s: State, id: nat)
    requires MidReap(s0, s) && Tended(s0.running, s0.procs) && Tended(s.running, s.procs) && id in s.phase.todo
    ensures MidReap(s0, AfterReap(s, id))
  {
    var pid := s.running[id].pid;
    assert Matches(id, s.running[id], s.procs) && Matches(id, s0.running[id], s0.procs);
    if s.procs[pid].life == Running { MidReapAlive(s0, s, id); } else { MidReapDead(s0, s, id, pid); }
  }

  lemma MidReapDeath(s0: State, s: State, pid: nat)
    requires MidReap(s0, s) && pid in s.procs && s.procs[pid].life == Running
    ensures MidReap(s0, s.(procs := s.procs[pid := s.procs[pid].(life := Zombie)]))
  {
  }

  lemma MidReapStep(owner: nat -> nat, s0: State, s: State, step: Step)
    requires MidReap(s0, s) && Tended(s0.running, s0.procs) && Tended(s.running, s.procs)
    requires Can(owner, s, step) && !step.BeginEscalation?
    ensures MidReap(s0, Apply(owner, s, step))
  {
    match step {
      case Reap(id) => MidReapVisit(s0, s, id);
      case Die(pid) => MidReapDeath(s0, s, pid);
      case _ =>
    }
  }

  ghost predicate WithinReaping(steps: seq<Step>) {
    forall i :: 0 <= i < |steps| ==> !steps[i].BeginEscalation?
  }

  lemma {:induction false} MidReapRun(owner: nat -> nat, s0: State, s: State, steps: seq<Step>)
    requires MidReap(s0, s) && Tended(s0.running, s0.procs) && Tended(s.running, s.procs)
    requires IsRun(owner, s, steps) && WithinReaping(steps)
    ensures var e := Exec(owner, s, steps); MidReap(s0, e) && Tended(e.running, e.procs)
    decreases |steps|
  {
    if steps != [] {
      MidReapStep(owner, s0, s, steps[0]);
      TendedStep(owner, s, steps[0]);
      assert forall i :: 0 <= i < |steps[1..]| ==> steps[1..][i] == steps[i + 1];
      MidReapRun(owner, s0, Apply(owner, s, steps[0]), steps[1..]);
    }
  }

  /** What the launch of a plugin that was not running must have led to. */
  ghost predicate Launched(s: State, e: State, id: nat, o: Launch) {
    s.phase.Launching? && id in s.phase.enabled &&
    if !o.Started? then id !in e.running
    else
      id in e.running && e.running[id].entry == s.phase.enabled[id] && e.running[id].pid == o.pid &&
      e.running[id].startTime == o.time && e.running[id].lastReceived == 0 && e.running[id].kill == Alive &&
      o.pid !in s.procs && o.pid in e.procs && e.procs[o.pid].plugin == id && e.procs[o.pid].signals == []
  }

  ghost predicate WasLaunched(s: State, e: State, id: nat, steps: seq<Step>) {
    exists o :: LaunchPlugin(id, o) in steps && Launched(s, e, id, o)
  }

  ghost predicate WithinLaunching(steps: seq<Step>) {
    forall i :: 0 <= i < |steps| ==> !steps[i].EndPass?
  }

  /** What a stretch of the launching does: running plugins stay, and those it has come to were launched. */
  ghost predicate Launches(s: State, e: State, steps: seq<Step>) {
    s.phase.Launching? && e.phase.Launching? && e.phase.enabled == s.phase.enabled && e.phase.todo <= s.phase.todo &&
    (forall id :: id in s.running ==> id in e.running && e.running[id] == s.running[id]) &&
    (forall p :: p in s.procs ==> p in e.procs && e.procs[p].plugin == s.procs[p].plugin && e.procs[p].signals == s.procs[p].signals) &&
    (forall id :: id !in s.running && (id !in s.phase.todo || id in e.phase.todo) ==> id !in e.running) &&
    forall id :: id in s.phase.todo && id !in e.phase.todo && id !in s.running ==> WasLaunched(s, e, id, steps)
  }

  lemma LaunchesStep(owner: nat -> nat, s: State, step: Step)
    requires s.phase.Launching? && s.phase.todo <= s.phase.enabled.Keys && Can(owner, s, step) && !step.EndPass?
    ensures Launches(s, Apply(owner, s, step), [step])
    ensures Apply(owner, s, step).phase.todo <= s.phase.enabled.Keys
  {
    var s' := Apply(owner, s, step);
    if step.LaunchPlugin? && step.id !in s.running {
      assert Launched(s, s', step.id, step.outcome);
      assert LaunchPlugin(step.id, step.outcome) in [step];
      assert WasLaunched(s, s', step.id, [step]);
    }
  }

  lemma LaunchedEarlier(s: State, mid: State, e: State, id: nat, first: seq<Step>, second: seq<Step>)
    requires Launches(s, mid, first) && Launches(mid, e, second) && WasLaunched(s, mid, id, first) && id !in mid.phase.todo
    ensures WasLaunched(s, e, id, first + second)
  {
    var o :| LaunchPlugin(id, o) in first && Launched(s, mid, id, o);
    assert Launched(s, e, id, o);
    assert LaunchPlugin(id, o) in first + second;
  }

  lemma LaunchedLater(s: State, mid: State, e: State, id: nat, first: seq<Step>, second: seq<Step>)
    requires Launches(s, mid, first) && Launches(mid, e, second) && WasLaunched(mid, e, id, second)
    ensures WasLaunched(s, e, id, first + second)
  {
    var o :| LaunchPlugin(id, o) in second && Launched(mid, e, id, o);
    assert Launched(s, e, id, o);
    assert LaunchPlugin(id, o) in first + second;
  }

  lemma LaunchesOn(s: State, mid: State, e: State, first: seq<Step>, second: seq<Step>)
    requires Launches(s, mid, first) && Launches(mid, e, second)
    ensures Launches(s, e, first + second)
  {
    forall id | id in s.phase.todo && id !in e.phase.todo && id !in s.running ensures WasLaunched(s, e, id, first + second) {
      if id in mid.phase.todo {
        LaunchedLater(s, mid, e, id, first, second);
      } else {
        LaunchedEarlier(s, mid, e, id, first, second);
      }
    }
  }

  lemma {:induction false} LaunchesRun(owner: nat -> nat, s: State, steps: seq<Step>)
    requires s.phase.Launching? && s.phase.todo <= s.phase.enabled.Keys && IsRun(owner, s, steps) && WithinLaunching(steps)
    ensures Launches(s, Exec(owner, s, steps), steps)
    decreases |steps|
  {
    if steps != [] {
      var s' := Apply(owner, s, steps[0]);
      LaunchesStep(owner, s, steps[0]);
      assert forall i :: 0 <= i < |steps[1..]| ==> steps[1..][i] == steps[i + 1];
      LaunchesRun(owner, s', steps[1..]);
      LaunchesOn(s, s', Exec(owner, s', steps[1..]), [steps[0]], steps[1..]);
      assert [steps[0]] + steps[1..] == steps;
    }
  }

  lemma {:induction false} RunParts(owner: nat -> nat, s: State, a: seq<Step>, b: seq<Step>)
    requires IsRun(owner, s, a + b)
    ensures IsRun(owner, s, a) && IsRun(owner, Exec(owner, s, a), b)
    ensures Exec(owner, s, a + b) == Exec(owner, Exec(owner, s, a), b)
    decreases |a|
  {
    if a == [] {
      assert a + b == b;
    } else {
      assert (a + b)[0] == a[0] && (a + b)[1..] == a[1..] + b;
      RunParts(owner, Apply(owner, s, a[0]), a[1..], b);
    }
  }

  lemma RunOne(owner: nat -> nat, s: State, step: Step)
    requires IsRun(owner, s, [step])
    ensures Can(owner, s, step) && Exec(owner, s, [step]) == Apply(owner, s, step)
  {
    assert [step][1..] == [];
  }

  /** Processes are never forgotten, and a reaped one stays so. */
  lemma {:induction false} ReapedStays(owner: nat -> nat, s: State, steps: seq<Step>, p: nat)
    requires IsRun(owner, s, steps) && p in s.procs
    ensures var e := Exec(owner, s, steps); p in e.procs && (s.procs[p].life == Reaped ==> e.procs[p].life == Reaped)
    decreases |steps|
  {
    if steps != [] {
      ReapedStaysStep(owner, s, steps[0], p);
      ReapedStays(owner, Apply(owner, s, steps[0]), steps[1..], p);
    }
  }

  lemma ReapedStaysStep(owner: nat -> nat, s: State, step: Step, p: nat)
    requires Can(owner, s, step) && p in s.procs
    ensures var s' := Apply(owner, s, step); p in s'.procs && (s.procs[p].life == Reaped ==> s'.procs[p].life == Reaped)
  {
  }

  /** The first part of a pass: the database is read, the dead are reaped, and the clock is read. */
  function Opening(enabled: Enabled, maxStartup: nat, reap: seq<Step>, now: nat): seq<Step> {
    [ReadDatabase(enabled, maxStartup)] + (reap + [BeginEscalation(now)])
  }

  /** The escalation goes by what this pass has read, and visits all that run. */
  lemma OpeningReads(owner: nat -> nat, s: State, enabled: Enabled, maxStartup: nat, reap: seq<Step>, now: nat)
    requires Tended(s.running, s.procs) && WithinReaping(reap) && IsRun(owner, s, Opening(enabled, maxStartup, reap, now))
    ensures var e := Exec(owner, s, Opening(enabled, maxStartup, reap, now));
            && e.phase == Escalating(e.running.Keys, enabled, Limits(maxStartup, now))
            && Tended(e.running, e.procs) && e.running.Keys <= s.running.Keys
            && (forall id :: id in e.running ==> e.running[id] == s.running[id])
            && (forall id :: id in s.running && !(s.procs[s.running[id].pid].life == Running) ==> id !in e.running)
            && (forall id :: id in s.running && id !in e.running ==>
                  s.running[id].pid in e.procs && e.procs[s.running[id].pid].life == Reaped)
  {
    RunParts(owner, s, [ReadDatabase(enabled, maxStartup)], reap + [BeginEscalation(now)]);
    RunOne(owner, s, ReadDatabase(enabled, maxStartup));
    var s1 := Apply(owner, s, ReadDatabase(enabled, maxStartup));
    RunParts(owner, s1, reap, [BeginEscalation(now)]);
    MidReapRun(owner, s1, s1, reap);
    RunOne(owner, Exec(owner, s1, reap), BeginEscalation(now));
  }

  /** What an enabled plugin that did not run has come to by the end of the pass that began in `s`. */
  ghost predicate Restarted(s: State, e: State, enabled: Enabled, id: nat, launch: seq<Step>) {
    id in enabled &&
    exists o :: LaunchPlugin(id, o) in launch &&
      (!o.Started? ==> id !in e.running) &&
      (o.Started? ==>
        id in e.running && e.running[id].entry == enabled[id] && e.running[id].pid == o.pid &&
        e.running[id].startTime == o.time && e.running[id].lastReceived == 0 && e.running[id].kill == Alive &&
        o.pid !in s.procs && o.pid in e.procs && e.procs[o.pid].plugin == id && e.procs[o.pid].signals == [])
  }

  lemma LaunchedIsRestarted(s: State, mid: State, e: State, enabled: Enabled, id: nat, launch: seq<Step>)
    requires WasLaunched(mid, e, id, launch) && mid.phase.Launching? && mid.phase.enabled == enabled && s.procs.Keys <= mid.procs.Keys
    ensures Restarted(s, e, enabled, id, launch)
  {
    var o :| LaunchPlugin(id, o) in launch && Launched(mid, e, id, o);
  }

  /** The second part: escalation and launching. */
  function Closing(escalate: seq<Step>, launch: seq<Step>): seq<Step> {
    escalate + ([BeginLaunching] + launch)
  }

  lemma ClosingLaunches(owner: nat -> nat, s: State, escalate: seq<Step>, launch: seq<Step>) returns (mid: State)
    requires s.phase.Escalating? && s.phase.todo == s.running.Keys && Tended(s.running, s.procs)
    requires WithinEscalation(escalate) && WithinLaunching(launch) && IsRun(owner, s, Closing(escalate, launch))
    ensures var e := Exec(owner, s, Closing(escalate, launch));
            && Launches(mid, e, launch) && mid.phase == Launching(s.phase.enabled.Keys, s.phase.enabled)
            && mid.running.Keys == s.running.Keys
            && (forall id :: id in s.running ==> mid.running[id] == Escalated(id, s.running[id], s.phase.enabled, s.phase.lim))
            && (forall p :: p in s.procs ==> p in mid.procs && (s.procs[p].life == Reaped ==> mid.procs[p].life == Reaped))
  {
    RunParts(owner, s, escalate, [BeginLaunching] + launch);
    var a := Exec(owner, s, escalate);
    AmidRun(owner, s, s, escalate);
    RunParts(owner, a, [BeginLaunching], launch);
    RunOne(owner, a, BeginLaunching);
    mid := Apply(owner, a, BeginLaunching);
    LaunchesRun(owner, mid, launch);
    forall p | p in s.procs ensures p in mid.procs && (s.procs[p].life == Reaped ==> mid.procs[p].life == Reaped) {
      ReapedStays(owner, s, escalate, p);
    }
  }

  /**
   In every run, over a whole pass, whatever happens in between: a plugin whose process had died
   before the pass read the database, or that had none, and that is enabled, was launched in this
   pass, and unless that was refused it runs in the process then started, since the moment it was
   started; the dead process is reaped. A plugin that is still running was escalated once and stays.
   */
  lemma PassRestartsTheDead(owner: nat -> nat, before: seq<Step>, enabled: Enabled, maxStartup: nat, reap: seq<Step>,
                            now: nat, escalate: seq<Step>, launch: seq<Step>, id: nat)
    requires IsRun(owner, INITIAL, before) && WithinReaping(reap) && WithinEscalation(escalate) && WithinLaunching(launch)
    requires var pass := Opening(enabled, maxStartup, reap, now) + Closing(escalate, launch);
             IsRun(owner, Exec(owner, INITIAL, before), pass)
             && Can(owner, Exec(owner, Exec(owner, INITIAL, before), pass), EndPass)
    ensures var s := Exec(owner, INITIAL, before);
            var e := Exec(owner, s, Opening(enabled, maxStartup, reap, now) + Closing(escalate, launch));
            && (id in s.running ==> s.running[id].pid in s.procs && s.running[id].pid in e.procs)
            && (id in s.running && s.procs[s.running[id].pid].life != Running ==> e.procs[s.running[id].pid].life == Reaped)
            && (id in enabled && (id in s.running ==> s.procs[s.running[id].pid].life != Running) ==>
                  Restarted(s, e, enabled, id, launch))
            && (id in enabled && id in s.running && e.procs[s.running[id].pid].life != Reaped ==>
                  id in e.running && e.running[id] == Escalated(id, s.running[id], enabled, Limits(maxStartup, now)))
  {
    TendedRun(owner, INITIAL, before);
    var s := Exec(owner, INITIAL, before);
    var opening, closing := Opening(enabled, maxStartup, reap, now), Closing(escalate, launch);
    RunParts(owner, s, opening, closing);
    OpeningReads(owner, s, enabled, maxStartup, reap, now);
    var a := Exec(owner, s, opening);
    var mid := ClosingLaunches(owner, a, escalate, launch);
    var e := Exec(owner, a, closing);
    if id in s.running {
      assert Matches(id, s.running[id], s.procs);
      var p := s.running[id].pid;
      ReapedStays(owner, s, opening, p);
      ReapedStays(owner, a, closing, p);
    }
    if id in enabled && id !in a.running {
      ProcsKeep(owner, s, opening);
      LaunchedIsRestarted(s, mid, e, enabled, id, launch);
    }
  }

  lemma ProcsKeep(owner: nat -> nat, s: State, steps: seq<Step>)
    requires IsRun(owner, s, steps)
    ensures s.procs.Keys <= Exec(owner, s, steps).procs.Keys
  {
    forall p | p in s.procs ensures p in Exec(owner, s, steps).procs {
      ReapedStays(owner, s, steps, p);
    }
  }

  // ---------- the supervisor's own maps stay within its rules ----------

  /** The loop of a pass never meets a plugin it does not track, and plugin ids stay distinct. */
  ghost predicate Tidy(owner: nat -> nat, s: State) {
    && (forall id :: id in s.running ==> s.running[id].entry.pluginId == owner(id))
    && ((s.phase.Reaping? || s.phase.Escalating?) ==> s.phase.todo <= s.running.Keys)
    && (s.phase.Launching? ==> s.phase.todo <= s.phase.enabled.Keys)
    && ((s.phase.Reaping? || s.phase.Escalating? || s.phase.Launching?) ==>
          forall id :: id in s.phase.enabled ==> s.phase.enabled[id].pluginId == owner(id))
  }

  lemma TidyStep(owner: nat -> nat, s: State, step: Step)
    requires Tidy(owner, s) && Can(owner, s, step)
    ensures Tidy(owner, Apply(owner, s, step))
  {
  }

  lemma {:induction false} TidyRun(owner: nat -> nat, s: State, steps: seq<Step>)
    requires Tidy(owner, s) && IsRun(owner, s, steps)
    ensures Tidy(owner, Exec(owner, s, steps))
    decreases |steps|
  {
    if steps != [] {
      TidyStep(owner, s, steps[0]);
      TidyRun(owner, Apply(owner, s, steps[0]), steps[1..]);
    }
  }

  /** A pass never gets stuck on an entry, and the drain always finds the one plugin a message is from. */
  lemma PassesGoOn(owner: nat -> nat, steps: seq<Step>)
    requires Injective(owner) && IsRun(owner, INITIAL, steps)
    ensures var e := Exec(owner, INITIAL, steps);
            && DistinctPlugins(e.running)
            && (e.phase.Reaping? ==> forall id :: id in e.phase.todo ==> Can(owner, e, Reap(id)))
            && (e.phase.Escalating? ==> forall id :: id in e.phase.todo ==> Can(owner, e, Escalate(id)))
  {
    TidyRun(owner, INITIAL, steps);
    TendedRun(owner, INITIAL, steps);
  }

  // ---------- a pass can always be completed ----------

  lemma {:induction false} RunAppend(owner: nat -> nat, s: State, a: seq<Step>, b: seq<Step>)
    requires IsRun(owner, s, a) && IsRun(owner, Exec(owner, s, a), b)
    ensures IsRun(owner, s, a + b) && Exec(owner, s, a + b) == Exec(owner, Exec(owner, s, a), b)
    decreases |a|
  {
    if a == [] {
      assert a + b == b;
    } else {
      assert (a + b)[0] == a[0] && (a + b)[1..] == a[1..] + b;
      RunAppend(owner, Apply(owner, s, a[0]), a[1..], b);
    }
  }

  lemma OneStepRun(owner: nat -> nat, s: State, step: Step)
    requires Can(owner, s, step)
    ensures IsRun(owner, s, [step]) && Exec(owner, s, [step]) == Apply(owner, s, step)
  {
    assert [step][1..] == [];
    assert IsRun(owner, Apply(owner, s, step), []);
  }

  /** Tidy and tended, which every reachable state is. */
  ghost predicate Sound(owner: nat -> nat, s: State) {
    Tidy(owner, s) && Tended(s.running, s.procs)
  }

  lemma SoundStep(owner: nat -> nat, s: State, step: Step)
    requires Sound(owner, s) && Can(owner, s, step)
    ensures Sound(owner, Apply(owner, s, step))
  {
    TidyStep(owner, s, step);
    TendedStep(owner, s, step);
  }

  /** The next visit of the loop the pass is in. */
  ghost function Visit(s: State, id: nat): Step
    requires s.phase.Reaping? || s.phase.Escalating? || s.phase.Launching?
    requires s.phase.Launching? ==> id in s.phase.enabled
  {
    if s.phase.Reaping? then Reap(id)
    else if s.phase.Escalating? then Escalate(id)
    else LaunchPlugin(id, if PathCheck.Accepts(s.phase.enabled[id].exe) then ExecFails else BadPath)
  }

  lemma CanVisit(owner: nat -> nat, s: State, id: nat)
    requires Sound(owner, s) && (s.phase.Reaping? || s.phase.Escalating? || s.phase.Launching?) && id in s.phase.todo
    ensures Can(owner, s, Visit(s, id))
  {
    if id in s.running { assert Matches(id, s.running[id], s.procs); }
  }

  ghost predicate SamePhase(p: Phase, q: Phase) {
    (p.Reaping? && q.Reaping? && q.enabled == p.enabled && q.maxStartup == p.maxStartup) ||
    (p.Escalating? && q.Escalating? && q.enabled == p.enabled && q.lim == p.lim) ||
    (p.Launching? && q.Launching? && q.enabled == p.enabled)
  }

  lemma VisitKeepsPhase(owner: nat -> nat, s: State, id: nat)
    requires Sound(owner, s) && (s.phase.Reaping? || s.phase.Escalating? || s.phase.Launching?) && id in s.phase.todo
    requires Can(owner, s, Visit(s, id))
    ensures var s' := Apply(owner, s, Visit(s, id)); SamePhase(s.phase, s'.phase) && s'.phase.todo == s.phase.todo - {id}
  {
  }

  lemma {:induction false} FinishesLoop(owner: nat -> nat, s: State) returns (steps: seq<Step>)
    requires Sound(owner, s) && (s.phase.Reaping? || s.phase.Escalating? || s.phase.Launching?)
    ensures IsRun(owner, s, steps)
    ensures var e := Exec(owner, s, steps); Sound(owner, e) && SamePhase(s.phase, e.phase) && e.phase.todo == {}
    decreases s.phase.todo
  {
    if s.phase.todo == {} {
      steps := [];
    } else {
      var id :| id in s.phase.todo;
      CanVisit(owner, s, id);
      var step := Visit(s, id);
      var s' := Apply(owner, s, step);
      SoundStep(owner, s, step);
      VisitKeepsPhase(owner, s, id);
      var rest := FinishesLoop(owner, s');
      OneStepRun(owner, s, step);
      RunAppend(owner, s, [step], rest);
      steps := [step] + rest;
    }
  }

  lemma FinishesAndThen(owner: nat -> nat, s: State, next: Step) returns (steps: seq<Step>)
    requires Sound(owner, s)
    requires (s.phase.Reaping? && next.BeginEscalation?) || (s.phase.Escalating? && next.BeginLaunching?) ||
             (s.phase.Launching? && next.EndPass?)
    ensures IsRun(owner, s, steps)
    ensures var e := Exec(owner, s, steps);
            Sound(owner, e) &&
            if next.EndPass? then e.phase.Sleeping?
            else if next.BeginLaunching? then e.phase.Launching?
            else e.phase.Escalating?
  {
    steps := FinishesLoop(owner, s);
    var e := Exec(owner, s, steps);
    OneStepRun(owner, e, next);
    SoundStep(owner, e, next);
    RunAppend(owner, s, steps, [next]);
    steps := steps + [next];
  }

  lemma PassFrom(owner: nat -> nat, read: State, now: nat) returns (pass: seq<Step>)
    requires Sound(owner, read) && read.phase.Reaping?
    ensures IsRun(owner, read, pass) && Exec(owner, read, pass).phase.Sleeping?
  {
    var a := FinishesAndThen(owner, read, BeginEscalation(now));
    var escalating := Exec(owner, read, a);
    var b := FinishesAndThen(owner, escalating, BeginLaunching);
    RunAppend(owner, read, a, b);
    var c := FinishesAndThen(owner, Exec(owner, escalating, b), EndPass);
    RunAppend(owner, read, a + b, c);
    pass := a + b + c;
  }

  /**
   From every reachable state between passes, whatever the database shows, there is a pass that
   drains, reaps, escalates and launches and comes back to sleep.
   */
  lemma PassesComplete(owner: nat -> nat, before: seq<Step>, enabled: Enabled, maxStartup: nat, now: nat)
    returns (pass: seq<Step>)
    requires IsRun(owner, INITIAL, before) && Exec(owner, INITIAL, before).phase.Sleeping?
    requires forall id :: id in enabled ==> enabled[id].pluginId == owner(id)
    ensures var s, first := Exec(owner, INITIAL, before), [Drain, ReadDatabase(enabled, maxStartup)];
            IsRun(owner, s, first + pass) && Exec(owner, s, first + pass).phase.Sleeping?
  {
    TidyRun(owner, INITIAL, before);
    TendedRun(owner, INITIAL, before);
    var s := Exec(owner, INITIAL, before);
    SoundStep(owner, s, Drain);
    var drained := Apply(owner, s, Drain);
    SoundStep(owner, drained, ReadDatabase(enabled, maxStartup));
    TwoStepRun(owner, s, Drain, ReadDatabase(enabled, maxStartup));
    pass := PassFrom(owner, Apply(owner, drained, ReadDatabase(enabled, maxStartup)), now);
    RunAppend(owner, s, [Drain, ReadDatabase(enabled, maxStartup)], pass);
  }

  /** A pass that the database's failure cuts short also comes back to sleep, with no process touched. */
  lemma SkippedPass(owner: nat -> nat, s: State)
    requires s.phase.Sleeping?
    ensures IsRun(owner, s, [Drain, DatabaseFails])
    ensures var e := Exec(owner, s, [Drain, DatabaseFails]);
            e.phase.Sleeping? && e.procs == s.procs && e.messages == map[] && e.running.Keys == s.running.Keys &&
            forall id :: id in s.running ==> e.running[id].pid == s.running[id].pid && e.running[id].kill == s.running[id].kill
  {
    TwoStepRun(owner, s, Drain, DatabaseFails);
  }

  lemma TwoStepRun(owner: nat -> nat, s: State, a: Step, b: Step)
    requires Can(owner, s, a) && Can(owner, Apply(owner, s, a), b)
    ensures IsRun(owner, s, [a, b]) && Exec(owner, s, [a, b]) == Apply(owner, Apply(owner, s, a), b)
  {
    OneStepRun(owner, Apply(owner, s, a), b);
    assert [a, b][0] == a && [a, b][1..] == [b];
  }

  // ---------- what the surroundings did ----------

  /** The messages recorded in a run, in order. */
  ghost function RecordsOf(steps: seq<Step>): seq<Heard>
    decreases |steps|
  {
    if steps == [] then []
    else (if steps[0].Record? && steps[0].source != 0 then [Heard(steps[0].source, steps[0].time)] else []) + RecordsOf(steps[1..])
  }

  lemma RecordStep(owner: nat -> nat, s: State, step: Step)
    requires Can(owner, s, step)
    ensures Apply(owner, s, step).log.heard ==
            s.log.heard + if step.Record? && step.source != 0 then [Heard(step.source, step.time)] else []
  {
    assert s.log.heard + [] == s.log.heard;
  }

  lemma {:induction false} LogIsWhatWasRecorded(owner: nat -> nat, s: State, steps: seq<Step>)
    requires IsRun(owner, s, steps)
    ensures Exec(owner, s, steps).log.heard == s.log.heard + RecordsOf(steps)
    decreases |steps|
  {
    if steps == [] {
      assert s.log.heard + [] == s.log.heard;
    } else {
      var s', now := Apply(owner, s, steps[0]),
                     if steps[0].Record? && steps[0].source != 0 then [Heard(steps[0].source, steps[0].time)] else [];
      RecordStep(owner, s, steps[0]);
      LogIsWhatWasRecorded(owner, s', steps[1..]);
      assert (s.log.heard + now) + RecordsOf(steps[1..]) == s.log.heard + (now + RecordsOf(steps[1..]));
    }
  }

  lemma LifeStep(owner: nat -> nat, s: State, step: Step, p: nat)
    requires Can(owner, s, step) && p in s.procs
    ensures var s' := Apply(owner, s, step);
            p in s'.procs && (s'.procs[p].life == Running <==> s.procs[p].life == Running && step != Die(p))
  {
  }

  /** A process runs exactly as long as it has not died. */
  lemma {:induction false} RunsUntilItDies(owner: nat -> nat, s: State, steps: seq<Step>, p: nat)
    requires IsRun(owner, s, steps) && p in s.procs && s.procs[p].life == Running
    ensures var e := Exec(owner, s, steps); p in e.procs && (e.procs[p].life == Running <==> Die(p) !in steps)
    decreases |steps|
  {
    if steps != [] {
      LifeStep(owner, s, steps[0], p);
      assert Die(p) in steps <==> steps[0] == Die(p) || Die(p) in steps[1..];
      var s' := Apply(owner, s, steps[0]);
      if s'.procs[p].life == Running { RunsUntilItDies(owner, s', steps[1..], p); } else { StaysDead(owner, s', steps[1..], p); }
    }
  }

  lemma {:induction false} StaysDead(owner: nat -> nat, s: State, steps: seq<Step>, p: nat)
    requires IsRun(owner, s, steps) && p in s.procs && s.procs[p].life != Running
    ensures var e := Exec(owner, s, steps); p in e.procs && e.procs[p].life != Running
    decreases |steps|
  {
    if steps != [] {
      LifeStep(owner, s, steps[0], p);
      StaysDead(owner, Apply(owner, s, steps[0]), steps[1..], p);
    }
  }

  ghost predicate AllAccepted(procs: map<nat, Process>) {
    forall p :: p in procs ==> PathCheck.Accepts(procs[p].entry.exe)
  }

  lemma AcceptedStep(owner: nat -> nat, s: State, step: Step)
    requires AllAccepted(s.procs) && Can(owner, s, step)
    ensures AllAccepted(Apply(owner, s, step).procs)
  {
  }

  /** In every run only executables that pass the path check are ever started. */
  lemma {:induction false} OnlyAcceptedPathsRun(owner: nat -> nat, s: State, steps: seq<Step>)
    requires AllAccepted(s.procs) && IsRun(owner, s, steps)
    ensures AllAccepted(Exec(owner, s, steps).procs)
    decreases |steps|
  {
    if steps != [] {
      AcceptedStep(owner, s, steps[0]);
      OnlyAcceptedPathsRun(owner, Apply(owner, s, steps[0]), steps[1..]);
    }
  }
}
