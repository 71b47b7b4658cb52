/**
 Runs of the client/core protocol: connect, register, configuration reply, resubscribe, and then
 subscriptions, polls and routed messages in any order, with disconnects and failing sends.
 */
module ProtocolRuns {
  import opened Wrappers
  import opened Queues
  import opened ClientCoreProtocol

  datatype PluginState = Disconnected | Connected | Registered | Failed

  /** `Slow` stands for the status and event log messages, which take the other queue. */
  datatype ClientMsg = RegisterMsg | SubscribeMsg(filter: Filter) | OtherMsg | Slow

  datatype CoreMsg = ConfigMsg(items: seq<Pair>) | ErrorMsg(fatal: bool, number: nat) | Routed

  /** The client library's plugin object. */
  datatype Client = Client(state: PluginState, filter: Filter, config: Config, registerSent: bool)

  /** Client to core: the socket and the core's fast queue, and what was lost when that was full. */
  datatype Uplink = Uplink(socket: seq<ClientMsg>, queue: seq<ClientMsg>, dropped: nat, lastSubscribeDropped: bool)

  /** The core's connection object; `rejected` and `replied` record how its registration went. */
  datatype Core = Core(registered: bool, cache: Cache, router: Option<seq<RouterEntry>>, rejected: bool, replied: bool)

  datatype State = State(client: Client, up: Uplink, down: seq<CoreMsg>, core: Core, connections: nat)

  const NEW_UPLINK := Uplink([], [], 0, false)
  const NEW_CORE := Core(false, map[], None, false, false)

  function Start(config: Config): State {
    State(Client(Disconnected, None, config, false), NEW_UPLINK, [], NEW_CORE, 0)
  }

  datatype Outcome =
    | Accepted(own: Cache, global: Cache, read: Cache, items: seq<Pair>)
    | AcceptedWithoutReply(read: Cache)  // registered, but a later statement of registerPlugin threw
    | Rejected                           // duplicate name or database failure
    | Ignored                            // the manifest could not be read

  /** `sent` says whether the socket takes what the step wants to send. */
  datatype Step =
    | Connect
    | SendRegister(sent: bool)
    | AppSubscribe(f: Filter, sent: bool)
    | AppSend(m: ClientMsg, sent: bool)
    | Disconnect
    | ClientReceive(sent: bool)
    | CoreReceive
    | CoreRegister(outcome: Outcome)
    | CoreProcess
    | CorePoll(db: Cache, after: Cache, notes: seq<Pair>)
    | CoreSend(cm: CoreMsg)

  predicate Online(c: Client) {
    c.state == Connected || c.state == Registered
  }

  function Manifest(c: Config): map<string, string> {
    map k | k in c :: c[k].defaultValue
  }

  ghost predicate Enabled(s: State, step: Step) {
    match step
    case Connect => s.client.state == Disconnected
    case SendRegister(_) => s.client.state == Connected && !s.client.registerSent
    case AppSubscribe(_, _) => true
    case AppSend(m, _) => m.OtherMsg? || m.Slow?
    case Disconnect => Online(s.client)
    case ClientReceive(_) => s.down != []
    case CoreReceive => s.up.socket != []
    case CoreRegister(o) =>
      && s.up.queue != [] && s.up.queue[0].RegisterMsg?
      && (o.Accepted? ==> !s.core.registered && IsReply(o.items, o.read)
                          && IsRead(o.read, Initialized(o.own, Manifest(s.client.config)), o.global))
      && (o.AcceptedWithoutReply? ==> !s.core.registered)
    case CoreProcess => s.up.queue != [] && !s.up.queue[0].RegisterMsg?
    case CorePoll(db, after, notes) => s.core.registered && IsPoll(s.core.cache, db, after, notes)
    // routed messages, among them another plugin's errors, and the error that answers an unreadable message
    case CoreSend(cm) => cm.Routed? || (cm.ErrorMsg? && (!cm.fatal || s.core.router.Some?))
  }

  /** ivp_broadcastMessage: nothing is sent unless connected; a failing send disconnects. */
  function ClientAfterSend(c: Client, sent: bool): Client {
    if Online(c) && !sent then c.(state := Disconnected) else c
  }

  function UplinkAfterSend(c: Client, u: Uplink, m: ClientMsg, sent: bool): Uplink {
    if Online(c) && sent then
      u.(socket := u.socket + [m],
         lastSubscribeDropped := if m.SubscribeMsg? then false else u.lastSubscribeDropped)
    else u
  }

  function Broadcast(s: State, c: Client, m: ClientMsg, sent: bool): State {
    s.(client := ClientAfterSend(c, sent), up := UplinkAfterSend(c, s.up, m, sent))
  }

  predicate HasSubscribe(q: seq<ClientMsg>) {
    exists i :: 0 <= i < |q| && q[i].SubscribeMsg?
  }

  /** The receiver thread moves one message; a full queue loses its oldest. */
  function Queued(u: Uplink): Uplink
    requires u.socket != []
  {
    var m, rest := u.socket[0], u.socket[1..];
    if m.Slow? then u.(socket := rest)
    else
      var kept, lost := Pushed(u.queue, m), FreedByPush(u.queue);
      Uplink(rest, kept, u.dropped + |lost|,
             u.lastSubscribeDropped || (HasSubscribe(lost) && !HasSubscribe(kept + rest)))
  }

  function CoreAfterRegister(c: Core, o: Outcome): Core {
    match o
    case Accepted(_, _, read, _) => c.(registered := true, cache := read, replied := true)
    case AcceptedWithoutReply(read) => c.(registered := true, cache := read)
    case Rejected => c.(rejected := true)
    case Ignored => c
  }

  /** The catch clauses report the failure with the error number left at none. */
  function AnswerToRegister(o: Outcome): seq<CoreMsg> {
    match o
    case Accepted(_, _, _, items) => [ConfigMsg(items)]
    case AcceptedWithoutReply(_) => [ErrorMsg(true, 0)]
    case Rejected => [ErrorMsg(true, 0)]
    case Ignored => []
  }

  function CoreAfter(c: Core, m: ClientMsg): Core {
    if c.registered && m.SubscribeMsg? then c.(router := Some(RouterEntries(m.filter))) else c
  }

  function Notifications(notes: seq<Pair>): seq<CoreMsg> {
    seq(|notes|, i requires 0 <= i < |notes| => ConfigMsg([notes[i]]))
  }

  /** ivp_onMessageReceived; an error whose number is zero is ignored whatever its level. */
  function ClientAfter(c: Client, m: CoreMsg): Client {
    match m
    case ErrorMsg(fatal, number) => if number != 0 && fatal then c.(state := Failed) else c
    case ConfigMsg(items) =>
      c.(config := UpdatedAll(c.config, items), state := if c.state == Connected then Registered else c.state)
    case Routed => c
  }

  /** The client object itself, with the socket as the list of messages it has taken. */
  class IvpPlugin {
    var state: PluginState
    var filter: Filter
    var config: Config
    var registerSent: bool
    var socket: seq<ClientMsg>

    ghost function View(): Client
      reads this
    {
      Client(state, filter, config, registerSent)
    }

    constructor (manifest: Config)
      ensures View() == Client(Disconnected, None, manifest, false) && socket == []
    {
      state, filter, config, registerSent, socket := Disconnected, None, manifest, false, [];
    }

    method BroadcastMessage(m: ClientMsg, sent: bool)
      modifies this`state, this`socket
      ensures View() == ClientAfterSend(old(View()), sent)
      ensures socket == old(socket) + if Online(old(View())) && sent then [m] else []
    {
      if state != Connected && state != Registered { return; }
      if sent {
        socket := socket + [m];
      } else {
        state := Disconnected;
      }
    }

    method Subscribe(f: Filter, sent: bool)
      modifies this
      ensures View() == ClientAfterSend(old(View()).(filter := f), sent)
      ensures socket == old(socket) + if Online(old(View())) && sent then [SubscribeMsg(f)] else []
    {
      filter := f;
      BroadcastMessage(SubscribeMsg(filter), sent);
    }

    method OnError(fatal: bool, number: nat)
      modifies this`state
      ensures View() == ClientAfter(old(View()), ErrorMsg(fatal, number))
    {
      if number == 0 { return; }
      if fatal { state := Failed; }
    }

    /** The loop over a configuration message's items; keys outside the manifest are passed over. */
    method UpdateConfig(items: seq<Pair>)
      modifies this`config
      ensures config == UpdatedAll(old(config), items)
    {
      var i := 0;
      while i < |items|
        invariant 0 <= i <= |items|
        invariant UpdatedAll(config, items[i..]) == UpdatedAll(old(config), items)
      {
        assert items[i..][0] == items[i] && items[i..][1..] == items[i + 1..];
        if items[i].key in config {
          config := config[items[i].key := config[items[i].key].(value := Some(items[i].value))];
        }
        i := i + 1;
      }
      assert items[i..] == [];
    }

    /** A first configuration message completes the registration and repeats the subscription. */
    method OnMessageReceived(m: CoreMsg, sent: bool)
      modifies this
      ensures var c := ClientAfter(old(View()), m);
              var completes := old(state) == Connected && m.ConfigMsg?;
              && View() == (if completes then ClientAfterSend(c, sent) else c)
              && socket == old(socket) + (if completes && sent then [SubscribeMsg(c.filter)] else [])
    {
      match m {
        case ErrorMsg(fatal, number) => OnError(fatal, number);
        case ConfigMsg(items) =>
          UpdateConfig(items);
          if state == Connected {
            state := Registered;
            Subscribe(filter, sent);
          }
        case Routed =>
      }
    }
  }

  ghost function Apply(s: State, step: Step): State
    requires Enabled(s, step)
  {
    match step
    case Connect =>
      State(s.client.(state := Connected, registerSent := false), NEW_UPLINK, [], NEW_CORE, s.connections + 1)
    case SendRegister(sent) => Broadcast(s, s.client.(registerSent := true), RegisterMsg, sent)
    case AppSubscribe(f, sent) => Broadcast(s, s.client.(filter := f), SubscribeMsg(f), sent)
    case AppSend(m, sent) => Broadcast(s, s.client, m, sent)
    case Disconnect => s.(client := s.client.(state := Disconnected))
    case ClientReceive(sent) =>
      var s1 := s.(client := ClientAfter(s.client, s.down[0]), down := s.down[1..]);
      // the step to registered is followed by a resubscription
      if s.client.state == Connected && s1.client.state == Registered
      then Broadcast(s1, s1.client, SubscribeMsg(s1.client.filter), sent) else s1
    case CoreReceive => s.(up := Queued(s.up))
    case CoreRegister(o) =>
      s.(up := s.up.(queue := s.up.queue[1..]), core := CoreAfterRegister(s.core, o), down := s.down + AnswerToRegister(o))
    case CoreProcess =>
      s.(up := s.up.(queue := s.up.queue[1..]), core := CoreAfter(s.core, s.up.queue[0]),
         down := if s.core.registered then s.down else s.down + [ErrorMsg(false, 0)])
    case CorePoll(db, after, notes) =>
      s.(core := s.core.(cache := after), down := s.down + Notifications(notes))
    case CoreSend(cm) => s.(down := s.down + [cm])
  }

  ghost predicate IsRun(s: State, steps: seq<Step>)
    decreases |steps|
  {
    steps == [] || (Enabled(s, steps[0]) && IsRun(Apply(s, steps[0]), steps[1..]))
  }

  ghost function Exec(s: State, steps: seq<Step>): State
    requires IsRun(s, steps)
    decreases |steps|
  {
    if steps == [] then s else Exec(Apply(s, steps[0]), steps[1..])
  }

  // ---------- subscriptions ----------

  /** The router's list once everything in `q` has been processed. */
  function Latest(q: seq<ClientMsg>, router: Option<seq<RouterEntry>>): Option<seq<RouterEntry>>
    decreases |q|
  {
    if q == [] then router
    else Latest(q[1..], if q[0].SubscribeMsg? then Some(RouterEntries(q[0].filter)) else router)
  }

  lemma {:induction false} LatestAppend(q: seq<ClientMsg>, m: ClientMsg, router: Option<seq<RouterEntry>>)
    ensures Latest(q + [m], router) ==
            if m.SubscribeMsg? then Some(RouterEntries(m.filter)) else Latest(q, router)
    decreases |q|
  {
    if q == [] {
      assert q + [m] == [m];
    } else {
      assert (q + [m])[1..] == q[1..] + [m];
      LatestAppend(q[1..], m, if q[0].SubscribeMsg? then Some(RouterEntries(q[0].filter)) else router);
    }
  }

  lemma {:induction false} LatestForgets(q: seq<ClientMsg>, r1: Option<seq<RouterEntry>>, r2: Option<seq<RouterEntry>>)
    requires HasSubscribe(q)
    ensures Latest(q, r1) == Latest(q, r2)
    decreases |q|
  {
    if !q[0].SubscribeMsg? {
      var i :| 0 <= i < |q| && q[i].SubscribeMsg?;
      assert q[1..][i - 1].SubscribeMsg?;
      LatestForgets(q[1..], r1, r2);
    }
  }

  lemma {:induction false} SlowIsSkipped(q: seq<ClientMsg>, m: ClientMsg, rest: seq<ClientMsg>, router: Option<seq<RouterEntry>>)
    requires m.Slow?
    ensures Latest(q + ([m] + rest), router) == Latest(q + rest, router)
    decreases |q|
  {
    if q == [] {
      assert q + ([m] + rest) == [m] + rest && q + rest == rest && ([m] + rest)[1..] == rest;
    } else {
      assert (q + ([m] + rest))[1..] == q[1..] + ([m] + rest) && (q + rest)[1..] == q[1..] + rest;
      SlowIsSkipped(q[1..], m, rest, if q[0].SubscribeMsg? then Some(RouterEntries(q[0].filter)) else router);
    }
  }

  function Pipeline(u: Uplink): seq<ClientMsg> {
    u.queue + u.socket
  }

  ghost predicate InSync(c: Client, u: Uplink, router: Option<seq<RouterEntry>>) {
    c.state == Registered && !u.lastSubscribeDropped ==> Latest(Pipeline(u), router) == Some(RouterEntries(c.filter))
  }

  ghost predicate Subscribed(s: State) {
    && (s.client.state == Registered ==> s.core.registered)
    && (forall i :: 0 <= i < |s.down| && s.down[i].ConfigMsg? ==> s.core.registered)
    && InSync(s.client, s.up, s.core.router)
    && (s.up.dropped == 0 ==> !s.up.lastSubscribeDropped)
  }

  lemma SendKeepsSync(c: Client, u: Uplink, m: ClientMsg, sent: bool, router: Option<seq<RouterEntry>>)
    requires if m.SubscribeMsg? then m.filter == c.filter else InSync(c, u, router)
    ensures InSync(ClientAfterSend(c, sent), UplinkAfterSend(c, u, m, sent), router)
  {
    LatestAppend(Pipeline(u), m, router);
    assert Pipeline(u) + [m] == u.queue + (u.socket + [m]);
  }

  lemma DropKeepsLatest(q: seq<ClientMsg>, router: Option<seq<RouterEntry>>)
    requires q != []
    ensures !q[0].SubscribeMsg? || HasSubscribe(q[1..]) ==> Latest(q[1..], router) == Latest(q, router)
  {
    if q[0].SubscribeMsg? && HasSubscribe(q[1..]) {
      LatestForgets(q[1..], router, Some(RouterEntries(q[0].filter)));
    }
  }

  lemma QueueingKeepsSync(c: Client, u: Uplink, router: Option<seq<RouterEntry>>)
    requires u.socket != [] && InSync(c, u, router)
    ensures InSync(c, Queued(u), router)
  {
    var m, rest, u' := u.socket[0], u.socket[1..], Queued(u);
    assert u.socket == [m] + rest;
    if m.Slow? {
      SlowIsSkipped(u.queue, m, rest, router);
    } else if |u.queue| != QUEUE_CAPACITY {
      assert Pipeline(u') == Pipeline(u);
    } else {
      assert Pipeline(u)[1..] == Pipeline(u') == u.queue[1..] + [m] + rest && Pipeline(u)[0] == u.queue[0];
      assert u.queue[0].SubscribeMsg? ==> HasSubscribe(FreedByPush(u.queue)) by {
        assert FreedByPush(u.queue)[0] == u.queue[0];
      }
      DropKeepsLatest(Pipeline(u), router);
    }
  }

  lemma ProcessingKeepsSync(c: Client, u: Uplink, core: Core)
    requires u.queue != [] && InSync(c, u, core.router) && (c.state == Registered ==> core.registered)
    ensures InSync(c, u.(queue := u.queue[1..]), CoreAfter(core, u.queue[0]).router)
    ensures u.queue[0].RegisterMsg? ==> InSync(c, u.(queue := u.queue[1..]), core.router)
  {
    assert Pipeline(u)[1..] == u.queue[1..] + u.socket && Pipeline(u)[0] == u.queue[0];
  }

  lemma SubscribedStep(s: State, step: Step)
    requires Subscribed(s) && Enabled(s, step)
    ensures Subscribed(Apply(s, step))
  {
    match step {
      case SendRegister(sent) =>
        SendKeepsSync(s.client.(registerSent := true), s.up, RegisterMsg, sent, s.core.router);
      case AppSubscribe(f, sent) => SendKeepsSync(s.client.(filter := f), s.up, SubscribeMsg(f), sent, s.core.router);
      case AppSend(m, sent) => SendKeepsSync(s.client, s.up, m, sent, s.core.router);
      case ClientReceive(sent) =>
        assert forall i :: 0 <= i < |s.down[1..]| ==> s.down[1..][i] == s.down[i + 1];
        var c := ClientAfter(s.client, s.down[0]);
        SendKeepsSync(c, s.up, SubscribeMsg(c.filter), sent, s.core.router);
      case CoreReceive => QueueingKeepsSync(s.client, s.up, s.core.router);
      case CoreRegister(_) => ProcessingKeepsSync(s.client, s.up, s.core);
      case CoreProcess => ProcessingKeepsSync(s.client, s.up, s.core);
      case _ =>
    }
  }

  lemma {:induction false} SubscribedRun(s: State, steps: seq<Step>)
    requires Subscribed(s) && IsRun(s, steps)
    ensures Subscribed(Exec(s, steps))
    decreases |steps|
  {
    if steps != [] {
      SubscribedStep(s, steps[0]);
      SubscribedRun(Apply(s, steps[0]), steps[1..]);
    }
  }

  /**
   Whenever the client is registered and nothing is on its way to the core, the router holds
   exactly the client's latest filter, whenever that was set, unless the full queue dropped the
   message that carried it; without any drop the agreement is unconditional.
   */
  lemma SubscriptionAgreement(config: Config, steps: seq<Step>)
    requires IsRun(Start(config), steps)
    ensures var e := Exec(Start(config), steps);
            && (e.client.state == Registered && Pipeline(e.up) == [] && !e.up.lastSubscribeDropped ==>
                  e.core.router.Some? && IsListOf(e.core.router.value, e.client.filter))
            && (e.up.dropped == 0 ==> !e.up.lastSubscribeDropped)
  {
    SubscribedRun(Start(config), steps);
    RouterEntriesAreListed(Exec(Start(config), steps).client.filter);
  }

  // ---------- rejection ----------

  ghost predicate NoRegister(q: seq<ClientMsg>) {
    forall i :: 0 <= i < |q| ==> !q[i].RegisterMsg?
  }

  ghost predicate AtMostOneRegister(q: seq<ClientMsg>) {
    forall i, j :: 0 <= i < j < |q| ==> !(q[i].RegisterMsg? && q[j].RegisterMsg?)
  }

  /** One registration per connection; once it was decided, none is under way. */
  ghost predicate OneRegistration(c: Client, q: seq<ClientMsg>, core: Core) {
    && AtMostOneRegister(q)
    && (!c.registerSent || core.rejected || core.registered ==> NoRegister(q))
    && (core.rejected || core.registered ==> c.registerSent)
    && !(core.rejected && core.registered)
  }

  /** An error that puts the client into its error state. */
  predicate Stops(m: CoreMsg) {
    m.ErrorMsg? && m.fatal && m.number != 0
  }

  /** Only a routed error stops a client, and nothing is routed to one that was refused. */
  ghost predicate RejectionIsFinal(s: State) {
    && (s.core.router.Some? ==> s.core.registered)
    && (s.client.state == Failed || (exists i :: 0 <= i < |s.down| && Stops(s.down[i])) ==> s.core.router.Some?)
    && OneRegistration(s.client, Pipeline(s.up), s.core)
  }

  lemma SendKeepsOne(c: Client, u: Uplink, m: ClientMsg, sent: bool, core: Core)
    requires OneRegistration(c, Pipeline(u), core)
    requires m.RegisterMsg? ==> NoRegister(Pipeline(u)) && c.registerSent && !core.rejected && !core.registered
    ensures OneRegistration(ClientAfterSend(c, sent), Pipeline(UplinkAfterSend(c, u, m, sent)), core)
  {
    assert Pipeline(u) + [m] == u.queue + (u.socket + [m]);
  }

  lemma RegistersWithout(q: seq<ClientMsg>, n: nat)
    requires n < |q|
    ensures AtMostOneRegister(q) ==> AtMostOneRegister(q[..n] + q[n + 1..])
    ensures NoRegister(q) ==> NoRegister(q[..n] + q[n + 1..])
    ensures AtMostOneRegister(q) && q[n].RegisterMsg? ==> NoRegister(q[..n] + q[n + 1..])
  {
    var q' := q[..n] + q[n + 1..];
    assert forall i :: 0 <= i < |q'| ==> q'[i] == if i < n then q[i] else q[i + 1];
  }

  lemma QueueingKeepsOne(c: Client, u: Uplink, core: Core)
    requires u.socket != [] && OneRegistration(c, Pipeline(u), core)
    ensures OneRegistration(c, Pipeline(Queued(u)), core)
  {
    var q, q' := Pipeline(u), Pipeline(Queued(u));
    if u.socket[0].Slow? {
      RegistersWithout(q, |u.queue|);
      assert q' == q[..|u.queue|] + q[|u.queue| + 1..];
    } else if |u.queue| != QUEUE_CAPACITY {
      assert q' == q;
    } else {
      RegistersWithout(q, 0);
      assert q' == q[..0] + q[1..];
    }
  }

  lemma ProcessingKeepsOne(s: State, step: Step)
    requires RejectionIsFinal(s) && Enabled(s, step) && (step.CoreRegister? || step.CoreProcess?)
    ensures RejectionIsFinal(Apply(s, step))
  {
    var q := Pipeline(s.up);
    RegistersWithout(q, 0);
    assert Pipeline(Apply(s, step).up) == q[..0] + q[1..] && q[0] == s.up.queue[0];
  }

  lemma RejectionStep(s: State, step: Step)
    requires RejectionIsFinal(s) && Enabled(s, step)
    ensures RejectionIsFinal(Apply(s, step))
  {
    match step {
      case SendRegister(sent) => SendKeepsOne(s.client.(registerSent := true), s.up, RegisterMsg, sent, s.core);
      case AppSubscribe(f, sent) => SendKeepsOne(s.client.(filter := f), s.up, SubscribeMsg(f), sent, s.core);
      case AppSend(m, sent) => SendKeepsOne(s.client, s.up, m, sent, s.core);
      case ClientReceive(sent) =>
        assert forall i :: 0 <= i < |s.down[1..]| ==> s.down[1..][i] == s.down[i + 1];
        var c := ClientAfter(s.client, s.down[0]);
        SendKeepsOne(c, s.up, SubscribeMsg(c.filter), sent, s.core);
      case CoreReceive => QueueingKeepsOne(s.client, s.up, s.core);
      case CoreRegister(_) => ProcessingKeepsOne(s, step);
      case CoreProcess => ProcessingKeepsOne(s, step);
      case _ =>
    }
  }

  lemma {:induction false} RejectionRun(s: State, steps: seq<Step>)
    requires RejectionIsFinal(s) && IsRun(s, steps)
    ensures RejectionIsFinal(Exec(s, steps))
    decreases |steps|
  {
    if steps != [] {
      RejectionStep(s, steps[0]);
      RejectionRun(Apply(s, steps[0]), steps[1..]);
    }
  }

  /**
   The core's refusal never puts the client into its error state, because the refusal carries the
   error number "none": the client stays connected, and never becomes registered on that connection.
   What can stop a client is an error of another plugin, and only once its own subscription is in the router.
   */
  lemma RejectedClientStaysConnected(config: Config, steps: seq<Step>)
    requires IsRun(Start(config), steps)
    ensures var e := Exec(Start(config), steps);
            && (e.client.state == Failed ==> e.core.registered && e.core.router.Some?)
            && (e.core.rejected ==> e.client.state == Connected || e.client.state == Disconnected)
  {
    RejectionRun(Start(config), steps);
    SubscribedRun(Start(config), steps);
  }

  // ---------- runs that exist ----------

  lemma {:induction false} ExecAppend(s: State, first: seq<Step>, second: seq<Step>)
    requires IsRun(s, first) && IsRun(Exec(s, first), second)
    ensures IsRun(s, first + second) && Exec(s, first + second) == Exec(Exec(s, first), second)
    decreases |first|
  {
    if first == [] {
      assert first + second == second;
    } else {
      assert (first + second)[0] == first[0] && (first + second)[1..] == first[1..] + second;
      ExecAppend(Apply(s, first[0]), first[1..], second);
    }
  }

  lemma OneStep(s: State, step: Step)
    requires Enabled(s, step)
    ensures IsRun(s, [step]) && Exec(s, [step]) == Apply(s, step)
  {
    assert [step][1..] == [];
    assert IsRun(Apply(s, step), []) && Exec(Apply(s, step), []) == Apply(s, step);
  }

  lemma TwoSteps(s: State, a: Step, b: Step)
    requires Enabled(s, a) && Enabled(Apply(s, a), b)
    ensures IsRun(s, [a, b]) && Exec(s, [a, b]) == Apply(Apply(s, a), b)
  {
    OneStep(Apply(s, a), b);
    assert [a, b][0] == a && [a, b][1..] == [b];
  }

  /** What the database may answer to a client's first registration. */
  ghost predicate IsAnswer(config: Config, o: Outcome) {
    o.Accepted? && IsReply(o.items, o.read) && IsRead(o.read, Initialized(o.own, Manifest(config)), o.global)
  }

  /** The client before its first connection, with a filter set early. */
  function Offline(config: Config, f: Filter): State {
    State(Client(Disconnected, f, config, false), NEW_UPLINK, [], NEW_CORE, 0)
  }

  lemma SetsFilterEarly(config: Config, f: Filter)
    ensures IsRun(Start(config), [AppSubscribe(f, true)])
    ensures Exec(Start(config), [AppSubscribe(f, true)]) == Offline(config, f)
  {
    OneStep(Start(config), AppSubscribe(f, true));
  }

  function Registering(config: Config, f: Filter): State {
    State(Client(Connected, f, config, true), NEW_UPLINK.(socket := [RegisterMsg]), [], NEW_CORE, 1)
  }

  lemma Registers(config: Config, f: Filter) returns (steps: seq<Step>)
    ensures IsRun(Start(config), steps) && Exec(Start(config), steps) == Registering(config, f)
  {
    SetsFilterEarly(config, f);
    assert [] + [RegisterMsg] == [RegisterMsg];
    TwoSteps(Offline(config, f), Connect, SendRegister(true));
    ExecAppend(Start(config), [AppSubscribe(f, true)], [Connect, SendRegister(true)]);
    steps := [AppSubscribe(f, true)] + [Connect, SendRegister(true)];
  }

  function Answered(config: Config, f: Filter, o: Outcome): State
    requires o.Accepted?
  {
    State(Client(Connected, f, config, true), NEW_UPLINK, [ConfigMsg(o.items)], Core(true, o.read, None, false, true), 1)
  }

  lemma IsThenAnswered(config: Config, f: Filter, o: Outcome)
    requires IsAnswer(config, o)
    ensures IsRun(Registering(config, f), [CoreReceive, CoreRegister(o)])
    ensures Exec(Registering(config, f), [CoreReceive, CoreRegister(o)]) == Answered(config, f, o)
  {
    var s := Apply(Registering(config, f), CoreReceive);
    assert s.up == Uplink([], [RegisterMsg], 0, false);
    TwoSteps(Registering(config, f), CoreReceive, CoreRegister(o));
    assert [] + [ConfigMsg(o.items)] == [ConfigMsg(o.items)];
  }

  /** Every such answer can be reached. */
  lemma CanBeAnswered(config: Config, f: Filter, o: Outcome) returns (steps: seq<Step>)
    requires IsAnswer(config, o)
    ensures IsRun(Start(config), steps) && Exec(Start(config), steps) == Answered(config, f, o)
  {
    steps := Registers(config, f);
    IsThenAnswered(config, f, o);
    ExecAppend(Start(config), steps, [CoreReceive, CoreRegister(o)]);
    steps := steps + [CoreReceive, CoreRegister(o)];
  }

  /**
   A refusal, and an error after the commit, is sent as fatal and without a number, and the client
   that receives it stays connected; a manifest that cannot be read is not answered.
   */
  lemma ARefusalIsIgnored(config: Config, f: Filter, o: Outcome) returns (steps: seq<Step>)
    requires !o.Accepted?
    ensures IsRun(Start(config), steps)
    ensures var e := Exec(Start(config), steps);
            e.core.rejected == o.Rejected? && e.core.registered == o.AcceptedWithoutReply? && !e.core.replied &&
            e.client.state == Connected && Pipeline(e.up) == [] &&
            if o.Ignored? then e.down == []
            else
              e.down == [ErrorMsg(true, 0)] &&
              IsRun(e, [ClientReceive(true)]) && Exec(e, [ClientReceive(true)]).client.state == Connected
  {
    steps := Registers(config, f);
    var s := Registering(config, f);
    var s1 := Apply(s, CoreReceive);
    assert s1.up == Uplink([], [RegisterMsg], 0, false);
    TwoSteps(s, CoreReceive, CoreRegister(o));
    ExecAppend(Start(config), steps, [CoreReceive, CoreRegister(o)]);
    steps := steps + [CoreReceive, CoreRegister(o)];
    var e := Apply(s1, CoreRegister(o));
    if !o.Ignored? {
      assert e.down == [ErrorMsg(true, 0)];
      OneStep(e, ClientReceive(true));
    }
  }

  /** What a plugin sends before it is registered is answered with an error and does not reach the router. */
  lemma UnregisteredIsAnswered(config: Config, f: Filter, m: ClientMsg) returns (steps: seq<Step>)
    requires m.OtherMsg? || (m.SubscribeMsg? && m.filter == f)
    ensures IsRun(Start(config), steps)
    ensures var e := Exec(Start(config), steps);
            e.down == [ErrorMsg(false, 0)] && e.core.router == None && Pipeline(e.up) == [] && e.client.state == Connected
  {
    var send := if m.OtherMsg? then AppSend(m, true) else AppSubscribe(f, true);
    SetsFilterEarly(config, f);
    assert [] + [m] == [m];
    TwoSteps(Offline(config, f), Connect, send);
    ExecAppend(Start(config), [AppSubscribe(f, true)], [Connect, send]);
    var s := Apply(Apply(Offline(config, f), Connect), send);
    assert s.up.socket == [m];
    var s1 := Apply(s, CoreReceive);
    assert s1.up == Uplink([], [m], 0, false);
    TwoSteps(s, CoreReceive, CoreProcess);
    ExecAppend(Start(config), [AppSubscribe(f, true)] + [Connect, send], [CoreReceive, CoreProcess]);
    steps := [AppSubscribe(f, true)] + [Connect, send] + [CoreReceive, CoreProcess];
    assert [] + [ErrorMsg(false, 0)] == [ErrorMsg(false, 0)];
  }

  function Subscribing(config: Config, f: Filter, o: Outcome): State
    requires o.Accepted?
  {
    State(Client(Registered, f, UpdatedAll(config, o.items), true), NEW_UPLINK.(socket := [SubscribeMsg(f)]), [],
          Core(true, o.read, None, false, true), 1)
  }

  lemma Resubscribes(config: Config, f: Filter, o: Outcome)
    requires o.Accepted?
    ensures IsRun(Answered(config, f, o), [ClientReceive(true)])
    ensures Exec(Answered(config, f, o), [ClientReceive(true)]) == Subscribing(config, f, o)
  {
    OneStep(Answered(config, f, o), ClientReceive(true));
    assert Answered(config, f, o).down[1..] == [] && [] + [SubscribeMsg(f)] == [SubscribeMsg(f)];
  }

  function InTheRouter(config: Config, f: Filter, o: Outcome): State
    requires o.Accepted?
  {
    State(Client(Registered, f, UpdatedAll(config, o.items), true), NEW_UPLINK, [],
          Core(true, o.read, Some(RouterEntries(f)), false, true), 1)
  }

  lemma SubscriptionArrives(config: Config, f: Filter, o: Outcome)
    requires o.Accepted?
    ensures IsRun(Subscribing(config, f, o), [CoreReceive, CoreProcess])
    ensures Exec(Subscribing(config, f, o), [CoreReceive, CoreProcess]) == InTheRouter(config, f, o)
  {
    var s := Subscribing(config, f, o);
    var s1 := Apply(s, CoreReceive);
    assert s1.up.queue == [SubscribeMsg(f)];
    TwoSteps(s, CoreReceive, CoreProcess);
  }

  lemma Subscribes(config: Config, f: Filter, o: Outcome) returns (steps: seq<Step>)
    requires IsAnswer(config, o)
    ensures IsRun(Start(config), steps) && Exec(Start(config), steps) == InTheRouter(config, f, o)
  {
    steps := CanBeAnswered(config, f, o);
    Resubscribes(config, f, o);
    ExecAppend(Start(config), steps, [ClientReceive(true)]);
    SubscriptionArrives(config, f, o);
    ExecAppend(Start(config), steps + [ClientReceive(true)], [CoreReceive, CoreProcess]);
    steps := steps + [ClientReceive(true)] + [CoreReceive, CoreProcess];
  }

  /** A filter set before connecting does get into the router of a registered client. */
  lemma AnEarlyFilterArrives(config: Config, f: Filter, o: Outcome) returns (steps: seq<Step>)
    requires IsAnswer(config, o)
    ensures IsRun(Start(config), steps)
    ensures var e := Exec(Start(config), steps);
            e.client.state == Registered && e.client.filter == f && Pipeline(e.up) == [] && e.up.dropped == 0 &&
            e.core.router.Some? && IsListOf(e.core.router.value, f)
  {
    steps := Subscribes(config, f, o);
    RouterEntriesAreListed(f);
  }

  /** A client that connects again keeps its filter and its configuration, and the core starts anew. */
  lemma AReconnectKeepsTheClient(config: Config, f: Filter, o: Outcome) returns (steps: seq<Step>)
    requires IsAnswer(config, o)
    ensures IsRun(Start(config), steps)
    ensures var e := Exec(Start(config), steps);
            e.connections == 2 && e.client.state == Connected && e.client.filter == f && !e.client.registerSent &&
            e.client.config == UpdatedAll(config, o.items) && !e.core.registered && e.core.router == None
  {
    steps := Subscribes(config, f, o);
    TwoSteps(InTheRouter(config, f, o), Disconnect, Connect);
    ExecAppend(Start(config), steps, [Disconnect, Connect]);
    steps := steps + [Disconnect, Connect];
  }

  /** A registered client with some notifications on their way. */
  function Notified(s: State, config: Config, notes: seq<Pair>): State {
    s.(client := s.client.(config := config), down := Notifications(notes))
  }

  lemma {:induction false} ReceivesNotes(s: State, config: Config, notes: seq<Pair>) returns (steps: seq<Step>)
    requires s.client.state == Registered
    ensures IsRun(Notified(s, config, notes), steps)
    ensures Exec(Notified(s, config, notes), steps) == Notified(s, UpdatedAll(config, notes), [])
    decreases |notes|
  {
    if notes == [] {
      steps := [];
    } else {
      var now := Notified(s, config, notes);
      var next := Apply(now, ClientReceive(true));
      assert now.down[0] == ConfigMsg([notes[0]]) && [notes[0]][1..] == [];
      assert UpdatedAll(config, [notes[0]]) == Updated(config, notes[0]);
      assert now.down[1..] == Notifications(notes[1..]);
      assert next == Notified(s, Updated(config, notes[0]), notes[1..]);
      var rest := ReceivesNotes(s, Updated(config, notes[0]), notes[1..]);
      steps := [ClientReceive(true)] + rest;
      assert steps[0] == ClientReceive(true) && steps[1..] == rest;
    }
  }

  /** What a poll finds changed does reach a registered client, and the core's cache with it. */
  lemma AChangeReachesTheClient(config: Config, f: Filter, o: Outcome, db: Cache, after: Cache, notes: seq<Pair>)
    returns (steps: seq<Step>)
    requires IsAnswer(config, o) && IsPoll(o.read, db, after, notes)
    ensures IsRun(Start(config), steps)
    ensures var e := Exec(Start(config), steps);
            e.down == [] && e.core.cache == after && e.client.config == UpdatedAll(UpdatedAll(config, o.items), notes)
  {
    steps := Subscribes(config, f, o);
    var s := InTheRouter(config, f, o);
    OneStep(s, CorePoll(db, after, notes));
    ExecAppend(Start(config), steps, [CorePoll(db, after, notes)]);
    var polled := s.(core := s.core.(cache := after));
    var c := UpdatedAll(config, o.items);
    assert [] + Notifications(notes) == Notifications(notes);
    assert Apply(s, CorePoll(db, after, notes)) == Notified(polled, c, notes);
    var receive := ReceivesNotes(polled, c, notes);
    ExecAppend(Start(config), steps + [CorePoll(db, after, notes)], receive);
    steps := steps + [CorePoll(db, after, notes)] + receive;
    assert Notifications([]) == [];
  }

  lemma RoutedErrorStops(s: State, number: nat)
    requires s.core.router.Some? && s.down == [] && number != 0
    ensures var steps := [CoreSend(ErrorMsg(true, number)), ClientReceive(true)];
            IsRun(s, steps) && Exec(s, steps).client.state == Failed
  {
    var s1 := Apply(s, CoreSend(ErrorMsg(true, number)));
    assert s1.down == [ErrorMsg(true, number)];
    TwoSteps(s, CoreSend(ErrorMsg(true, number)), ClientReceive(true));
  }

  /** A routed error does stop a client: after any answered registration there is such a run. */
  lemma ARoutedErrorStopsTheClient(config: Config, f: Filter, o: Outcome, number: nat) returns (steps: seq<Step>)
    requires IsAnswer(config, o) && number != 0
    ensures IsRun(Start(config), steps) && Exec(Start(config), steps).client.state == Failed
  {
    steps := Subscribes(config, f, o);
    RoutedErrorStops(InTheRouter(config, f, o), number);
    var fail := [CoreSend(ErrorMsg(true, number)), ClientReceive(true)];
    ExecAppend(Start(config), steps, fail);
    steps := steps + fail;
  }

  // ---------- configuration ----------

  ghost predicate Fresh(c: Config) {
    forall k :: k in c ==> c[k].value == None
  }

  /** The client's collection once everything in `msgs` has been received. */
  function Replayed(c: Config, msgs: seq<CoreMsg>): (r: Config)
    ensures r.Keys == c.Keys
    decreases |msgs|
  {
    if msgs == [] then c
    else Replayed(if msgs[0].ConfigMsg? then UpdatedAll(c, msgs[0].items) else c, msgs[1..])
  }

  lemma {:induction false} ReplayedAppend(c: Config, msgs: seq<CoreMsg>, m: CoreMsg)
    ensures Replayed(c, msgs + [m]) ==
            if m.ConfigMsg? then UpdatedAll(Replayed(c, msgs), m.items) else Replayed(c, msgs)
    decreases |msgs|
  {
    if msgs == [] {
      assert msgs + [m] == [m];
    } else {
      assert (msgs + [m])[1..] == msgs[1..] + [m];
      ReplayedAppend(if msgs[0].ConfigMsg? then UpdatedAll(c, msgs[0].items) else c, msgs[1..], m);
    }
  }

  /** Receiving the notifications one by one is receiving their items at once. */
  lemma {:induction false} ReplayedNotes(c: Config, msgs: seq<CoreMsg>, notes: seq<Pair>, n: nat)
    requires n <= |notes|
    ensures Replayed(c, msgs + Notifications(notes)[..n]) == UpdatedAll(Replayed(c, msgs), notes[..n])
  {
    if n == 0 {
      assert msgs + Notifications(notes)[..0] == msgs;
    } else {
      var some := msgs + Notifications(notes)[..n - 1];
      ReplayedNotes(c, msgs, notes, n - 1);
      assert msgs + Notifications(notes)[..n] == some + [ConfigMsg([notes[n - 1]])];
      ReplayedAppend(c, some, ConfigMsg([notes[n - 1]]));
      UpdatedAppend(Replayed(c, msgs), notes[..n - 1], notes[n - 1]);
      assert notes[..n] == notes[..n - 1] + [notes[n - 1]];
    }
  }

  lemma {:induction false} UpdatedAppend(c: Config, items: seq<Pair>, p: Pair)
    ensures UpdatedAll(c, items + [p]) == UpdatedAll(UpdatedAll(c, items), [p])
    decreases |items|
  {
    if items == [] {
      assert items + [p] == [p];
    } else {
      assert (items + [p])[1..] == items[1..] + [p];
      UpdatedAppend(Updated(c, items[0]), items[1..], p);
    }
  }

  ghost predicate NoConfig(msgs: seq<CoreMsg>) {
    forall i :: 0 <= i < |msgs| ==> !msgs[i].ConfigMsg?
  }

  lemma {:induction false} ReplayedNothing(c: Config, msgs: seq<CoreMsg>)
    requires NoConfig(msgs)
    ensures Replayed(c, msgs) == c
    decreases |msgs|
  {
    if msgs != [] { ReplayedNothing(c, msgs[1..]); }
  }

  ghost predicate AgreedOn(c: Config, cache: Cache, k: string) {
    k in c && k in cache && Effective(c[k]) == cache[k].value
  }

  /** The reply to a registration settles a key: it is sent, or its value is the client's own default. */
  ghost predicate Settles(c: Config, read: Cache, k: string) {
    k in c && k in read && (read[k].value != read[k].defaultValue || read[k].value == c[k].defaultValue)
  }

  /** Whether a key is settled after a step: by the registration, or since by a poll that announced it. */
  ghost predicate SettledAfter(s: State, settled: bool, step: Step, k: string) {
    if step.Connect? then false
    else if step.CoreRegister? && step.outcome.Accepted? then Settles(s.client.config, step.outcome.read, k)
    else settled || (step.CorePoll? && k in KeysOf(step.notes))
  }

  ghost predicate Settled(s: State, settled: bool, steps: seq<Step>, k: string)
    requires IsRun(s, steps)
    decreases |steps|
  {
    if steps == [] then settled
    else Settled(Apply(s, steps[0]), SettledAfter(s, settled, steps[0], k), steps[1..], k)
  }

  /** Untouched until the core registers, then equal to the cache once all is received, if it is settled. */
  ghost predicate Tracks(c: Config, msgs: seq<CoreMsg>, core: Core, k: string, settled: bool) {
    && (core.replied ==> core.registered)
    && (!core.registered ==> Fresh(c) && NoConfig(msgs))
    && (core.replied ==> k in core.cache && (AgreedOn(Replayed(c, msgs), core.cache, k) <==> settled))
  }

  ghost predicate Configured(s: State, k: string, settled: bool) {
    && k in s.client.config
    && (s.connections == 0 ==> !Online(s.client) && s.up == NEW_UPLINK && s.core == NEW_CORE)
    && (s.connections <= 1 ==> Tracks(s.client.config, s.down, s.core, k, settled))
  }

  lemma AcceptedTracks(c: Config, msgs: seq<CoreMsg>, core: Core, o: Outcome, k: string, settled: bool)
    requires Tracks(c, msgs, core, k, settled) && o.Accepted? && !core.registered && k in c && IsAnswer(c, o)
    ensures Tracks(c, msgs + AnswerToRegister(o), CoreAfterRegister(core, o), k, Settles(c, o.read, k))
  {
    assert k in Initialized(o.own, Manifest(c)).Keys;
    ReplayedNothing(c, msgs);
    ReplayedAppend(c, msgs, ConfigMsg(o.items));
    ReplyAgreesExactlyWhen(c, o.read, o.items, k);
  }

  lemma PolledTracks(c: Config, msgs: seq<CoreMsg>, core: Core, db: Cache, after: Cache, notes: seq<Pair>, k: string, settled: bool)
    requires Tracks(c, msgs, core, k, settled) && core.registered && IsPoll(core.cache, db, after, notes) && k in c
    ensures Tracks(c, msgs + Notifications(notes), core.(cache := after), k, settled || k in KeysOf(notes))
  {
    if core.replied {
      var r := Replayed(c, msgs);
      ReplayedNotes(c, msgs, notes, |notes|);
      assert Notifications(notes)[..|notes|] == Notifications(notes) && notes[..|notes|] == notes;
      NotedKey(r, core.cache, db, after, notes, k);
    }
  }

  /** A poll makes an announced key agree, and leaves the others as they are on both sides. */
  lemma NotedKey(r: Config, cache: Cache, db: Cache, after: Cache, notes: seq<Pair>, k: string)
    requires IsPoll(cache, db, after, notes) && k in r && k in cache
    ensures k in after
    ensures AgreedOn(UpdatedAll(r, notes), after, k) <==> AgreedOn(r, cache, k) || k in KeysOf(notes)
  {
    assert k in after.Keys;
    if i :| 0 <= i < |notes| && notes[i].key == k {
      assert k in KeysOf(notes) && after[k] == db[k];
    } else {
      assert k !in KeysOf(notes) && k !in ChangedKeys(cache, db);
    }
    EffectiveAfter(r, notes, k, after[k].value);
  }

  lemma ReceivedTracks(c: Client, msgs: seq<CoreMsg>, core: Core, k: string, settled: bool)
    requires Tracks(c.config, msgs, core, k, settled) && msgs != []
    ensures Tracks(ClientAfter(c, msgs[0]).config, msgs[1..], core, k, settled)
  {
    assert forall i :: 0 <= i < |msgs[1..]| ==> msgs[1..][i] == msgs[i + 1];
  }

  lemma PlainTracks(c: Config, msgs: seq<CoreMsg>, core: Core, m: CoreMsg, k: string, settled: bool)
    requires Tracks(c, msgs, core, k, settled) && !m.ConfigMsg?
    ensures Tracks(c, msgs + [m], core, k, settled)
  {
    ReplayedAppend(c, msgs, m);
  }

  lemma RegisterTracks(c: Config, msgs: seq<CoreMsg>, core: Core, o: Outcome, k: string, settled: bool)
    requires Tracks(c, msgs, core, k, settled) && !o.Accepted? && (o.AcceptedWithoutReply? ==> !core.registered)
    ensures Tracks(c, msgs + AnswerToRegister(o), CoreAfterRegister(core, o), k, settled)
  {
    PlainTracks(c, msgs, core, ErrorMsg(true, 0), k, settled);
    assert msgs + [] == msgs;
  }

  lemma ConfiguredStep(s: State, step: Step, k: string, settled: bool)
    requires Configured(s, k, settled) && Enabled(s, step)
    ensures Configured(Apply(s, step), k, SettledAfter(s, settled, step, k))
  {
    if s.connections <= 1 {
      var c, down, core := s.client.config, s.down, s.core;
      match step {
        case ClientReceive(sent) => ReceivedTracks(s.client, down, core, k, settled);
        case CoreRegister(o) =>
          if o.Accepted? { AcceptedTracks(c, down, core, o, k, settled); } else { RegisterTracks(c, down, core, o, k, settled); }
        case CoreProcess => PlainTracks(c, down, core, ErrorMsg(false, 0), k, settled);
        case CorePoll(db, after, notes) => PolledTracks(c, down, core, db, after, notes, k, settled);
        case CoreSend(cm) => PlainTracks(c, down, core, cm, k, settled);
        case _ =>
      }
    }
  }

  lemma {:induction false} ConfiguredRun(s: State, steps: seq<Step>, k: string, settled: bool)
    requires Configured(s, k, settled) && IsRun(s, steps)
    ensures Configured(Exec(s, steps), k, Settled(s, settled, steps, k))
    decreases |steps|
  {
    if steps != [] {
      ConfiguredStep(s, steps[0], k, settled);
      ConfiguredRun(Apply(s, steps[0]), steps[1..], k, SettledAfter(s, settled, steps[0], k));
    }
  }

  /**
   On a client's first connection, once the core has answered the registration, receiving all that
   is on its way makes the client agree with the core's cache on a manifest key exactly when the key
   is settled: the registration read a value other than its default, or the client's own default, or
   a poll has announced it since.
   */
  lemma ConfigAgreesExactlyWhen(config: Config, steps: seq<Step>, k: string)
    requires Fresh(config) && k in config && IsRun(Start(config), steps)
    ensures var e := Exec(Start(config), steps);
            e.connections == 1 && e.core.replied ==>
              (AgreedOn(Replayed(e.client.config, e.down), e.core.cache, k) <==> Settled(Start(config), false, steps, k)) &&
              (NoConfig(e.down) ==> (AgreedOn(e.client.config, e.core.cache, k) <==> Settled(Start(config), false, steps, k)))
  {
    ConfiguredRun(Start(config), steps, k, false);
    var e := Exec(Start(config), steps);
    if NoConfig(e.down) { ReplayedNothing(e.client.config, e.down); }
  }

  // ---------- the same defaults ----------

  /** Both sides start from the same defaults. */
  ghost predicate SharesDefaults(s: State, step: Step) {
    step.CoreRegister? && step.outcome.Accepted? ==> SameDefaults(s.client.config, step.outcome.read)
  }

  ghost predicate IsSharingRun(s: State, steps: seq<Step>)
    decreases |steps|
  {
    steps == [] ||
    (Enabled(s, steps[0]) && SharesDefaults(s, steps[0]) && IsSharingRun(Apply(s, steps[0]), steps[1..]))
  }

  lemma SharedStep(s: State, step: Step, k: string, settled: bool)
    requires Enabled(s, step) && SharesDefaults(s, step) && k in s.client.config && (s.core.replied ==> settled)
    ensures var s' := Apply(s, step);
            k in s'.client.config && (s'.core.replied ==> SettledAfter(s, settled, step, k))
  {
  }

  lemma {:induction false} SharedIsSettled(s: State, steps: seq<Step>, k: string, settled: bool)
    requires IsSharingRun(s, steps) && k in s.client.config && (s.core.replied ==> settled)
    ensures IsRun(s, steps) && (Exec(s, steps).core.replied ==> Settled(s, settled, steps, k))
    decreases |steps|
  {
    if steps != [] {
      SharedStep(s, steps[0], k, settled);
      SharedIsSettled(Apply(s, steps[0]), steps[1..], k, SettledAfter(s, settled, steps[0], k));
    }
  }

  lemma {:induction false} SharingIsRun(s: State, steps: seq<Step>)
    requires IsSharingRun(s, steps)
    ensures IsRun(s, steps)
    decreases |steps|
  {
    if steps != [] { SharingIsRun(Apply(s, steps[0]), steps[1..]); }
  }

  ghost predicate Agreed(c: Config, cache: Cache) {
    forall k :: k in c ==> AgreedOn(c, cache, k)
  }

  /** Starting from the same defaults the client comes to agree with the cache on every manifest key. */
  lemma ConfigAgreement(config: Config, steps: seq<Step>)
    requires Fresh(config) && IsSharingRun(Start(config), steps)
    ensures IsRun(Start(config), steps)
    ensures var e := Exec(Start(config), steps);
            && (e.connections == 1 && e.core.replied ==> Agreed(Replayed(e.client.config, e.down), e.core.cache))
            && (e.connections == 1 && e.core.replied && NoConfig(e.down) ==> Agreed(e.client.config, e.core.cache))
  {
    SharingIsRun(Start(config), steps);
    var e := Exec(Start(config), steps);
    KeysStay(Start(config), steps);
    if e.connections == 1 && e.core.replied {
      forall k | k in config
        ensures AgreedOn(Replayed(e.client.config, e.down), e.core.cache, k)
        ensures NoConfig(e.down) ==> AgreedOn(e.client.config, e.core.cache, k)
      {
        SharedIsSettled(Start(config), steps, k, false);
        ConfigAgreesExactlyWhen(config, steps, k);
      }
    }
  }

  lemma {:induction false} KeysStay(s: State, steps: seq<Step>)
    requires IsRun(s, steps)
    ensures Exec(s, steps).client.config.Keys == s.client.config.Keys
    decreases |steps|
  {
    if steps != [] { KeysStay(Apply(s, steps[0]), steps[1..]); }
  }

  /** A global parameter with a manifest key and another default: nothing is sent, and they disagree. */
  lemma ClashingDefaultsDisagree(k: string, own: string, global: string) returns (config: Config, steps: seq<Step>)
    requires own != global
    ensures Fresh(config) && k in config && IsRun(Start(config), steps)
    ensures var e := Exec(Start(config), steps);
            e.connections == 1 && e.core.replied && !AgreedOn(Replayed(e.client.config, e.down), e.core.cache, k)
  {
    config := map[k := Item(own, None)];
    var read: Cache := map[k := Entry(global, global)];
    var o := Accepted(map[], read, read, []);
    assert Manifest(config) == map[k := own];
    assert Initialized(map[], Manifest(config)) == map[k := Entry(own, own)];
    steps := CanBeAnswered(config, None, o);
    var e := Exec(Start(config), steps);
    assert e.down == [ConfigMsg([])] && e.down[1..] == [];
    assert Replayed(config, e.down) == config;
  }
}
