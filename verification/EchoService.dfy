/** The echo programs over real channels: every put and get takes the channel's critical sections, waits, signals and
    spurious wake-ups, and all of it together does what the protocol over atomic channels of module Echo does. */
module EchoService {
  import opened Threads
  import Ring
  import Channel
  import Echo

  type Item = Ring.Item

  /** How a message lies in the bytes of an item. */
  datatype Codec = Codec(enc: Echo.Msg -> Item, dec: Item -> Echo.Msg)

  datatype Client = Client(script: seq<string>, sent: nat, waiting: bool, got: seq<string>, destroyed: bool)

  /** `Holding` has a message in its buffer, received and not yet put on a reply channel. */
  datatype Server = Listening | Holding(item: Item) | Stopped

  /** Client `c` is thread `c` of the service channel and thread 0 of its reply channel; the server is the last thread
      of the service channel and thread 1 of every reply channel. */
  datatype State = State(service: Channel.State, replies: seq<Channel.State>, server: Server, clients: seq<Client>)

  /** A call of `mc_put` or `mc_get`, or a step inside one, or a client's destruction of its channel. */
  datatype Step =
    | InService(p: Channel.Step) | InReply(c: nat, p: Channel.Step)
    | ClientCallPut(c: nat, item: Item) | ClientCallGet(c: nat) | ClientDestroy(c: nat)
    | ServerCallGet | ServerCallPut | ServerBreak

  const CLIENT_SIDE: nat := 0
  const SERVER_SIDE: nat := 1

  function ServerThread(s: State): nat { |s.clients| }

  predicate Shape(s: State) {
    && |s.replies| == |s.clients| && |s.service.pcs| == |s.clients| + 1
    && (forall c :: 0 <= c < |s.replies| ==>
          && |s.replies[c].pcs| == 2 && s.replies[c].ring.capacity == Echo.REPLY_CAPACITY
          && s.replies[c].ring.elemSize == s.service.ring.elemSize)
  }

  predicate IsStart(s: State) {
    && Shape(s) && Channel.IsStart(s.service) && s.server == Listening
    && (forall c :: 0 <= c < |s.replies| ==> Channel.IsStart(s.replies[c]))
    && (forall c :: 0 <= c < |s.clients| ==> s.clients[c] == Client(s.clients[c].script, 0, false, [], false))
  }

  /** Between calls: neither inside one nor with a signal to send. */
  predicate IsOut(ch: Channel.State, t: nat) {
    t < |ch.pcs| && ch.pcs[t] == Channel.Idle
  }

  predicate IsInside(p: Channel.Step) {
    !p.CallPut? && !p.CallGet?
  }

  predicate ServerIsOut(s: State) {
    IsOut(s.service, ServerThread(s)) && forall c :: 0 <= c < |s.replies| ==> IsOut(s.replies[c], SERVER_SIDE)
  }

  predicate ClientIsOut(s: State, c: nat) {
    c < |s.clients| && c < |s.replies| && IsOut(s.service, c) && IsOut(s.replies[c], CLIENT_SIDE)
  }

  predicate CanOpen(s: State, sender: nat) {
    sender < |s.clients| && sender < |s.replies| && !s.clients[sender].destroyed
  }

  /** `item` is the next request of client `c`. */
  predicate Asks(code: Codec, s: State, c: nat, item: Item) {
    && c < |s.clients| && !s.clients[c].waiting && s.clients[c].sent < |s.clients[c].script|
    && code.dec(item) == Echo.Msg(c, s.clients[c].script[s.clients[c].sent])
  }

  predicate Enabled(code: Codec, s: State, step: Step) {
    match step
    case InService(p) => IsInside(p) && Channel.Enabled(s.service, p)
    case InReply(c, p) => c < |s.replies| && c < |s.clients| && IsInside(p) && Channel.Enabled(s.replies[c], p)
    case ClientCallPut(c, item) => ClientIsOut(s, c) && Asks(code, s, c, item) && |item| == s.service.ring.elemSize
    case ClientCallGet(c) => ClientIsOut(s, c) && s.clients[c].waiting
    case ClientDestroy(c) =>
      && ClientIsOut(s, c) && !s.clients[c].waiting && s.clients[c].sent >= |s.clients[c].script|
      && !s.clients[c].destroyed
    case ServerCallGet => s.server.Listening? && ServerIsOut(s)
    case ServerCallPut =>
      && s.server.Holding? && ServerIsOut(s) && CanOpen(s, code.dec(s.server.item).sender)
      && |s.server.item| == s.replies[code.dec(s.server.item).sender].ring.elemSize
    case ServerBreak => s.server.Holding? && ServerIsOut(s) && !CanOpen(s, code.dec(s.server.item).sender)
  }

  predicate Puts(ch: Channel.State, p: Channel.Step) {
    p.PutCheck? && ch.ring.size < ch.ring.capacity
  }

  predicate Gets(ch: Channel.State, p: Channel.Step) {
    p.GetCheck? && ch.ring.size > 0
  }

  function ApplyInService(s: State, p: Channel.Step): State
    requires Channel.Enabled(s.service, p)
  {
    var s' := s.(service := Channel.Apply(s.service, p));
    if Puts(s.service, p) && p.t < |s.clients| then
      s'.(clients := s.clients[p.t := s.clients[p.t].(waiting := true)])
    else if Gets(s.service, p) && p.t == ServerThread(s) then
      s'.(server := Holding(Ring.Slot(s.service.ring, s.service.ring.iget)))
    else s'
  }

  function ApplyInReply(code: Codec, s: State, c: nat, p: Channel.Step): State
    requires c < |s.replies| && c < |s.clients| && Channel.Enabled(s.replies[c], p)
  {
    var s' := s.(replies := s.replies[c := Channel.Apply(s.replies[c], p)]);
    if Puts(s.replies[c], p) && p.t == SERVER_SIDE then s'.(server := Listening)
    else if Gets(s.replies[c], p) && p.t == CLIENT_SIDE then
      var ring, cl := s.replies[c].ring, s.clients[c];
      var text := code.dec(Ring.Slot(ring, ring.iget)).text;
      s'.(clients := s.clients[c := cl.(waiting := false, sent := cl.sent + 1, got := cl.got + [text])])
    else s'
  }

  function Call(ch: Channel.State, p: Channel.Step): Channel.State
    requires Channel.Enabled(ch, p)
  {
    Channel.Apply(ch, p)
  }

  function Apply(code: Codec, s: State, step: Step): State
    requires Enabled(code, s, step)
  {
    match step
    case InService(p) => ApplyInService(s, p)
    case InReply(c, p) => ApplyInReply(code, s, c, p)
    case ClientCallPut(c, item) => s.(service := Call(s.service, Channel.CallPut(c, item)))
    case ClientCallGet(c) => s.(replies := s.replies[c := Call(s.replies[c], Channel.CallGet(CLIENT_SIDE))])
    case ClientDestroy(c) => s.(clients := s.clients[c := s.clients[c].(destroyed := true)])
    case ServerCallGet => s.(service := Call(s.service, Channel.CallGet(ServerThread(s))))
    case ServerCallPut =>
      var c := code.dec(s.server.item).sender;
      s.(replies := s.replies[c := Call(s.replies[c], Channel.CallPut(SERVER_SIDE, s.server.item))])
    case ServerBreak => s.(server := Stopped)
  }

  ghost predicate Run(code: Codec, s: State, steps: seq<Step>, s': State)
    decreases |steps|
  {
    if steps == [] then s == s'
    else Enabled(code, s, steps[0]) && Run(code, Apply(code, s, steps[0]), steps[1..], s')
  }

  // ----- The protocol state that a state stands for -----

  predicate Readable(s: State) {
    Shape(s) && Ring.Valid(s.service.ring) && forall c :: 0 <= c < |s.replies| ==> Ring.Valid(s.replies[c].ring)
  }

  function Messages(code: Codec, ring: Ring.Ring): seq<Echo.Msg>
    requires Ring.Valid(ring)
  {
    Map(Ring.Contents(ring), code.dec)
  }

  function AbsClient(code: Codec, cl: Client, ring: Ring.Ring): Echo.Client
    requires Ring.Valid(ring)
  {
    Echo.Client(cl.script, cl.sent, cl.waiting, Messages(code, ring), cl.got, cl.destroyed)
  }

  function AbsServer(code: Codec, server: Server): Echo.Server {
    match server
    case Listening => Echo.Listening
    case Holding(item) => Echo.Holding(code.dec(item))
    case Stopped => Echo.Stopped
  }

  function AbsClients(code: Codec, s: State): seq<Echo.Client>
    requires Readable(s)
  {
    seq(|s.clients|, c requires 0 <= c < |s.clients| => AbsClient(code, s.clients[c], s.replies[c].ring))
  }

  function Abs(code: Codec, s: State): Echo.State
    requires Readable(s)
  {
    Echo.State(s.service.ring.capacity, Messages(code, s.service.ring), AbsServer(code, s.server), AbsClients(code, s))
  }

  /** The protocol step that a step carries out, if any: the put or the get of an item. */
  function Meaning(code: Codec, s: State, step: Step): seq<Echo.Step> {
    match step
    case InService(p) =>
      if Puts(s.service, p) then [Echo.ClientPut(p.t)] else if Gets(s.service, p) then [Echo.ServerGet] else []
    case InReply(c, p) =>
      if c >= |s.replies| then []
      else if Puts(s.replies[c], p) then [Echo.ServerPut]
      else if Gets(s.replies[c], p) then [Echo.ClientGet(c)] else []
    case ClientDestroy(c) => [Echo.ClientDestroy(c)]
    case ServerBreak => [Echo.ServerBreak]
    case _ => []
  }

  // ----- What the threads are doing inside the channels -----

  datatype Role = Out | Putting(item: Item) | Getting

  function RoleOf(pc: Channel.Pc): Role {
    match pc
    case PutReady(item) => Putting(item)
    case PutBlocked(item) => Putting(item)
    case GetReady => Getting
    case GetBlocked => Getting
    case _ => Out
  }

  /** Inside a channel a thread goes on with the call it has made until its item is moved. */
  lemma RolesInside(ch: Channel.State, p: Channel.Step, t: nat)
    requires Channel.Enabled(ch, p) && IsInside(p) && t < |ch.pcs|
    ensures |Channel.Apply(ch, p).pcs| == |ch.pcs|
    ensures RoleOf(Channel.Apply(ch, p).pcs[t])
         == if t == p.t && (Puts(ch, p) || Gets(ch, p)) then Out else RoleOf(ch.pcs[t])
    ensures Puts(ch, p) ==> RoleOf(ch.pcs[p.t]).Putting?
    ensures Gets(ch, p) ==> RoleOf(ch.pcs[p.t]) == Getting
  {
  }

  predicate ClientControl(code: Codec, s: State, c: nat)
    requires Shape(s) && c < |s.clients|
  {
    && (match RoleOf(s.service.pcs[c])
        case Out => true
        case Putting(item) => Asks(code, s, c, item)
        case Getting => false)
    && (match RoleOf(s.replies[c].pcs[CLIENT_SIDE])
        case Out => true
        case Putting(_) => false
        case Getting => s.clients[c].waiting)
  }

  predicate ServerControl(code: Codec, s: State)
    requires Shape(s)
  {
    && (match RoleOf(s.service.pcs[ServerThread(s)])
        case Out => true
        case Putting(_) => false
        case Getting => s.server.Listening?)
    && (forall c :: 0 <= c < |s.replies| ==>
          match RoleOf(s.replies[c].pcs[SERVER_SIDE])
          case Out => true
          case Putting(item) => s.server == Holding(item) && code.dec(item).sender == c
          case Getting => false)
    && (s.server.Holding? ==> |s.server.item| == s.service.ring.elemSize)
  }

  ghost predicate ChannelsInv(s: State) {
    Channel.Inv(s.service) && forall c :: 0 <= c < |s.replies| ==> Channel.Inv(s.replies[c])
  }

  ghost predicate Control(code: Codec, s: State)
    requires Shape(s)
  {
    ServerControl(code, s) && forall c :: 0 <= c < |s.clients| ==> ClientControl(code, s, c)
  }

  ghost predicate Inv(code: Codec, s: State) {
    Shape(s) && ChannelsInv(s) && Control(code, s) && Echo.Inv(Abs(code, s))
  }

  lemma StartInv(code: Codec, s: State)
    requires IsStart(s)
    ensures Inv(code, s) && Echo.IsStart(Abs(code, s))
  {
    Channel.StartInv(s.service);
    forall c: nat | c < |s.replies|
      ensures Channel.Inv(s.replies[c])
    {
      Channel.StartInv(s.replies[c]);
    }
    Echo.StartInv(Abs(code, s));
  }

  // ----- Every step keeps shape, channels and control -----

  lemma ChannelStep(ch: Channel.State, p: Channel.Step)
    requires Channel.Inv(ch) && Channel.Enabled(ch, p)
    ensures Channel.Inv(Channel.Apply(ch, p))
    ensures var ch' := Channel.Apply(ch, p);
            && |ch'.pcs| == |ch.pcs| && ch'.ring.capacity == ch.ring.capacity && ch'.ring.elemSize == ch.ring.elemSize
  {
    Channel.StepKeepsFifo(ch, p);
    Channel.StepKeepsWake(ch, p);
  }

  lemma InsideKeepsChannels(code: Codec, s: State, step: Step)
    requires Shape(s) && ChannelsInv(s) && Enabled(code, s, step) && (step.InService? || step.InReply?)
    ensures Shape(Apply(code, s, step)) && ChannelsInv(Apply(code, s, step))
    ensures Apply(code, s, step).service.ring.elemSize == s.service.ring.elemSize
  {
    match step
    case InService(p) => ChannelStep(s.service, p);
    case InReply(c, p) => ChannelStep(s.replies[c], p);
    case _ =>
  }

  lemma CallKeepsChannels(code: Codec, s: State, step: Step)
    requires Shape(s) && ChannelsInv(s) && Enabled(code, s, step) && !step.InService? && !step.InReply?
    ensures Shape(Apply(code, s, step)) && ChannelsInv(Apply(code, s, step))
    ensures Apply(code, s, step).service.ring.elemSize == s.service.ring.elemSize
  {
    match step
    case ClientCallPut(c, item) => ChannelStep(s.service, Channel.CallPut(c, item));
    case ClientCallGet(c) => ChannelStep(s.replies[c], Channel.CallGet(CLIENT_SIDE));
    case ServerCallGet => ChannelStep(s.service, Channel.CallGet(ServerThread(s)));
    case ServerCallPut =>
      ChannelStep(s.replies[code.dec(s.server.item).sender], Channel.CallPut(SERVER_SIDE, s.server.item));
    case _ =>
  }

  lemma InServiceKeepsClient(code: Codec, s: State, p: Channel.Step, c: nat)
    requires Shape(s) && c < |s.clients| && ClientControl(code, s, c) && Enabled(code, s, InService(p))
    requires Shape(ApplyInService(s, p))
    ensures ClientControl(code, ApplyInService(s, p), c)
  {
    RolesInside(s.service, p, c);
  }

  lemma InServiceKeepsServer(code: Codec, s: State, p: Channel.Step)
    requires Shape(s) && Ring.Valid(s.service.ring) && ServerControl(code, s) && Enabled(code, s, InService(p))
    requires Shape(ApplyInService(s, p)) && ApplyInService(s, p).service.ring.elemSize == s.service.ring.elemSize
    ensures ServerControl(code, ApplyInService(s, p))
  {
    RolesInside(s.service, p, ServerThread(s));
    if Gets(s.service, p) && p.t == ServerThread(s) {
      assert s.server.Listening?;
    } else {
      assert ApplyInService(s, p).server == s.server;
    }
  }

  lemma InServiceKeepsControl(code: Codec, s: State, p: Channel.Step)
    requires Shape(s) && ChannelsInv(s) && Control(code, s) && Enabled(code, s, InService(p))
    requires Shape(ApplyInService(s, p))
    ensures Control(code, ApplyInService(s, p))
  {
    ChannelStep(s.service, p);
    InServiceKeepsServer(code, s, p);
    forall c: nat | c < |s.clients|
      ensures ClientControl(code, ApplyInService(s, p), c)
    {
      InServiceKeepsClient(code, s, p, c);
    }
  }

  lemma InReplyKeepsControl(code: Codec, s: State, c: nat, p: Channel.Step)
    requires Shape(s) && ChannelsInv(s) && Control(code, s) && Enabled(code, s, InReply(c, p))
    requires Shape(ApplyInReply(code, s, c, p))
    ensures Control(code, ApplyInReply(code, s, c, p))
  {
    var s' := ApplyInReply(code, s, c, p);
    assert ClientControl(code, s, c);
    RolesInside(s.replies[c], p, CLIENT_SIDE);
    RolesInside(s.replies[c], p, SERVER_SIDE);
    forall u: nat | u < |s.clients|
      ensures ClientControl(code, s', u)
    {
      assert ClientControl(code, s, u);
    }
  }

  lemma CallKeepsControl(code: Codec, s: State, step: Step)
    requires Shape(s) && Control(code, s) && Enabled(code, s, step) && Shape(Apply(code, s, step))
    requires !step.InService? && !step.InReply?
    ensures Control(code, Apply(code, s, step))
  {
    var s' := Apply(code, s, step);
    forall u: nat | u < |s.clients|
      ensures ClientControl(code, s', u)
    {
      assert ClientControl(code, s, u);
    }
  }

  lemma StepKeepsControl(code: Codec, s: State, step: Step)
    requires Shape(s) && ChannelsInv(s) && Control(code, s) && Enabled(code, s, step) && Shape(Apply(code, s, step))
    ensures Control(code, Apply(code, s, step))
  {
    match step
    case InService(p) => InServiceKeepsControl(code, s, p);
    case InReply(c, p) => InReplyKeepsControl(code, s, c, p);
    case _ => CallKeepsControl(code, s, step);
  }

  // ----- Every step is a step of the protocol, or none -----

  lemma MessagesAfterPut(code: Codec, ring: Ring.Ring, item: Item)
    requires Ring.Valid(ring) && ring.size < ring.capacity && |item| == ring.elemSize
    ensures Ring.Valid(Ring.PutSpec(ring, item))
    ensures Messages(code, Ring.PutSpec(ring, item)) == Messages(code, ring) + [code.dec(item)]
  {
    Ring.PutAppends(ring, item);
  }

  lemma MessagesAfterGet(code: Codec, ring: Ring.Ring)
    requires Ring.Valid(ring) && ring.size > 0
    ensures Ring.Valid(Ring.GetSpec(ring)) && Messages(code, ring) != []
    ensures Messages(code, ring)[0] == code.dec(Ring.Slot(ring, ring.iget))
    ensures Messages(code, Ring.GetSpec(ring)) == Messages(code, ring)[1..]
  {
    Ring.GetRemovesFirst(ring);
    assert Ring.Contents(ring)[0] == Ring.Slot(ring, ring.iget);
  }

  /** Changing one client and its reply channel changes one client of the protocol. */
  lemma OneClientChanges(code: Codec, s: State, s': State, c: nat)
    requires Readable(s) && Readable(s') && c < |s.clients| == |s'.clients|
    requires s'.clients == s.clients[c := s'.clients[c]]
    requires forall u :: 0 <= u < |s.replies| && u != c ==> s'.replies[u].ring == s.replies[u].ring
    ensures AbsClients(code, s') == AbsClients(code, s)[c := AbsClient(code, s'.clients[c], s'.replies[c].ring)]
  {
  }

  lemma NoClientChanges(code: Codec, s: State, s': State)
    requires Readable(s) && Readable(s') && s'.clients == s.clients
    requires forall u :: 0 <= u < |s.replies| ==> s'.replies[u].ring == s.replies[u].ring
    ensures AbsClients(code, s') == AbsClients(code, s)
  {
  }

  /** `es` is one step from `a` to `a'`, or there is none and nothing has changed. */
  predicate Simulates(a: Echo.State, es: seq<Echo.Step>, a': Echo.State) {
    if es == [] then a == a' else |es| == 1 && Echo.Enabled(a, es[0]) && a' == Echo.Apply(a, es[0])
  }

  lemma ServicePutSimulates(code: Codec, s: State, p: Channel.Step)
    requires Inv(code, s) && Enabled(code, s, InService(p)) && Puts(s.service, p)
    requires Readable(ApplyInService(s, p))
    ensures Simulates(Abs(code, s), [Echo.ClientPut(p.t)], Abs(code, ApplyInService(s, p)))
  {
    var s', c, item := ApplyInService(s, p), p.t, s.service.pcs[p.t].item;
    RolesInside(s.service, p, c);
    assert c < |s.clients|;
    assert ClientControl(code, s, c);
    MessagesAfterPut(code, s.service.ring, item);
    OneClientChanges(code, s, s', c);
  }

  lemma ServiceGetSimulates(code: Codec, s: State, p: Channel.Step)
    requires Inv(code, s) && Enabled(code, s, InService(p)) && Gets(s.service, p)
    requires Readable(ApplyInService(s, p))
    ensures Simulates(Abs(code, s), [Echo.ServerGet], Abs(code, ApplyInService(s, p)))
  {
    var s' := ApplyInService(s, p);
    RolesInside(s.service, p, p.t);
    forall c: nat | c < |s.clients|
      ensures RoleOf(s.service.pcs[c]) != Getting
    {
      assert ClientControl(code, s, c);
    }
    MessagesAfterGet(code, s.service.ring);
    NoClientChanges(code, s, s');
  }

  lemma PutterIsServer(code: Codec, s: State, c: nat, p: Channel.Step)
    requires Shape(s) && Control(code, s) && Enabled(code, s, InReply(c, p)) && Puts(s.replies[c], p)
    ensures p.t == SERVER_SIDE && s.server == Holding(s.replies[c].pcs[p.t].item)
    ensures code.dec(s.server.item).sender == c
  {
    RolesInside(s.replies[c], p, p.t);
    assert ClientControl(code, s, c);
  }

  lemma GetterIsClient(code: Codec, s: State, c: nat, p: Channel.Step)
    requires Shape(s) && Control(code, s) && Enabled(code, s, InReply(c, p)) && Gets(s.replies[c], p)
    ensures p.t == CLIENT_SIDE && s.clients[c].waiting
  {
    RolesInside(s.replies[c], p, p.t);
    assert ClientControl(code, s, c);
  }

  lemma ReplyPutSimulates(code: Codec, s: State, c: nat, p: Channel.Step)
    requires Inv(code, s) && Enabled(code, s, InReply(c, p)) && Puts(s.replies[c], p)
    requires Readable(ApplyInReply(code, s, c, p))
    ensures Simulates(Abs(code, s), [Echo.ServerPut], Abs(code, ApplyInReply(code, s, c, p)))
  {
    PutterIsServer(code, s, c, p);
    Echo.HeldSenderWaits(Abs(code, s));
    MessagesAfterPut(code, s.replies[c].ring, s.replies[c].pcs[p.t].item);
    OneClientChanges(code, s, ApplyInReply(code, s, c, p), c);
  }

  lemma ReplyGetSimulates(code: Codec, s: State, c: nat, p: Channel.Step)
    requires Shape(s) && ChannelsInv(s) && Control(code, s) && Enabled(code, s, InReply(c, p)) && Gets(s.replies[c], p)
    requires Readable(ApplyInReply(code, s, c, p))
    ensures Simulates(Abs(code, s), [Echo.ClientGet(c)], Abs(code, ApplyInReply(code, s, c, p)))
  {
    GetterIsClient(code, s, c, p);
    MessagesAfterGet(code, s.replies[c].ring);
    OneClientChanges(code, s, ApplyInReply(code, s, c, p), c);
  }

  /** Calls, waits, signals and wake-ups move no item. */
  lemma OtherStepSimulates(code: Codec, s: State, step: Step)
    requires Inv(code, s) && Enabled(code, s, step) && Readable(Apply(code, s, step))
    requires Meaning(code, s, step) == []
    ensures Abs(code, Apply(code, s, step)) == Abs(code, s)
  {
    NoClientChanges(code, s, Apply(code, s, step));
  }

  lemma InServiceSimulates(code: Codec, s: State, p: Channel.Step)
    requires Inv(code, s) && Enabled(code, s, InService(p)) && Readable(ApplyInService(s, p))
    ensures Simulates(Abs(code, s), Meaning(code, s, InService(p)), Abs(code, ApplyInService(s, p)))
  {
    if Puts(s.service, p) {
      ServicePutSimulates(code, s, p);
    } else if Gets(s.service, p) {
      ServiceGetSimulates(code, s, p);
    } else {
      OtherStepSimulates(code, s, InService(p));
    }
  }

  lemma InReplySimulates(code: Codec, s: State, c: nat, p: Channel.Step)
    requires Inv(code, s) && Enabled(code, s, InReply(c, p)) && Readable(ApplyInReply(code, s, c, p))
    ensures Simulates(Abs(code, s), Meaning(code, s, InReply(c, p)), Abs(code, ApplyInReply(code, s, c, p)))
  {
    if Puts(s.replies[c], p) {
      ReplyPutSimulates(code, s, c, p);
    } else if Gets(s.replies[c], p) {
      ReplyGetSimulates(code, s, c, p);
    } else {
      OtherStepSimulates(code, s, InReply(c, p));
    }
  }

  lemma StepSimulates(code: Codec, s: State, step: Step)
    requires Inv(code, s) && Enabled(code, s, step) && Readable(Apply(code, s, step))
    ensures Simulates(Abs(code, s), Meaning(code, s, step), Abs(code, Apply(code, s, step)))
  {
    match step
    case InService(p) => InServiceSimulates(code, s, p);
    case InReply(c, p) => InReplySimulates(code, s, c, p);
    case ClientDestroy(c) => OneClientChanges(code, s, Apply(code, s, step), c);
    case ServerBreak => NoClientChanges(code, s, Apply(code, s, step));
    case _ => OtherStepSimulates(code, s, step);
  }

  lemma StepKeepsInv(code: Codec, s: State, step: Step)
    requires Inv(code, s) && Enabled(code, s, step)
    ensures Inv(code, Apply(code, s, step))
    ensures Simulates(Abs(code, s), Meaning(code, s, step), Abs(code, Apply(code, s, step)))
  {
    if step.InService? || step.InReply? {
      InsideKeepsChannels(code, s, step);
    } else {
      CallKeepsChannels(code, s, step);
    }
    StepKeepsControl(code, s, step);
    StepSimulates(code, s, step);
    if Meaning(code, s, step) != [] {
      Echo.StepKeepsInv(Abs(code, s), Meaning(code, s, step)[0]);
    }
  }

  // ----- Runs -----

  ghost function Meanings(code: Codec, s: State, steps: seq<Step>): seq<Echo.Step>
    decreases |steps|
  {
    if steps == [] || !Enabled(code, s, steps[0]) then []
    else Meaning(code, s, steps[0]) + Meanings(code, Apply(code, s, steps[0]), steps[1..])
  }

  lemma EchoRunStep(a: Echo.State, es: seq<Echo.Step>, mid: Echo.State, rest: seq<Echo.Step>, a': Echo.State)
    requires Simulates(a, es, mid) && Echo.Run(mid, rest, a')
    ensures Echo.Run(a, es + rest, a')
  {
    if es == [] {
      assert es + rest == rest;
    } else {
      assert (es + rest)[1..] == rest;
    }
  }

  /** Every run over real channels is a run of the protocol over atomic ones. */
  lemma {:induction false} RunSimulates(code: Codec, s: State, steps: seq<Step>, s': State)
    requires Inv(code, s) && Run(code, s, steps, s')
    ensures Inv(code, s') && Echo.Run(Abs(code, s), Meanings(code, s, steps), Abs(code, s'))
    decreases |steps|
  {
    if steps != [] {
      var next := Apply(code, s, steps[0]);
      StepKeepsInv(code, s, steps[0]);
      RunSimulates(code, next, steps[1..], s');
      EchoRunStep(Abs(code, s), Meaning(code, s, steps[0]), Abs(code, next), Meanings(code, next, steps[1..]),
                  Abs(code, s'));
    }
  }

  lemma {:induction false} ScriptsStay(code: Codec, s: State, steps: seq<Step>, s': State)
    requires Run(code, s, steps, s')
    ensures |s'.clients| == |s.clients| && s'.service.ring.capacity == s.service.ring.capacity
    ensures s'.service.ring.elemSize == s.service.ring.elemSize
    ensures forall c :: 0 <= c < |s.clients| ==> s'.clients[c].script == s.clients[c].script
    decreases |steps|
  {
    if steps != [] {
      ScriptsStay(code, Apply(code, s, steps[0]), steps[1..], s');
    }
  }

  /** Over real channels too the i-th reply of a client is its i-th request, and the server, when it has a message and
      makes its call, finds the reply channel open and with room. */
  lemma ServiceIsFaithful(code: Codec, s: State, steps: seq<Step>, s': State)
    requires IsStart(s) && Run(code, s, steps, s')
    ensures |s'.clients| == |s.clients| == |s'.replies|
    ensures forall c :: 0 <= c < |s.clients| ==> s'.clients[c].got <= s.clients[c].script
    ensures s'.server.Holding? ==>
              var c := code.dec(s'.server.item).sender; CanOpen(s', c) && s'.replies[c].ring.size == 0
    ensures !s'.server.Stopped?
  {
    StartInv(code, s);
    RunSimulates(code, s, steps, s');
    ScriptsStay(code, s, steps, s');
    Echo.EchoIsFaithful(Abs(code, s), Meanings(code, s, steps), Abs(code, s'));
    forall c: nat | c < |s.clients|
      ensures s'.clients[c].got <= s.clients[c].script
    {
      assert Abs(code, s').clients[c].got <= Abs(code, s).clients[c].script;
    }
    if s'.server.Holding? {
      Echo.HeldSenderWaits(Abs(code, s'));
    }
  }

  // ----- Nobody gets stuck -----

  /** Every message that is going to be sent fits an item, and can be read back from it. */
  ghost predicate Fits(code: Codec, s: State) {
    forall c, i :: 0 <= c < |s.clients| && 0 <= i < |s.clients[c].script| ==>
      var m := Echo.Msg(c, s.clients[c].script[i]);
      |code.enc(m)| == s.service.ring.elemSize && code.dec(code.enc(m)) == m
  }

  predicate IsSpurious(step: Step) {
    (step.InService? && step.p.SpuriousWake?) || (step.InReply? && step.p.SpuriousWake?)
  }

  /** A thread that is neither out nor blocked has a next step in its channel. */
  lemma BusyThreadGoesOn(ch: Channel.State, t: nat) returns (p: Channel.Step)
    requires Channel.Inv(ch) && t < |ch.pcs|
    requires ch.pcs[t] != Channel.Idle && !ch.pcs[t].PutBlocked? && ch.pcs[t] != Channel.GetBlocked
    ensures Channel.Enabled(ch, p) && IsInside(p) && !p.SpuriousWake?
  {
    match ch.pcs[t]
    case PutReady(_) => p := Channel.PutCheck(t);
    case GetReady => p := Channel.GetCheck(t);
    case SignallingItems =>
      p := Channel.SignalItems(t, 0);
      if Channel.SomeBlocked(ch.pcs, Channel.GetIsBlocked) {
        var u: nat :| u < |ch.pcs| && Channel.GetIsBlocked(ch.pcs[u]);
        p := Channel.SignalItems(t, u);
      }
    case SignallingSpace =>
      p := Channel.SignalSpace(t, 0);
      if Channel.SomeBlocked(ch.pcs, Channel.PutIsBlocked) {
        var u: nat :| u < |ch.pcs| && Channel.PutIsBlocked(ch.pcs[u]);
        p := Channel.SignalSpace(t, u);
      }
  }

  /** Some step other than a spurious wake-up can be taken. */
  ghost predicate CanMove(code: Codec, s: State) {
    exists step :: Enabled(code, s, step) && !IsSpurious(step)
  }

  lemma BusyChannelMoves(code: Codec, s: State)
    requires Shape(s) && ChannelsInv(s)
    requires !Channel.Quiet(s.service) || exists c :: 0 <= c < |s.replies| && !Channel.Quiet(s.replies[c])
    ensures CanMove(code, s)
  {
    if !Channel.Quiet(s.service) {
      var t: nat :| t < |s.service.pcs| && s.service.pcs[t] != Channel.Idle && !s.service.pcs[t].PutBlocked?
                    && s.service.pcs[t] != Channel.GetBlocked;
      var p := BusyThreadGoesOn(s.service, t);
      assert Enabled(code, s, InService(p));
    } else {
      var c: nat :| c < |s.replies| && !Channel.Quiet(s.replies[c]);
      var t: nat :| t < |s.replies[c].pcs| && s.replies[c].pcs[t] != Channel.Idle && !s.replies[c].pcs[t].PutBlocked?
                    && s.replies[c].pcs[t] != Channel.GetBlocked;
      var p := BusyThreadGoesOn(s.replies[c], t);
      assert Enabled(code, s, InReply(c, p));
    }
  }

  ghost predicate AllQuiet(s: State) {
    Channel.Quiet(s.service) && forall c :: 0 <= c < |s.replies| ==> Channel.Quiet(s.replies[c])
  }

  /** In a quiet channel a thread is out, or puts to a full ring, or gets from an empty one. */
  lemma QuietThread(ch: Channel.State, t: nat)
    requires Channel.Inv(ch) && Channel.Quiet(ch) && t < |ch.pcs|
    ensures match RoleOf(ch.pcs[t])
            case Out => IsOut(ch, t)
            case Putting(_) => ch.ring.size == ch.ring.capacity
            case Getting => ch.ring.size == 0
  {
    Channel.QuietCover(ch);
  }

  lemma HoldingServerMoves(code: Codec, s: State)
    requires Inv(code, s) && AllQuiet(s) && s.server.Holding?
    ensures CanMove(code, s)
  {
    var sender := code.dec(s.server.item).sender;
    Echo.HeldSenderWaits(Abs(code, s));
    QuietThread(s.service, ServerThread(s));
    forall c: nat | c < |s.replies|
      ensures IsOut(s.replies[c], SERVER_SIDE)
    {
      QuietThread(s.replies[c], SERVER_SIDE);
    }
    assert Enabled(code, s, ServerCallPut);
  }

  lemma ListeningServerMoves(code: Codec, s: State)
    requires Inv(code, s) && AllQuiet(s) && s.server.Listening? && s.service.ring.size > 0
    ensures CanMove(code, s)
  {
    QuietThread(s.service, ServerThread(s));
    forall c: nat | c < |s.replies|
      ensures IsOut(s.replies[c], SERVER_SIDE)
    {
      QuietThread(s.replies[c], SERVER_SIDE);
    }
    assert Enabled(code, s, ServerCallGet);
  }

  lemma ClientMoves(code: Codec, s: State, c: nat)
    requires Inv(code, s) && AllQuiet(s) && s.server.Listening? && s.service.ring.size == 0 < s.service.ring.capacity
    requires Fits(code, s) && c < |s.clients| && s.clients[c].sent < |s.clients[c].script|
    ensures CanMove(code, s)
  {
    assert ClientControl(code, s, c);
    QuietThread(s.service, c);
    QuietThread(s.replies[c], CLIENT_SIDE);
    var a := Abs(code, s);
    assert Echo.ClientInv(a, c);
    CountNone(a.requests, Echo.From(c));
    if s.clients[c].waiting {
      assert s.replies[c].ring.size == 1;
      assert Enabled(code, s, ClientCallGet(c));
    } else {
      var item := code.enc(Echo.Msg(c, s.clients[c].script[s.clients[c].sent]));
      assert Enabled(code, s, ClientCallPut(c, item));
    }
  }

  lemma DoneClientMoves(code: Codec, s: State, c: nat)
    requires Inv(code, s) && AllQuiet(s) && c < |s.clients|
    requires s.clients[c].sent == |s.clients[c].script| && !s.clients[c].destroyed
    ensures Enabled(code, s, ClientDestroy(c))
  {
    assert ClientControl(code, s, c);
    assert Echo.ClientInv(Abs(code, s), c);
    QuietThread(s.service, c);
    QuietThread(s.replies[c], CLIENT_SIDE);
  }

  /** Client `c` has all its replies and has destroyed its channel. */
  predicate IsDone(s: State, c: nat)
    requires c < |s.clients|
  {
    s.clients[c].got == s.clients[c].script && s.clients[c].destroyed
  }

  predicate AllDone(s: State) {
    forall c :: 0 <= c < |s.clients| ==> IsDone(s, c)
  }

  /** The service channel has room for a message, or none is ever going to be sent. */
  predicate HasRoom(s: State) {
    s.service.ring.capacity > 0 || forall c :: 0 <= c < |s.clients| ==> s.clients[c].script == []
  }

  /** Clients and server are never all stuck, with single signals, wake-ups that may be spurious, and reply channels
      for one message: unless all is done, some thread has a step that is no spurious wake-up. */
  lemma NobodyGetsStuck(code: Codec, s: State, c: nat)
    requires Inv(code, s) && Fits(code, s) && HasRoom(s) && c < |s.clients| && !IsDone(s, c)
    ensures CanMove(code, s)
  {
    assert Echo.ClientInv(Abs(code, s), c);
    if !AllQuiet(s) {
      BusyChannelMoves(code, s);
    } else if s.server.Holding? {
      HoldingServerMoves(code, s);
    } else if s.service.ring.size > 0 {
      ListeningServerMoves(code, s);
    } else if s.clients[c].sent < |s.clients[c].script| {
      ClientMoves(code, s, c);
    } else {
      DoneClientMoves(code, s, c);
      assert Enabled(code, s, ClientDestroy(c));
    }
  }

  // ----- Every conversation ends -----

  function PcWeight(pc: Channel.Pc): int {
    match pc
    case Idle => 2
    case PutReady(_) => 1
    case GetReady => 1
    case PutBlocked(_) => 0
    case GetBlocked => 0
    case SignallingItems => 4
    case SignallingSpace => 4
  }

  function ChannelWeight(ch: Channel.State): int {
    Total(ch.pcs, PcWeight)
  }

  function Undestroyed(cl: Client): int {
    if cl.destroyed then 0 else 1
  }

  /** The weight of all the channels. */
  function Weight(s: State): int {
    ChannelWeight(s.service) + Total(s.replies, ChannelWeight)
  }

  /** Four for each put and get of an item still to come, and what the threads have to do inside the channels. */
  function Measure(code: Codec, s: State): int
    requires Readable(s)
  {
    Weight(s) + 4 * Echo.StepsLeft(Abs(code, s)) + Total(s.clients, Undestroyed)
  }

  lemma MeasureIsNat(code: Codec, s: State)
    requires Inv(code, s)
    ensures Measure(code, s) >= 0
  {
    Echo.StepsLeftIsNat(Abs(code, s));
    TotalZero(s.service.pcs, PcWeight);
    forall c: nat | c < |s.replies|
      ensures 0 <= ChannelWeight(s.replies[c])
    {
      TotalZero(s.replies[c].pcs, PcWeight);
    }
    TotalZero(s.replies, ChannelWeight);
    TotalZero(s.clients, Undestroyed);
  }

  /** What a step adds to the weight of its channel at most. */
  function Change(ch: Channel.State, p: Channel.Step): int {
    if Puts(ch, p) || Gets(ch, p) then 3 else if p.SpuriousWake? then 1 else -1
  }

  lemma SignalLowersWeight(pcs: seq<Channel.Pc>, t: nat, target: nat, p: Channel.Pc -> bool)
    requires t < |pcs| && (pcs[t] == Channel.SignallingItems || pcs[t] == Channel.SignallingSpace) && !p(pcs[t])
    requires Channel.SomeBlocked(pcs, p) ==> target < |pcs| && p(pcs[target])
    requires forall pc :: p(pc) ==> PcWeight(Channel.Woken(pc)) <= PcWeight(pc) + 1
    ensures Total(Channel.Signal(pcs, t, target, p), PcWeight) <= Total(pcs, PcWeight) - 1
  {
    TotalUpdate(pcs, t, Channel.Idle, PcWeight);
    if Channel.SomeBlocked(pcs, p) {
      TotalUpdate(pcs[t := Channel.Idle], target, Channel.Woken(pcs[target]), PcWeight);
    }
  }

  lemma WeightChanges(ch: Channel.State, p: Channel.Step)
    requires Channel.Enabled(ch, p)
    ensures ChannelWeight(Channel.Apply(ch, p)) <= ChannelWeight(ch) + Change(ch, p)
  {
    match p
    case SignalItems(t, target) => SignalLowersWeight(ch.pcs, t, target, Channel.GetIsBlocked);
    case SignalSpace(t, target) => SignalLowersWeight(ch.pcs, t, target, Channel.PutIsBlocked);
    case _ =>
      TotalUpdate(ch.pcs, p.t, Channel.Apply(ch, p).pcs[p.t], PcWeight);
      assert Channel.Apply(ch, p).pcs == ch.pcs[p.t := Channel.Apply(ch, p).pcs[p.t]];
  }

  function ChannelChange(code: Codec, s: State, step: Step): int
    requires Enabled(code, s, step)
  {
    match step
    case InService(p) => Change(s.service, p)
    case InReply(c, p) => Change(s.replies[c], p)
    case ClientDestroy(_) => 0
    case ServerBreak => 0
    case _ => -1
  }

  lemma InsideChangesWeight(code: Codec, s: State, step: Step)
    requires Enabled(code, s, step) && (step.InService? || step.InReply?)
    ensures Weight(Apply(code, s, step)) <= Weight(s) + ChannelChange(code, s, step)
  {
    match step
    case InService(p) => WeightChanges(s.service, p);
    case InReply(c, p) =>
      WeightChanges(s.replies[c], p);
      TotalUpdate(s.replies, c, Channel.Apply(s.replies[c], p), ChannelWeight);
    case _ =>
  }

  lemma ReplyCallChangesWeight(s: State, c: nat, p: Channel.Step)
    requires c < |s.replies| && Channel.Enabled(s.replies[c], p) && !IsInside(p)
    ensures Weight(s.(replies := s.replies[c := Channel.Apply(s.replies[c], p)])) <= Weight(s) - 1
  {
    WeightChanges(s.replies[c], p);
    TotalUpdate(s.replies, c, Channel.Apply(s.replies[c], p), ChannelWeight);
  }

  lemma CallChangesWeight(code: Codec, s: State, step: Step)
    requires Enabled(code, s, step) && !step.InService? && !step.InReply?
    ensures Weight(Apply(code, s, step)) <= Weight(s) + ChannelChange(code, s, step)
  {
    match step
    case ClientCallPut(c, item) => WeightChanges(s.service, Channel.CallPut(c, item));
    case ServerCallGet => WeightChanges(s.service, Channel.CallGet(ServerThread(s)));
    case ClientCallGet(c) => ReplyCallChangesWeight(s, c, Channel.CallGet(CLIENT_SIDE));
    case ServerCallPut =>
      ReplyCallChangesWeight(s, code.dec(s.server.item).sender, Channel.CallPut(SERVER_SIDE, s.server.item));
    case _ =>
  }

  lemma ClientsChange(code: Codec, s: State, step: Step)
    requires Enabled(code, s, step)
    ensures Total(Apply(code, s, step).clients, Undestroyed)
         == Total(s.clients, Undestroyed) - if step.ClientDestroy? then 1 else 0
  {
    match step
    case InService(p) =>
      if Puts(s.service, p) && p.t < |s.clients| {
        TotalUpdate(s.clients, p.t, Apply(code, s, step).clients[p.t], Undestroyed);
      }
    case InReply(c, p) =>
      TotalUpdate(s.clients, c, Apply(code, s, step).clients[c], Undestroyed);
      assert s.clients[c := s.clients[c]] == s.clients;
    case ClientDestroy(c) => TotalUpdate(s.clients, c, Apply(code, s, step).clients[c], Undestroyed);
    case _ =>
  }

  lemma SimulationCountsDown(a: Echo.State, es: seq<Echo.Step>, a': Echo.State)
    requires Echo.Inv(a) && Simulates(a, es, a')
    ensures Echo.StepsLeft(a') == Echo.StepsLeft(a) - if es == [] || es[0].ClientDestroy? then 0 else 1
  {
    if es != [] {
      Echo.StepCountsDown(a, es[0]);
    }
  }

  lemma WeightBound(code: Codec, s: State, step: Step)
    requires Enabled(code, s, step)
    ensures Weight(Apply(code, s, step)) <= Weight(s) + ChannelChange(code, s, step)
  {
    if step.InService? || step.InReply? {
      InsideChangesWeight(code, s, step);
    } else {
      CallChangesWeight(code, s, step);
    }
  }

  lemma ServerNeverBreaks(code: Codec, s: State)
    requires Inv(code, s)
    ensures !Enabled(code, s, ServerBreak)
  {
    if s.server.Holding? {
      Echo.HeldSenderWaits(Abs(code, s));
    }
  }

  /** What a step may add to the measure, part by part. */
  lemma PartsAddUp(code: Codec, s: State, step: Step)
    requires Enabled(code, s, step) && !step.ServerBreak?
    ensures ChannelChange(code, s, step)
              - (if Meaning(code, s, step) == [] || Meaning(code, s, step)[0].ClientDestroy? then 0 else 4)
              - (if step.ClientDestroy? then 1 else 0)
         <= if IsSpurious(step) then 1 else -1
  {
  }

  /** Every step but a spurious wake-up brings the measure down, and that raises it by one. */
  lemma StepBound(code: Codec, s: State, step: Step)
    requires Inv(code, s) && Enabled(code, s, step)
    ensures Inv(code, Apply(code, s, step))
    ensures Measure(code, Apply(code, s, step)) <= Measure(code, s) + if IsSpurious(step) then 1 else -1
  {
    ServerNeverBreaks(code, s);
    StepKeepsInv(code, s, step);
    SimulationCountsDown(Abs(code, s), Meaning(code, s, step), Abs(code, Apply(code, s, step)));
    ClientsChange(code, s, step);
    WeightBound(code, s, step);
    PartsAddUp(code, s, step);
  }

  function SpuriousSteps(steps: seq<Step>): nat {
    if steps == [] then 0 else (if IsSpurious(steps[0]) then 1 else 0) + SpuriousSteps(steps[1..])
  }

  /** A run has no more steps than the measure at its start and its spurious wake-ups allow. */
  lemma {:induction false} RunsAreBounded(code: Codec, s: State, steps: seq<Step>, s': State)
    requires Inv(code, s) && Run(code, s, steps, s')
    ensures |steps| <= Measure(code, s) + 2 * SpuriousSteps(steps)
    decreases |steps|
  {
    if steps == [] {
      MeasureIsNat(code, s);
    } else {
      StepBound(code, s, steps[0]);
      RunsAreBounded(code, Apply(code, s, steps[0]), steps[1..], s');
    }
  }

  lemma StepKeepsScripts(code: Codec, s: State, step: Step)
    requires Enabled(code, s, step)
    ensures var s' := Apply(code, s, step);
            && |s'.clients| == |s.clients|
            && (forall c :: 0 <= c < |s.clients| ==> s'.clients[c].script == s.clients[c].script)
            && s'.service.ring.elemSize == s.service.ring.elemSize
            && s'.service.ring.capacity == s.service.ring.capacity
  {
    ScriptsStay(code, s, [step], Apply(code, s, step));
  }

  /** Steps that are no spurious wake-ups, whichever are chosen, lead to the end. */
  lemma {:induction false} FinishService(code: Codec, s: State) returns (steps: seq<Step>, s': State)
    requires Inv(code, s) && Fits(code, s) && HasRoom(s)
    ensures Run(code, s, steps, s') && AllDone(s')
    decreases Measure(code, s)
  {
    if AllDone(s) {
      steps, s' := [], s;
    } else {
      var c: nat :| c < |s.clients| && !IsDone(s, c);
      NobodyGetsStuck(code, s, c);
      var step :| Enabled(code, s, step) && !IsSpurious(step);
      MeasureIsNat(code, s);
      StepBound(code, s, step);
      StepKeepsScripts(code, s, step);
      MeasureIsNat(code, Apply(code, s, step));
      var rest;
      rest, s' := FinishService(code, Apply(code, s, step));
      steps := [step] + rest;
      assert steps[1..] == rest;
    }
  }

  lemma NothingWithoutRoom(code: Codec, s: State, steps: seq<Step>, s': State)
    requires Inv(code, s) && Echo.NothingHasHappened(Abs(code, s)) && Run(code, s, steps, s')
    ensures Inv(code, s') && Echo.NothingHasHappened(Abs(code, s'))
    ensures forall c :: 0 <= c < |s'.clients| ==> s'.clients[c].got == []
  {
    RunSimulates(code, s, steps, s');
    Echo.NothingHappens(Abs(code, s), Meanings(code, s, steps), Abs(code, s'));
    forall c: nat | c < |s'.clients|
      ensures s'.clients[c].got == []
    {
      assert Abs(code, s').clients[c].got == [];
    }
  }

  /** From every reachable state all clients can still get all their replies and destroy their channels, exactly when
      the service channel has room for a message or there is nothing to send. */
  lemma ServiceCompletesExactly(code: Codec, s: State, steps: seq<Step>, s': State)
    requires IsStart(s) && Fits(code, s) && Run(code, s, steps, s')
    ensures (exists more, end :: Run(code, s', more, end) && AllDone(end)) <==> HasRoom(s)
  {
    StartInv(code, s);
    RunSimulates(code, s, steps, s');
    ScriptsStay(code, s, steps, s');
    if HasRoom(s) {
      var more, end := FinishService(code, s');
      assert exists more, end :: Run(code, s', more, end) && AllDone(end);
    } else {
      var c: nat :| c < |s.clients| && s.clients[c].script != [];
      NothingWithoutRoom(code, s, steps, s');
      forall more, end | Run(code, s', more, end)
        ensures !AllDone(end)
      {
        NothingWithoutRoom(code, s', more, end);
        ScriptsStay(code, s', more, end);
        assert AllDone(end) ==> IsDone(end, c);
      }
    }
  }

  /** No step leaves everything as it was: a call begins, a wake-up wakes, a destroyed channel is gone. */
  lemma EveryStepMoves(code: Codec, s: State, step: Step)
    requires Enabled(code, s, step)
    ensures Apply(code, s, step) != s
  {
    match step
    case InService(p) => Channel.EveryStepMoves(s.service, p);
    case InReply(c, p) => Channel.EveryStepMoves(s.replies[c], p);
    case ClientCallPut(c, item) => Channel.EveryStepMoves(s.service, Channel.CallPut(c, item));
    case ClientCallGet(c) => Channel.EveryStepMoves(s.replies[c], Channel.CallGet(CLIENT_SIDE));
    case ClientDestroy(c) => assert Apply(code, s, step).clients[c] != s.clients[c];
    case ServerCallGet => Channel.EveryStepMoves(s.service, Channel.CallGet(ServerThread(s)));
    case ServerCallPut =>
      var c := code.dec(s.server.item).sender;
      Channel.EveryStepMoves(s.replies[c], Channel.CallPut(SERVER_SIDE, s.server.item));
    case ServerBreak =>
  }
}
