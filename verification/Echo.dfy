/** The echo protocol: clients put requests on the service channel and wait for each reply on a channel of their own
    with room for one message. Channels are atomic bounded FIFOs here; module EchoService has the real ones. */
module Echo {
  import opened Threads

  /** `sender` stands for the process id from which the name of the reply channel is made. */
  datatype Msg = Msg(sender: nat, text: string)

  /** A client with the texts it is going to send, how many exchanges it has finished, whether it waits for a reply,
      its reply channel, the texts it got back, and whether it has destroyed the channel. */
  datatype Client = Client(script: seq<string>, sent: nat, waiting: bool, reply: seq<Msg>, got: seq<string>,
                           destroyed: bool)

  datatype Server = Listening | Holding(msg: Msg) | Stopped

  datatype State = State(capacity: nat, requests: seq<Msg>, server: Server, clients: seq<Client>)

  datatype Step = ClientPut(c: nat) | ServerGet | ServerPut | ServerBreak | ClientGet(c: nat) | ClientDestroy(c: nat)

  const REPLY_CAPACITY: nat := 1

  predicate IsStart(s: State) {
    && s.requests == [] && s.server == Listening
    && forall c :: 0 <= c < |s.clients| ==> s.clients[c] == Client(s.clients[c].script, 0, false, [], [], false)
  }

  /** `mc_open` finds the reply channel: its owner has created it and not destroyed it. */
  predicate CanOpen(s: State, sender: nat) {
    sender < |s.clients| && !s.clients[sender].destroyed
  }

  predicate Enabled(s: State, step: Step) {
    match step
    case ClientPut(c) =>
      && c < |s.clients| && !s.clients[c].waiting && s.clients[c].sent < |s.clients[c].script|
      && |s.requests| < s.capacity
    case ServerGet => s.server.Listening? && s.requests != []
    case ServerPut =>
      && s.server.Holding? && CanOpen(s, s.server.msg.sender)
      && |s.clients[s.server.msg.sender].reply| < REPLY_CAPACITY
    case ServerBreak => s.server.Holding? && !CanOpen(s, s.server.msg.sender)
    case ClientGet(c) => c < |s.clients| && s.clients[c].waiting && s.clients[c].reply != []
    case ClientDestroy(c) =>
      c < |s.clients| && !s.clients[c].waiting && s.clients[c].sent >= |s.clients[c].script| && !s.clients[c].destroyed
  }

  function Apply(s: State, step: Step): State
    requires Enabled(s, step)
  {
    match step
    case ClientPut(c) =>
      var cl := s.clients[c];
      s.(requests := s.requests + [Msg(c, cl.script[cl.sent])], clients := s.clients[c := cl.(waiting := true)])
    case ServerGet => s.(requests := s.requests[1..], server := Holding(s.requests[0]))
    case ServerPut =>
      var cl := s.clients[s.server.msg.sender];
      s.(server := Listening, clients := s.clients[s.server.msg.sender := cl.(reply := cl.reply + [s.server.msg])])
    case ServerBreak => s.(server := Stopped)
    case ClientGet(c) =>
      var cl := s.clients[c];
      s.(clients := s.clients[c := cl.(waiting := false, sent := cl.sent + 1, reply := cl.reply[1..],
                                       got := cl.got + [cl.reply[0].text])])
    case ClientDestroy(c) => s.(clients := s.clients[c := s.clients[c].(destroyed := true)])
  }

  ghost predicate Run(s: State, steps: seq<Step>, s': State)
    decreases |steps|
  {
    if steps == [] then s == s' else Enabled(s, steps[0]) && Run(Apply(s, steps[0]), steps[1..], s')
  }

  // ----- The invariant -----

  function From(c: nat): Msg -> bool { (m: Msg) => m.sender == c }

  /** Messages of client `c` between its put and its get. */
  function InFlight(s: State, c: nat): nat
    requires c < |s.clients|
  {
    Count(s.requests, From(c)) + (if s.server.Holding? && s.server.msg.sender == c then 1 else 0)
      + |s.clients[c].reply|
  }

  /** A message under way is the request its sender is waiting on. */
  ghost predicate IsCurrent(s: State, m: Msg) {
    && m.sender < |s.clients|
    && s.clients[m.sender].sent < |s.clients[m.sender].script|
    && m.text == s.clients[m.sender].script[s.clients[m.sender].sent]
  }

  ghost predicate ClientInv(s: State, c: nat)
    requires c < |s.clients|
  {
    var cl := s.clients[c];
    && InFlight(s, c) == (if cl.waiting then 1 else 0)
    && (cl.waiting ==> cl.sent < |cl.script|)
    && (forall i :: 0 <= i < |cl.reply| ==> cl.reply[i].sender == c && IsCurrent(s, cl.reply[i]))
    && cl.sent <= |cl.script| && cl.got == cl.script[..cl.sent]
    && (cl.destroyed ==> !cl.waiting && cl.sent == |cl.script|)
  }

  ghost predicate Inv(s: State) {
    && !s.server.Stopped?
    && (forall c :: 0 <= c < |s.clients| ==> ClientInv(s, c))
    && (forall i :: 0 <= i < |s.requests| ==> IsCurrent(s, s.requests[i]))
    && (s.server.Holding? ==> IsCurrent(s, s.server.msg))
  }

  /** A message in the server's hand makes its sender wait for exactly that one. */
  lemma HeldSenderWaits(s: State)
    requires Inv(s) && s.server.Holding?
    ensures var c := s.server.msg.sender;
            && s.clients[c].waiting && s.clients[c].reply == [] && !s.clients[c].destroyed
            && Count(s.requests, From(c)) == 0
  {
    assert ClientInv(s, s.server.msg.sender);
  }

  lemma ClientPutKeepsInv(s: State, c: nat)
    requires Inv(s) && Enabled(s, ClientPut(c))
    ensures Inv(Apply(s, ClientPut(c)))
  {
    var s' := Apply(s, ClientPut(c));
    forall u: nat | u < |s.clients|
      ensures ClientInv(s', u)
    {
      assert ClientInv(s, u);
      CountAppend(s.requests, s'.requests[|s.requests|], From(u));
    }
  }

  lemma ServerGetKeepsInv(s: State)
    requires Inv(s) && Enabled(s, ServerGet)
    ensures Inv(Apply(s, ServerGet))
  {
    var s' := Apply(s, ServerGet);
    forall u: nat | u < |s.clients|
      ensures ClientInv(s', u)
    {
      assert ClientInv(s, u);
      CountConcat([s.requests[0]], s'.requests, From(u));
      CountAppend([], s.requests[0], From(u));
      assert [] + [s.requests[0]] == [s.requests[0]] && [s.requests[0]] + s'.requests == s.requests;
    }
  }

  lemma ServerPutKeepsInv(s: State)
    requires Inv(s) && Enabled(s, ServerPut)
    ensures Inv(Apply(s, ServerPut))
  {
    var s' := Apply(s, ServerPut);
    forall u: nat | u < |s.clients|
      ensures ClientInv(s', u)
    {
      assert ClientInv(s, u);
    }
  }

  lemma ClientGetKeepsInv(s: State, c: nat)
    requires Inv(s) && Enabled(s, ClientGet(c))
    ensures Inv(Apply(s, ClientGet(c)))
  {
    var s' := Apply(s, ClientGet(c));
    assert ClientInv(s, c);
    CountNone(s.requests, From(c));
    forall u: nat | u < |s.clients|
      ensures ClientInv(s', u)
    {
      assert ClientInv(s, u);
    }
    assert forall i :: 0 <= i < |s.requests| ==> !From(c)(s.requests[i]);
  }

  lemma ClientDestroyKeepsInv(s: State, c: nat)
    requires Inv(s) && Enabled(s, ClientDestroy(c))
    ensures Inv(Apply(s, ClientDestroy(c)))
  {
    var s' := Apply(s, ClientDestroy(c));
    forall u: nat | u < |s.clients|
      ensures ClientInv(s', u)
    {
      assert ClientInv(s, u);
    }
  }

  lemma StepKeepsInv(s: State, step: Step)
    requires Inv(s) && Enabled(s, step)
    ensures Inv(Apply(s, step))
  {
    match step
    case ClientPut(c) => ClientPutKeepsInv(s, c);
    case ServerGet => ServerGetKeepsInv(s);
    case ServerPut => ServerPutKeepsInv(s);
    case ServerBreak =>
      HeldSenderWaits(s);
      assert false;
    case ClientGet(c) => ClientGetKeepsInv(s, c);
    case ClientDestroy(c) => ClientDestroyKeepsInv(s, c);
  }

  lemma StartInv(s: State)
    requires IsStart(s)
    ensures Inv(s)
  {
    forall c: nat | c < |s.clients|
      ensures ClientInv(s, c)
    {
      CountNone(s.requests, From(c));
    }
  }

  lemma {:induction false} RunKeepsInv(s: State, steps: seq<Step>, s': State)
    requires Inv(s) && Run(s, steps, s')
    ensures Inv(s') && |s'.clients| == |s.clients| && s'.capacity == s.capacity
    ensures forall c :: 0 <= c < |s.clients| ==> s'.clients[c].script == s.clients[c].script
    decreases |steps|
  {
    if steps != [] {
      StepKeepsInv(s, steps[0]);
      RunKeepsInv(Apply(s, steps[0]), steps[1..], s');
    }
  }

  /** For any number of clients and any interleaving: the i-th reply of a client is its i-th request, it has at most
      one message under way, and the server can always put the reply it holds: the channel has room and its owner has
      not destroyed it. */
  lemma EchoIsFaithful(s: State, steps: seq<Step>, s': State)
    requires IsStart(s) && Run(s, steps, s')
    ensures |s'.clients| == |s.clients|
    ensures forall c :: 0 <= c < |s.clients| ==>
              && s'.clients[c].got <= s.clients[c].script
              && InFlight(s', c) <= 1
    ensures s'.server.Holding? ==> Enabled(s', ServerPut)
    ensures !s'.server.Stopped?
  {
    StartInv(s);
    RunKeepsInv(s, steps, s');
    forall c: nat | c < |s.clients|
      ensures s'.clients[c].got <= s.clients[c].script && InFlight(s', c) <= 1
    {
      assert ClientInv(s', c);
    }
    if s'.server.Holding? {
      HeldSenderWaits(s');
    }
  }

  // ----- Every conversation ends -----

  /** Steps of the exchange that client `c` has still to see: four for each request, less those its message under way
      has behind it. */
  function Left(cl: Client): int {
    4 * (|cl.script| - cl.sent) - (if cl.waiting then 1 else 0) - 2 * |cl.reply|
  }

  function StepsLeft(s: State): int {
    Total(s.clients, Left) - if s.server.Holding? then 1 else 0
  }

  function Exchanges(steps: seq<Step>): nat {
    if steps == [] then 0 else (if steps[0].ClientDestroy? then 0 else 1) + Exchanges(steps[1..])
  }

  lemma StepCountsDown(s: State, step: Step)
    requires Inv(s) && Enabled(s, step)
    ensures StepsLeft(s) == StepsLeft(Apply(s, step)) + if step.ClientDestroy? then 0 else 1
  {
    match step
    case ClientPut(c) => TotalUpdate(s.clients, c, Apply(s, step).clients[c], Left);
    case ServerGet =>
    case ServerPut =>
      var c := s.server.msg.sender;
      TotalUpdate(s.clients, c, Apply(s, step).clients[c], Left);
    case ServerBreak =>
      HeldSenderWaits(s);
      assert false;
    case ClientGet(c) =>
      assert ClientInv(s, c);
      TotalUpdate(s.clients, c, Apply(s, step).clients[c], Left);
    case ClientDestroy(c) => TotalUpdate(s.clients, c, Apply(s, step).clients[c], Left);
  }

  /** Unless every client has all its replies somebody can take a step. */
  lemma SomebodyCanMove(s: State, c: nat)
    requires Inv(s) && s.capacity > 0 && c < |s.clients| && s.clients[c].sent < |s.clients[c].script|
    ensures exists step :: Enabled(s, step) && !step.ClientDestroy?
  {
    if s.server.Holding? {
      HeldSenderWaits(s);
      assert Enabled(s, ServerPut);
    } else if s.requests != [] {
      assert Enabled(s, ServerGet);
    } else if s.clients[c].waiting {
      assert ClientInv(s, c);
      CountNone(s.requests, From(c));
      assert Enabled(s, ClientGet(c));
    } else {
      assert Enabled(s, ClientPut(c));
    }
  }

  lemma {:induction false} RunCountsDown(s: State, steps: seq<Step>, s': State)
    requires Inv(s) && Run(s, steps, s')
    ensures StepsLeft(s) == Exchanges(steps) + StepsLeft(s')
    decreases |steps|
  {
    if steps != [] {
      StepCountsDown(s, steps[0]);
      StepKeepsInv(s, steps[0]);
      RunCountsDown(Apply(s, steps[0]), steps[1..], s');
    }
  }

  function ScriptLength(cl: Client): int {
    |cl.script|
  }

  /** A run that can go no further is a complete one: every client has the reply to every request, after exactly four
      steps for each. It needs a service channel with room for one message at least. */
  lemma ConversationsComplete(s: State, steps: seq<Step>, s': State)
    requires IsStart(s) && s.capacity > 0 && Run(s, steps, s')
    requires forall step :: Enabled(s', step) ==> step.ClientDestroy?
    ensures |s'.clients| == |s.clients|
    ensures forall c :: 0 <= c < |s.clients| ==> s'.clients[c].got == s.clients[c].script
    ensures Exchanges(steps) == 4 * Total(s.clients, ScriptLength)
  {
    StartInv(s);
    RunKeepsInv(s, steps, s');
    RunCountsDown(s, steps, s');
    TotalScaled(s.clients, Left, ScriptLength, 4);
    forall c: nat | c < |s.clients|
      ensures s'.clients[c].got == s.clients[c].script && Left(s'.clients[c]) == 0
    {
      if s'.clients[c].sent < |s'.clients[c].script| {
        SomebodyCanMove(s', c);
      }
      assert ClientInv(s', c);
    }
    TotalZero(s'.clients, Left);
    if s'.server.Holding? {
      HeldSenderWaits(s');
    }
  }

  lemma StepsLeftIsNat(s: State)
    requires Inv(s)
    ensures StepsLeft(s) >= 0
  {
    forall c: nat | c < |s.clients|
      ensures 0 <= Left(s.clients[c])
    {
      assert ClientInv(s, c);
    }
    TotalZero(s.clients, Left);
    if s.server.Holding? {
      HeldSenderWaits(s);
      TotalAtLeast(s.clients, Left, s.server.msg.sender);
    }
  }

  // ----- A service channel without room -----

  predicate NothingHasHappened(s: State) {
    && s.capacity == 0 && s.requests == [] && s.server.Listening?
    && forall c :: 0 <= c < |s.clients| ==> !s.clients[c].waiting && s.clients[c].got == []
  }

  lemma {:induction false} NothingHappens(s: State, steps: seq<Step>, s': State)
    requires NothingHasHappened(s) && Run(s, steps, s')
    ensures NothingHasHappened(s')
    decreases |steps|
  {
    if steps != [] {
      NothingHappens(Apply(s, steps[0]), steps[1..], s');
    }
  }

  /** No step leaves everything as it was. */
  lemma EveryStepMoves(s: State, step: Step)
    requires Enabled(s, step)
    ensures Apply(s, step) != s
  {
    match step
    case ClientPut(c) => assert Apply(s, step).clients[c] != s.clients[c];
    case ClientGet(c) => assert Apply(s, step).clients[c] != s.clients[c];
    case ClientDestroy(c) => assert Apply(s, step).clients[c] != s.clients[c];
    case _ => assert Apply(s, step).server != s.server;
  }
}
