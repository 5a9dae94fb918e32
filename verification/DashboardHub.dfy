/** Fan-out to dashboard clients: every interleaving of sessions, broadcasts and write pumps around one lock. */
module DashboardHub {
  import opened Json

  const QUEUE_DEPTH := 64

  /** A message of broadcast `cast`, or one the session itself sends. */
  datatype Message = Fanout(cast: nat) | Own(text: string)

  /** Where the goroutine that serves a client is. It holds the lock while joining and while leaving. */
  datatype Phase = Connected | Joining | Serving | Leaving | Unlisted | Finished

  datatype Client = Client(
    phase: Phase,
    queue: seq<Message>,
    closes: nat,               // how often the queue was closed
    accepted: seq<Message>,    // everything that entered the queue
    dropped: seq<Message>,     // everything that found it full
    written: seq<Message>,     // what the write pump took
    pumping: bool)

  const FRESH := Client(Connected, [], 0, [], [], [], true)

  /** A broadcast: the clients listed when it took the lock, those its loop has come to, and the one of these it is
      about to send to. Reading the list and sending are steps of their own. */
  datatype Cast = Cast(audience: set<nat>, visited: set<nat>, picked: Option<nat>, returned: bool)

  datatype System = System(
    listed: set<nat>,
    clients: map<nat, Client>,
    writer: Option<nat>,
    casts: map<nat, Cast>,
    panicked: bool)            // a send on a closed queue, or a second close

  const EMPTY_HUB := System({}, map[], None, map[], false)

  datatype Action =
    | Connect(c: nat)
    | LockToJoin(c: nat)
    | List(c: nat)
    | Reply(c: nat, text: string)
    | Snapshot(c: nat, text: string)
    | LockToLeave(c: nat)
    | Unlist(c: nat)
    | Close(c: nat)
    | StartCast(b: nat)
    | Pick(b: nat, c: nat)
    | SendPicked(b: nat)
    | EndCast(b: nat)
    | Pump(c: nat)
    | PumpFails(c: nat)

  predicate Reading(s: System, b: nat) { b in s.casts && !s.casts[b].returned }

  predicate NoReader(s: System) { forall b | b in s.casts :: s.casts[b].returned }

  predicate At(s: System, c: nat, phase: Phase) { c in s.clients && s.clients[c].phase == phase }

  /** What the order of statements in each goroutine allows next. */
  predicate InOrder(s: System, a: Action) {
    match a
    case Connect(c) => c !in s.clients
    case LockToJoin(c) => At(s, c, Connected)
    case List(c) => At(s, c, Joining)
    case Reply(c, _) => At(s, c, Serving)
    case Snapshot(c, _) => At(s, c, Serving) && |s.clients[c].queue| < QUEUE_DEPTH
    case LockToLeave(c) => At(s, c, Serving)
    case Unlist(c) => At(s, c, Leaving)
    case Close(c) => At(s, c, Unlisted)
    case StartCast(b) => b !in s.casts
    case Pick(b, c) => Reading(s, b) && s.casts[b].picked.None? && c in s.listed - s.casts[b].visited
    case SendPicked(b) => Reading(s, b) && s.casts[b].picked.Some?
    case EndCast(b) => Reading(s, b) && s.casts[b].picked.None? && s.listed <= s.casts[b].visited
    case Pump(c) => c in s.clients && s.clients[c].pumping && s.clients[c].queue != []
    case PumpFails(c) => c in s.clients && s.clients[c].pumping
  }

  /** What the read-write lock allows: one writer without readers, or readers without a writer. */
  predicate LockAllows(s: System, a: Action) {
    match a
    case LockToJoin(_) => s.writer.None? && NoReader(s)
    case LockToLeave(_) => s.writer.None? && NoReader(s)
    case StartCast(_) => s.writer.None?
    case _ => true
  }

  predicate Enabled(s: System, a: Action) { InOrder(s, a) && LockAllows(s, a) }

  /** A send that gives up when the queue is full. */
  function Offer(k: Client, m: Message): Client {
    if |k.queue| < QUEUE_DEPTH then k.(queue := k.queue + [m], accepted := k.accepted + [m])
    else k.(dropped := k.dropped + [m])
  }

  function Move(s: System, c: nat, phase: Phase): System
    requires c in s.clients
  {
    s.(clients := s.clients[c := s.clients[c].(phase := phase)])
  }

  function Send(s: System, c: nat, m: Message): System
    requires c in s.clients
  {
    if s.clients[c].closes > 0 then s.(panicked := true) else s.(clients := s.clients[c := Offer(s.clients[c], m)])
  }

  function CloseQueue(s: System, c: nat): System
    requires c in s.clients
  {
    if s.clients[c].closes > 0 then s.(panicked := true)
    else s.(clients := s.clients[c := s.clients[c].(phase := Finished, closes := s.clients[c].closes + 1)])
  }

  /** What a step does, once it runs. */
  function Effect(s: System, a: Action): System
    requires InOrder(s, a)
  {
    match a
    case Connect(c) => s.(clients := s.clients[c := FRESH])
    case LockToJoin(c) => Move(s, c, Joining).(writer := Some(c))
    case List(c) => Move(s, c, Serving).(listed := s.listed + {c}, writer := None)
    case Reply(c, text) => Send(s, c, Own(text))
    case Snapshot(c, text) => Send(s, c, Own(text))
    case LockToLeave(c) => Move(s, c, Leaving).(writer := Some(c))
    case Unlist(c) => Move(s, c, Unlisted).(listed := s.listed - {c}, writer := None)
    case Close(c) => CloseQueue(s, c)
    case StartCast(b) => s.(casts := s.casts[b := Cast(s.listed, {}, None, false)])
    case Pick(b, c) =>
      s.(casts := s.casts[b := s.casts[b].(visited := s.casts[b].visited + {c}, picked := Some(c))])
    case SendPicked(b) =>
      var c := s.casts[b].picked.value;
      var t := if c in s.clients then Send(s, c, Fanout(b)) else s;
      t.(casts := s.casts[b := s.casts[b].(picked := None)])
    case EndCast(b) => s.(casts := s.casts[b := s.casts[b].(returned := true)])
    case Pump(c) =>
      var k := s.clients[c];
      s.(clients := s.clients[c := k.(queue := k.queue[1..], written := k.written + [k.queue[0]])])
    case PumpFails(c) => s.(clients := s.clients[c := s.clients[c].(pumping := false)])
  }

  function Step(s: System, a: Action): System { if Enabled(s, a) then Effect(s, a) else s }

  /** The state after a run of steps; a step that is not enabled waits and changes nothing. */
  function Play(s: System, run: seq<Action>): System {
    if run == [] then s else Step(Play(s, run[..|run| - 1]), run[|run| - 1])
  }

  function After(run: seq<Action>): System { Play(EMPTY_HUB, run) }

  // ---------------------------------------------------------------- what every step keeps

  ghost predicate ClientInv(s: System, c: nat) {
    && (c in s.listed <==> At(s, c, Serving) || At(s, c, Leaving))
    && (s.writer == Some(c) <==> At(s, c, Joining) || At(s, c, Leaving))
    && (c in s.clients ==> s.clients[c].closes == if s.clients[c].phase == Finished then 1 else 0)
    && (c in s.clients ==> |s.clients[c].queue| <= QUEUE_DEPTH)
    && (c in s.clients ==> s.clients[c].accepted == s.clients[c].written + s.clients[c].queue)
  }

  /** While a broadcast holds the lock nobody writes, and the list is still the one it started with. */
  ghost predicate CastInv(s: System, b: nat) {
    && (Reading(s, b) ==> s.writer.None? && s.casts[b].audience == s.listed)
    && (b in s.casts ==> s.casts[b].visited <= s.casts[b].audience)
    && (b in s.casts && s.casts[b].picked.Some? ==> !s.casts[b].returned && s.casts[b].picked.value in s.casts[b].visited)
    && (b in s.casts && s.casts[b].returned ==> s.casts[b].visited == s.casts[b].audience)
  }

  ghost predicate Inv(s: System) {
    && !s.panicked
    && (forall c :: ClientInv(s, c))
    && (forall b :: CastInv(s, b))
  }

  /** The client that a broadcast has picked still serves when the broadcast sends: this is what the lock is for. */
  lemma {:induction false} PickedIsServing(s: System, b: nat)
    requires Inv(s) && Reading(s, b) && s.casts[b].picked.Some?
    ensures At(s, s.casts[b].picked.value, Serving) && s.clients[s.casts[b].picked.value].closes == 0
  {
    assert CastInv(s, b) && ClientInv(s, s.casts[b].picked.value);
  }

  lemma {:induction false} StepKeepsClientInv(s: System, a: Action, c: nat)
    requires Inv(s)
    ensures ClientInv(Step(s, a), c)
  {
    assert ClientInv(s, c);
    if !Enabled(s, a) {
    } else if a.SendPicked? {
      PickedIsServing(s, a.b);
    } else if a.LockToJoin? || a.LockToLeave? || a.List? || a.Unlist? {
      LockingKeepsClientInv(s, a, c);
    } else if a.Reply? || a.Snapshot? || a.Close? || a.Pump? || a.PumpFails? {
      QueueingKeepsClientInv(s, a, c);
    }
  }

  lemma {:induction false} LockingKeepsClientInv(s: System, a: Action, c: nat)
    requires Inv(s) && Enabled(s, a) && (a.LockToJoin? || a.LockToLeave? || a.List? || a.Unlist?)
    ensures ClientInv(Step(s, a), c)
  {
    assert ClientInv(s, c) && ClientInv(s, a.c);
  }

  lemma {:induction false} QueueingKeepsClientInv(s: System, a: Action, c: nat)
    requires Inv(s) && Enabled(s, a) && (a.Reply? || a.Snapshot? || a.Close? || a.Pump? || a.PumpFails?)
    ensures ClientInv(Step(s, a), c)
  {
    assert ClientInv(s, c);
    if a.Pump? && a.c == c { PumpKeepsOrder(s.clients[c]); }
  }

  lemma {:induction false} PumpKeepsOrder(k: Client)
    requires k.queue != [] && k.accepted == k.written + k.queue
    ensures k.accepted == (k.written + [k.queue[0]]) + k.queue[1..]
  {
    assert k.queue == [k.queue[0]] + k.queue[1..];
  }

  lemma {:induction false} StepKeepsCastInv(s: System, a: Action, b: nat)
    requires Inv(s)
    ensures CastInv(Step(s, a), b)
  {
    assert CastInv(s, b);
    if (a.List? || a.Unlist?) && Enabled(s, a) { assert ClientInv(s, a.c); }
  }

  lemma {:induction false} StepNeverPanics(s: System, a: Action)
    requires Inv(s)
    ensures !Step(s, a).panicked
  {
    if a.Reply? || a.Snapshot? || a.Close? { assert ClientInv(s, a.c); }
    if a.SendPicked? && Enabled(s, a) { PickedIsServing(s, a.b); }
  }

  lemma {:induction false} StepKeepsInv(s: System, a: Action)
    requires Inv(s)
    ensures Inv(Step(s, a))
  {
    StepNeverPanics(s, a);
    forall c ensures ClientInv(Step(s, a), c) { StepKeepsClientInv(s, a, c); }
    forall b ensures CastInv(Step(s, a), b) { StepKeepsCastInv(s, a, b); }
  }

  lemma {:induction false} RunKeepsInv(run: seq<Action>)
    ensures Inv(After(run))
  {
    if run != [] {
      RunKeepsInv(run[..|run| - 1]);
      StepKeepsInv(After(run[..|run| - 1]), run[|run| - 1]);
    }
  }

  /** In every interleaving: no send on a closed queue, no second close, a queue closed exactly when its session has
      finished, at most 64 messages waiting, and the pump writing what was accepted, in order, without loss. */
  lemma {:induction false} QueueSafety(run: seq<Action>, c: nat)
    ensures !After(run).panicked
    ensures c in After(run).clients ==>
      var k := After(run).clients[c];
      k.closes == (if k.phase == Finished then 1 else 0) && |k.queue| <= 64
      && k.accepted == k.written + k.queue
  {
    RunKeepsInv(run);
    assert ClientInv(After(run), c);
  }

  // ---------------------------------------------------------------- every listed client, once

  function Count(ms: seq<Message>, m: Message): nat { multiset(ms)[m] }

  /** How often the message of b was offered to c. */
  function Offered(s: System, b: nat, c: nat): nat {
    if c in s.clients then Count(s.clients[c].accepted, Fanout(b)) + Count(s.clients[c].dropped, Fanout(b)) else 0
  }

  /** Once b has come to c and has sent. */
  function Served(s: System, b: nat, c: nat): nat {
    if b in s.casts && c in s.casts[b].visited && s.casts[b].picked != Some(c) then 1 else 0
  }

  lemma {:induction false} OfferCounts(k: Client, m: Message, x: Message)
    ensures var j := Offer(k, m);
      Count(j.accepted, x) + Count(j.dropped, x)
      == Count(k.accepted, x) + Count(k.dropped, x) + if x == m then 1 else 0
  {
  }

  lemma {:induction false} SendOffers(s: System, d: nat, m: Message, b: nat, c: nat)
    requires c in s.clients && d in s.clients && s.clients[d].closes == 0
    ensures c in Send(s, d, m).clients
    ensures Offered(Send(s, d, m), b, c) == Offered(s, b, c) + if c == d && m == Fanout(b) then 1 else 0
  {
    OfferCounts(s.clients[c], m, Fanout(b));
  }

  lemma {:induction false} SendPickedOffers(s: System, e: nat, b: nat, c: nat)
    requires Inv(s) && Enabled(s, SendPicked(e)) && Offered(s, b, c) == Served(s, b, c)
    ensures Offered(Step(s, SendPicked(e)), b, c) == Served(Step(s, SendPicked(e)), b, c)
  {
    PickedIsServing(s, e);
    assert CastInv(s, e);
    if c in s.clients { SendOffers(s, s.casts[e].picked.value, Fanout(e), b, c); }
  }

  lemma {:induction false} OwnMessageOffers(s: System, a: Action, b: nat, c: nat)
    requires Inv(s) && (a.Reply? || a.Snapshot?) && Offered(s, b, c) == Served(s, b, c)
    ensures Offered(Step(s, a), b, c) == Served(Step(s, a), b, c)
  {
    assert ClientInv(s, a.c);
    if Enabled(s, a) && c in s.clients { SendOffers(s, a.c, Own(a.text), b, c); }
  }

  lemma {:induction false} OtherStepsOffer(s: System, a: Action, b: nat, c: nat)
    requires Inv(s) && !a.Reply? && !a.Snapshot? && !a.SendPicked? && Offered(s, b, c) == Served(s, b, c)
    ensures Offered(Step(s, a), b, c) == Served(Step(s, a), b, c)
  {
    assert CastInv(s, b);
    var t := Step(s, a);
    assert c in s.clients ==> c in t.clients && t.clients[c].accepted == s.clients[c].accepted
                              && t.clients[c].dropped == s.clients[c].dropped;
  }

  lemma {:induction false} StepOffers(s: System, a: Action, b: nat, c: nat)
    requires Inv(s) && Offered(s, b, c) == Served(s, b, c)
    ensures Offered(Step(s, a), b, c) == Served(Step(s, a), b, c)
  {
    match a
    case Reply(_, _) => OwnMessageOffers(s, a, b, c);
    case Snapshot(_, _) => OwnMessageOffers(s, a, b, c);
    case SendPicked(e) => if Enabled(s, a) { SendPickedOffers(s, e, b, c); }
    case _ => OtherStepsOffer(s, a, b, c);
  }

  lemma {:induction false} RunOffers(run: seq<Action>, b: nat, c: nat)
    ensures Offered(After(run), b, c) == Served(After(run), b, c)
  {
    if run != [] {
      RunOffers(run[..|run| - 1], b, c);
      RunKeepsInv(run[..|run| - 1]);
      StepOffers(After(run[..|run| - 1]), run[|run| - 1], b, c);
    }
  }

  /** A broadcast reaches a queue at most once; once it has returned, it was offered exactly once to every client that
      was listed when it took the lock, and never to another. */
  lemma {:induction false} EachBroadcastOnce(run: seq<Action>, b: nat, c: nat)
    requires c in After(run).clients
    ensures Count(After(run).clients[c].accepted, Fanout(b)) <= 1
    ensures b in After(run).casts && After(run).casts[b].returned ==>
      (Offered(After(run), b, c) == if c in After(run).casts[b].audience then 1 else 0)
  {
    RunOffers(run, b, c);
    RunKeepsInv(run);
    assert CastInv(After(run), b);
  }

  lemma {:induction false} StepKeepsAudience(s: System, a: Action, b: nat)
    requires b in s.casts
    ensures b in Step(s, a).casts && Step(s, a).casts[b].audience == s.casts[b].audience
  {
  }

  /** The audience of a broadcast is fixed when it takes the lock. */
  lemma {:induction false} AudienceIsFixed(run: seq<Action>, k: nat, b: nat)
    requires k <= |run| && b in After(run[..k]).casts
    ensures b in After(run).casts && After(run).casts[b].audience == After(run[..k]).casts[b].audience
  {
    if k == |run| {
      assert run[..k] == run;
    } else {
      assert run[..|run| - 1][..k] == run[..k];
      AudienceIsFixed(run[..|run| - 1], k, b);
      StepKeepsAudience(After(run[..|run| - 1]), run[|run| - 1], b);
    }
  }

  /** Nothing enters the queue of a client whose session has taken itself off the list. */
  lemma {:induction false} UnlistedIsSilent(run: seq<Action>, k: nat, c: nat)
    requires k <= |run| && (At(After(run[..k]), c, Unlisted) || At(After(run[..k]), c, Finished))
    ensures At(After(run), c, Unlisted) || At(After(run), c, Finished)
    ensures After(run).clients[c].accepted == After(run[..k]).clients[c].accepted
  {
    if k == |run| {
      assert run[..k] == run;
    } else {
      var most := run[..|run| - 1];
      assert most[..k] == run[..k];
      UnlistedIsSilent(most, k, c);
      RunKeepsInv(most);
      SilentStep(After(most), run[|run| - 1], c);
    }
  }

  lemma {:induction false} SilentStep(s: System, a: Action, c: nat)
    requires Inv(s) && (At(s, c, Unlisted) || At(s, c, Finished))
    ensures At(Step(s, a), c, Unlisted) || At(Step(s, a), c, Finished)
    ensures Step(s, a).clients[c].accepted == s.clients[c].accepted
  {
    assert ClientInv(s, c);
    if a.SendPicked? && Enabled(s, a) { PickedIsServing(s, a.b); }
  }

  // ---------------------------------------------------------------- why the lock, and why this order

  /** Two other hubs: one without the lock, and one whose sessions close their queue before they leave the list. */
  datatype Variant = NoLock | CloseFirst

  function StepOf(v: Variant, s: System, a: Action): System {
    match v
    case NoLock => if InOrder(s, a) then Effect(s, a) else s
    case CloseFirst => if a.Close? then if At(s, a.c, Serving) then CloseQueue(s, a.c) else s else Step(s, a)
  }

  function PlayOf(v: Variant, s: System, run: seq<Action>): System {
    if run == [] then s else StepOf(v, PlayOf(v, s, run[..|run| - 1]), run[|run| - 1])
  }

  lemma {:induction false} PlayOfSnoc(v: Variant, s: System, p: seq<Action>, a: Action)
    ensures PlayOf(v, s, p + [a]) == StepOf(v, PlayOf(v, s, p), a)
  {
    assert (p + [a])[..|p|] == p;
  }

  lemma {:induction false} PlayOfFour(v: Variant, s: System, a: Action, b: Action, c: Action, d: Action)
    ensures PlayOf(v, s, [a, b, c, d]) == StepOf(v, StepOf(v, StepOf(v, StepOf(v, s, a), b), c), d)
  {
    PlayOfSnoc(v, s, [], a);
    PlayOfSnoc(v, s, [a], b);
    PlayOfSnoc(v, s, [a, b], c);
    PlayOfSnoc(v, s, [a, b, c], d);
    assert [] + [a] == [a] && [a] + [b] == [a, b] && [a, b] + [c] == [a, b, c] && [a, b, c] + [d] == [a, b, c, d];
  }

  /** A session that leaves and closes between the pick of its client and the send. */
  function Overtaking(b: nat, c: nat): seq<Action> { [LockToLeave(c), Unlist(c), Close(c), SendPicked(b)] }

  /** Whenever a broadcast has picked a client, the lock makes that client's session wait; without the lock, the session
      can overtake the broadcast, which then sends on a closed queue. */
  lemma {:induction false} WithoutLockPanics(run: seq<Action>, b: nat)
    requires Enabled(After(run), SendPicked(b))
    ensures var s := After(run);
      var c := s.casts[b].picked.value;
      !Enabled(s, LockToLeave(c)) && !Step(s, SendPicked(b)).panicked && PlayOf(NoLock, s, Overtaking(b, c)).panicked
  {
    var s := After(run);
    RunKeepsInv(run);
    PickedIsServing(s, b);
    StepNeverPanics(s, SendPicked(b));
    OvertakingPanics(s, b, s.casts[b].picked.value);
  }

  lemma {:induction false} OvertakingPanics(s: System, b: nat, c: nat)
    requires Reading(s, b) && s.casts[b].picked == Some(c) && At(s, c, Serving)
    ensures PlayOf(NoLock, s, Overtaking(b, c)).panicked
  {
    PlayOfFour(NoLock, s, LockToLeave(c), Unlist(c), Close(c), SendPicked(b));
    var t := StepOf(NoLock, StepOf(NoLock, s, LockToLeave(c)), Unlist(c));
    assert t.casts == s.casts && At(t, c, Unlisted);
    assert StepOf(NoLock, t, Close(c)).clients[c].closes > 0 || StepOf(NoLock, t, Close(c)).panicked;
  }

  /** A hub without the lock has a panicking run from the start. */
  lemma {:induction false} UnlockedHubHasPanickingRun(b: nat, c: nat)
    ensures PlayOf(NoLock, EMPTY_HUB,
      [Connect(c), LockToJoin(c), List(c), StartCast(b), Pick(b, c)] + Overtaking(b, c)).panicked
  {
    var first := [Connect(c), LockToJoin(c), List(c), StartCast(b)];
    PlayOfFour(NoLock, EMPTY_HUB, Connect(c), LockToJoin(c), List(c), StartCast(b));
    PlayOfSnoc(NoLock, EMPTY_HUB, first, Pick(b, c));
    var picked := first + [Pick(b, c)];
    assert picked == [Connect(c), LockToJoin(c), List(c), StartCast(b), Pick(b, c)];
    PlayOfAppend(NoLock, EMPTY_HUB, picked, Overtaking(b, c));
    OvertakingPanics(PlayOf(NoLock, EMPTY_HUB, picked), b, c);
  }

  lemma {:induction false} PlayOfAppend(v: Variant, s: System, p: seq<Action>, q: seq<Action>)
    ensures PlayOf(v, s, p + q) == PlayOf(v, PlayOf(v, s, p), q)
  {
    if q == [] {
      assert p + q == p;
    } else {
      assert (p + q)[..|p + q| - 1] == p + q[..|q| - 1];
      PlayOfAppend(v, s, p, q[..|q| - 1]);
    }
  }

  /** Even with the lock, a session that closed its queue first would be sent to by every broadcast that runs. */
  lemma {:induction false} CloseFirstPanics(run: seq<Action>, b: nat, c: nat)
    requires Enabled(After(run), Pick(b, c))
    ensures At(After(run), c, Serving)
    ensures PlayOf(CloseFirst, After(run), [Close(c)] + [Pick(b, c)] + [SendPicked(b)]).panicked
  {
    var s := After(run);
    RunKeepsInv(run);
    assert ClientInv(s, c) && CastInv(s, b);
    PlayOfSnoc(CloseFirst, s, [], Close(c));
    PlayOfSnoc(CloseFirst, s, [Close(c)], Pick(b, c));
    PlayOfSnoc(CloseFirst, s, [Close(c)] + [Pick(b, c)], SendPicked(b));
    assert [] + [Close(c)] == [Close(c)];
    var t := StepOf(CloseFirst, s, Close(c));
    assert t.casts == s.casts && t.listed == s.listed && t.clients[c].closes == 1;
  }

  // ---------------------------------------------------------------- nobody is stuck

  lemma {:induction false} PlayAppend(s: System, p: seq<Action>, q: seq<Action>)
    ensures Play(s, p + q) == Play(Play(s, p), q)
  {
    if q == [] {
      assert p + q == p;
    } else {
      assert (p + q)[..|p + q| - 1] == p + q[..|q| - 1];
      PlayAppend(s, p, q[..|q| - 1]);
    }
  }

  lemma {:induction false} PlayFirst(s: System, a: Action, q: seq<Action>)
    ensures Play(s, [a] + q) == Play(Step(s, a), q)
  {
    PlayAppend(s, [a], q);
    assert Play(s, []) == s && [a][..0] == [];
  }

  lemma {:induction false} PlaySnoc(s: System, p: seq<Action>, a: Action)
    ensures Play(s, p + [a]) == Step(Play(s, p), a)
  {
    assert (p + [a])[..|p|] == p;
  }

  /** The clients of `done` were each offered the message of b once; nothing else happened. */
  ghost predicate Reached(was: map<nat, Client>, now: map<nat, Client>, done: set<nat>, b: nat) {
    now.Keys == was.Keys
    && forall c | c in was :: now[c] == if c in done then Offer(was[c], Fanout(b)) else was[c]
  }

  lemma {:induction false} ReachedTwice(was: map<nat, Client>, mid: map<nat, Client>, now: map<nat, Client>,
                                        first: set<nat>, rest: set<nat>, b: nat)
    requires Reached(was, mid, first, b) && Reached(mid, now, rest, b) && first !! rest
    ensures Reached(was, now, first + rest, b)
  {
  }

  ghost predicate SamePhases(s: System, t: System) {
    s.clients.Keys == t.clients.Keys && forall c | c in s.clients :: t.clients[c].phase == s.clients[c].phase
  }

  lemma {:induction false} SendKeepsPhases(s: System, b: nat)
    requires Inv(s) && Enabled(s, SendPicked(b))
    ensures var t := Step(s, SendPicked(b));
      Inv(t) && SamePhases(s, t) && t.writer == s.writer && t.listed == s.listed
      && t.casts == s.casts[b := s.casts[b].(picked := None)]
      && Reached(s.clients, t.clients, {s.casts[b].picked.value}, b)
  {
    StepKeepsInv(s, SendPicked(b));
    PickedIsServing(s, b);
  }

  /** What a running broadcast has still to send to. */
  function Left(s: System, b: nat): set<nat>
    requires b in s.casts
  {
    (s.listed - s.casts[b].visited) + if s.casts[b].picked.Some? then {s.casts[b].picked.value} else {}
  }

  /** u is s after the broadcast b has sent to the rest of its audience and returned. */
  ghost predicate Returned(s: System, u: System, b: nat)
    requires b in s.casts
  {
    && Inv(u) && SamePhases(s, u) && u.writer == s.writer && u.listed == s.listed
    && u.casts == s.casts[b := Cast(s.listed, s.listed, None, true)]
    && Reached(s.clients, u.clients, Left(s, b), b)
  }

  lemma {:induction false} ReturnsAfterSend(s: System, b: nat, u: System)
    requires Inv(s) && Enabled(s, SendPicked(b)) && Returned(Step(s, SendPicked(b)), u, b)
    ensures Returned(s, u, b)
  {
    SendKeepsPhases(s, b);
    var t, c := Step(s, SendPicked(b)), s.casts[b].picked.value;
    assert CastInv(s, b);
    ReachedTwice(s.clients, t.clients, u.clients, {c}, Left(t, b), b);
    assert {c} + Left(t, b) == Left(s, b);
  }

  lemma {:induction false} ReturnsAfterPick(s: System, b: nat, c: nat, u: System)
    requires Inv(s) && Enabled(s, Pick(b, c)) && Returned(Step(s, Pick(b, c)), u, b)
    ensures Returned(s, u, b)
  {
    assert Left(Step(s, Pick(b, c)), b) == Left(s, b);
  }

  lemma {:induction false} ReturnsAtEnd(s: System, b: nat)
    requires Inv(s) && Enabled(s, EndCast(b))
    ensures Returned(s, Step(s, EndCast(b)), b)
  {
    assert CastInv(s, b);
    assert s.casts[b].visited == s.listed;
    StepKeepsInv(s, EndCast(b));
  }

  /** A running broadcast can return, whatever else waits; by then it has offered its message to the rest of its
      audience. */
  lemma {:induction false} BroadcastCanReturn(s: System, b: nat) returns (more: seq<Action>)
    requires Inv(s) && Reading(s, b)
    ensures Returned(s, Play(s, more), b)
    decreases |s.listed - s.casts[b].visited|, if s.casts[b].picked.Some? then 1 else 0
  {
    if s.casts[b].picked.Some? {
      SendKeepsPhases(s, b);
      var rest := BroadcastCanReturn(Step(s, SendPicked(b)), b);
      PlayFirst(s, SendPicked(b), rest);
      more := [SendPicked(b)] + rest;
      ReturnsAfterSend(s, b, Play(s, more));
    } else if s.listed <= s.casts[b].visited {
      ReturnsAtEnd(s, b);
      PlaySnoc(s, [], EndCast(b));
      more := [EndCast(b)];
    } else {
      var c :| c in s.listed && c !in s.casts[b].visited;
      var t := Step(s, Pick(b, c));
      StepKeepsInv(s, Pick(b, c));
      assert t.listed - t.casts[b].visited == (s.listed - s.casts[b].visited) - {c};
      var rest := BroadcastCanReturn(t, b);
      PlayFirst(s, Pick(b, c), rest);
      more := [Pick(b, c)] + rest;
      ReturnsAfterPick(s, b, c, Play(s, more));
    }
  }

  function Running(s: System): set<nat> { set b | b in s.casts && !s.casts[b].returned }

  lemma {:induction false} ReadersCanReturn(s: System) returns (more: seq<Action>)
    requires Inv(s)
    ensures Inv(Play(s, more)) && SamePhases(s, Play(s, more)) && Play(s, more).writer == s.writer
    ensures NoReader(Play(s, more))
    decreases |Running(s)|
  {
    if Running(s) == {} {
      more := [];
      assert forall b | b in s.casts :: b !in Running(s) ==> s.casts[b].returned;
    } else {
      var b :| b in Running(s);
      var first := BroadcastCanReturn(s, b);
      var t := Play(s, first);
      assert Running(t) == Running(s) - {b};
      var rest := ReadersCanReturn(t);
      PlayAppend(s, first, rest);
      more := first + rest;
    }
  }

  /** The lock can be freed without moving the session of c, unless it is c that holds it. */
  lemma {:induction false} LockCanBeFreed(s: System, c: nat) returns (more: seq<Action>)
    requires Inv(s) && c in s.clients && s.writer != Some(c)
    ensures Inv(Play(s, more)) && Play(s, more).writer.None? && NoReader(Play(s, more))
    ensures At(Play(s, more), c, s.clients[c].phase)
  {
    if s.writer.Some? {
      var d := s.writer.value;
      assert ClientInv(s, d);
      var a := if At(s, d, Joining) then List(d) else Unlist(d);
      StepKeepsInv(s, a);
      var rest := ReadersCanReturn(Step(s, a));
      PlayFirst(s, a, rest);
      more := [a] + rest;
    } else {
      more := ReadersCanReturn(s);
    }
  }

  function Rank(phase: Phase): nat {
    match phase
    case Connected => 5
    case Joining => 4
    case Serving => 3
    case Leaving => 2
    case Unlisted => 1
    case Finished => 0
  }

  /** No deadlock: from every state, every session can still be brought to its end. */
  lemma {:induction false} SessionCanFinish(s: System, c: nat) returns (more: seq<Action>)
    requires Inv(s) && c in s.clients
    ensures At(Play(s, more), c, Finished)
    decreases Rank(s.clients[c].phase)
  {
    assert ClientInv(s, c);
    var phase := s.clients[c].phase;
    if phase == Finished {
      more := [];
    } else {
      var first := [];
      if phase == Connected || phase == Serving { first := LockCanBeFreed(s, c); }
      var t := Play(s, first);
      var a :=
        match phase
        case Connected => LockToJoin(c)
        case Joining => List(c)
        case Serving => LockToLeave(c)
        case Leaving => Unlist(c)
        case Unlisted => Close(c);
      StepKeepsInv(t, a);
      assert ClientInv(t, c);
      var rest := SessionCanFinish(Step(t, a), c);
      PlayFirst(t, a, rest);
      PlayAppend(s, first, [a] + rest);
      more := first + ([a] + rest);
    }
  }

  /** In every reachable state every client's session can finish, with its queue closed. */
  lemma {:induction false} EverySessionCanFinish(run: seq<Action>, c: nat)
    requires c in After(run).clients
    ensures exists more :: At(After(run + more), c, Finished) && After(run + more).clients[c].closes == 1
  {
    RunKeepsInv(run);
    var more := SessionCanFinish(After(run), c);
    PlayAppend(EMPTY_HUB, run, more);
    QueueSafety(run + more, c);
  }

  // ---------------------------------------------------------------- the hub itself

  lemma {:induction false} RegisterRun(s: System, c: nat)
    requires Inv(s) && NoReader(s) && s.writer.None? && c !in s.clients
    ensures var t := Step(Step(Step(s, Connect(c)), LockToJoin(c)), List(c));
      t == s.(clients := s.clients[c := FRESH.(phase := Serving)], listed := s.listed + {c}) && Inv(t)
  {
    StepKeepsInv(s, Connect(c));
    StepKeepsInv(Step(s, Connect(c)), LockToJoin(c));
    StepKeepsInv(Step(Step(s, Connect(c)), LockToJoin(c)), List(c));
  }

  lemma {:induction false} UnregisterRun(s: System, c: nat)
    requires Inv(s) && NoReader(s) && s.writer.None? && At(s, c, Serving)
    ensures var t := Step(Step(Step(s, LockToLeave(c)), Unlist(c)), Close(c));
      t == s.(clients := s.clients[c := s.clients[c].(phase := Finished, closes := 1)], listed := s.listed - {c})
      && Inv(t)
  {
    assert ClientInv(s, c);
    StepKeepsInv(s, LockToLeave(c));
    StepKeepsInv(Step(s, LockToLeave(c)), Unlist(c));
    StepKeepsInv(Step(Step(s, LockToLeave(c)), Unlist(c)), Close(c));
  }

  /** A broadcast nobody interferes with. */
  lemma {:induction false} BroadcastRun(s: System, b: nat) returns (run: seq<Action>, t: System)
    requires Inv(s) && NoReader(s) && s.writer.None? && b !in s.casts
    ensures t == Play(s, run) && Inv(t) && NoReader(t)
    ensures t == s.(clients := t.clients, casts := s.casts[b := Cast(s.listed, s.listed, None, true)])
    ensures Reached(s.clients, t.clients, s.listed, b)
  {
    var u := Step(s, StartCast(b));
    StepKeepsInv(s, StartCast(b));
    var rest := BroadcastCanReturn(u, b);
    PlayFirst(s, StartCast(b), rest);
    run, t := [StartCast(b)] + rest, Play(u, rest);
    assert Left(u, b) == s.listed;
    assert t.casts == s.casts[b := Cast(s.listed, s.listed, None, true)];
  }

  /** The hub as its methods run when no other goroutine interferes; each is a run of the steps above. */
  /** The message is in the queue, behind all others, if fewer than 64 are waiting; else it is dropped. */
  predicate TakesOrDrops(k: Client, m: Message, j: Client) {
    && j.phase == k.phase && j.pumping == k.pumping && j.closes == k.closes && j.written == k.written
    && if |k.queue| < 64 then j.queue == k.queue + [m] && j.accepted == k.accepted + [m] && j.dropped == k.dropped
       else j.queue == k.queue && j.accepted == k.accepted && j.dropped == k.dropped + [m]
  }

  lemma {:induction false} OfferMeans(k: Client, m: Message)
    ensures TakesOrDrops(k, m, Offer(k, m))
  {
  }

  /** In every run: what a step puts into a queue finds fewer than 64 messages there, and what it drops finds 64. */
  lemma {:induction false} DroppedOnlyIfFull(run: seq<Action>, a: Action, c: nat)
    requires c in After(run).clients
    ensures var s, t := After(run), Step(After(run), a);
      && c in t.clients
      && (t.clients[c].accepted != s.clients[c].accepted ==> |s.clients[c].queue| < 64)
      && (t.clients[c].dropped != s.clients[c].dropped ==> |s.clients[c].queue| == 64)
  {
    RunKeepsInv(run);
    assert ClientInv(After(run), c);
  }

  class Hub {
    var listed: set<nat>
    var clients: map<nat, Client>
    var casts: map<nat, Cast>

    function State(): System
      reads this
    {
      System(listed, clients, None, casts, false)
    }

    ghost predicate Valid()
      reads this
    {
      Inv(State()) && NoReader(State())
    }

    constructor ()
      ensures Valid() && State() == EMPTY_HUB
    {
      listed, clients, casts := {}, map[], map[];
    }

    method Register(c: nat)
      requires Valid() && c !in clients
      modifies this
      ensures Valid() && listed == old(listed) + {c} && clients == old(clients)[c := FRESH.(phase := Serving)]
      ensures State() == Step(Step(Step(old(State()), Connect(c)), LockToJoin(c)), List(c))
    {
      RegisterRun(State(), c);
      ghost var t := Step(Step(Step(State(), Connect(c)), LockToJoin(c)), List(c));
      clients := clients[c := FRESH.(phase := Serving)];
      listed := listed + {c};
      assert State() == t;
    }

    method Unregister(c: nat)
      requires Valid() && At(State(), c, Serving)
      modifies this
      ensures Valid() && listed == old(listed) - {c}
      ensures clients == old(clients)[c := old(clients)[c].(phase := Finished, closes := 1)]
      ensures State() == Step(Step(Step(old(State()), LockToLeave(c)), Unlist(c)), Close(c))
    {
      UnregisterRun(State(), c);
      ghost var t := Step(Step(Step(State(), LockToLeave(c)), Unlist(c)), Close(c));
      listed := listed - {c};
      clients := clients[c := clients[c].(phase := Finished, closes := 1)];
      assert State() == t;
    }

    /** replyJSON: the session's own message, dropped if the queue is full. */
    method ReplyJson(c: nat, text: string)
      requires Valid() && At(State(), c, Serving)
      modifies this`clients
      ensures Valid() && clients == old(clients)[c := Offer(old(clients)[c], Own(text))]
      ensures TakesOrDrops(old(clients)[c], Own(text), clients[c])
      ensures State() == Step(old(State()), Reply(c, text))
    {
      assert ClientInv(State(), c);
      OfferMeans(clients[c], Own(text));
      StepKeepsInv(State(), Reply(c, text));
      ghost var t := Step(State(), Reply(c, text));
      var k := clients[c];
      if |k.queue| < QUEUE_DEPTH {
        clients := clients[c := k.(queue := k.queue + [Own(text)], accepted := k.accepted + [Own(text)])];
      } else {
        clients := clients[c := k.(dropped := k.dropped + [Own(text)])];
      }
      assert State() == t;
    }

    /** The loop of Broadcast: every listed client is offered the message once; the others are untouched. */
    method OfferToAll(b: nat)
      requires listed <= clients.Keys
      modifies this`clients
      ensures Reached(old(clients), clients, listed, b)
    {
      var left := listed;
      while left != {}
        invariant left <= listed <= clients.Keys
        invariant Reached(old(clients), clients, listed - left, b)
        decreases |left|
      {
        var c :| c in left;
        var k := clients[c];
        if |k.queue| < QUEUE_DEPTH {
          clients := clients[c := k.(queue := k.queue + [Fanout(b)], accepted := k.accepted + [Fanout(b)])];
        } else {
          clients := clients[c := k.(dropped := k.dropped + [Fanout(b)])];
        }
        left := left - {c};
      }
    }

    method Broadcast(b: nat) returns (ghost run: seq<Action>)
      requires Valid() && b !in casts
      modifies this`clients, this`casts
      ensures Valid() && Reached(old(clients), clients, listed, b)
      ensures forall c | c in listed :: c in clients && c in old(clients) && TakesOrDrops(old(clients)[c], Fanout(b), clients[c])
      ensures State() == Play(old(State()), run)
    {
      ghost var t;
      run, t := BroadcastRun(State(), b);
      assert forall c | c in listed :: ClientInv(State(), c);
      OfferToAll(b);
      forall c | c in listed { OfferMeans(old(clients)[c], Fanout(b)); }
      casts := casts[b := Cast(listed, listed, None, true)];
      assert clients == t.clients;
      assert State() == t;
    }
  }
}
