/** Any number of workers that compete for one lease object: conditional puts that may land late or
    never, lost replies, crashes, different lease times, and clocks that agree only on how fast time goes. */
module Lease {
  import opened Wrappers
  import opened Worker

  type Node = nat

  /** The lease object. Its ETag is new with every write. */
  datatype Object = Object(tag: Tag, ttl: nat)

  /** A conditional put on its way, or its fate. The global instant when its attempt began and the number of
      tags that existed then serve the proof only. */
  datatype Fate = Sent | Landed(tag: Tag) | Rejected

  datatype Attempt = Attempt(node: Node, mode: Mode, ttl: nat, started: int, fate: Fate)

  /** Bookkeeping: who wrote a tag, when the attempt began and when it landed. No step depends on it. */
  datatype Written = Written(node: Node, ttl: nat, started: int, landed: int)

  /** Global time is real; a worker reads its clock as global time plus its own offset. */
  datatype State = State(
    now: int,
    lease: Option<Object>,
    tags: nat,
    history: map<Tag, Written>,
    attempts: map<nat, Attempt>,
    workers: map<Node, Local>,
    offsets: map<Node, int>,
    served: map<Node, Reading>)     // a lease read, answered by the store and not yet seen by the worker

  datatype Event =
    | Pass(time: nat)
    | Join(node: Node, ttl: nat, offset: int)   // also a restart after a crash
    | Tick(node: Node, failed: bool)
    | Begin(node: Node, id: nat)
    | Serve(node: Node)
    | Receive(node: Node, lost: bool, id: nat)
    | Land(id: nat)
    | Reply(node: Node)
    | GiveUp(node: Node)
    | Check(node: Node, opening: Opening)
    | Stop(node: Node)
    | Crash(node: Node)

  const INITIAL: State := State(0, None, 0, map[], map[], map[], map[], map[])

  function Clock(s: State, node: Node): Instant
    requires node in s.offsets
  {
    s.now + s.offsets[node]
  }

  function Set(s: State, node: Node, w: Local): State {
    s.(workers := s.workers[node := w])
  }

  /** Send a put whose attempt began at an instant of the worker's clock. */
  function Send(s: State, node: Node, w: Local, mode: Mode, started: Instant, id: nat): State
    requires node in s.offsets
  {
    s.(attempts := s.attempts[id := Attempt(node, mode, w.ttl, started - s.offsets[node], Sent)],
       workers := s.workers[node := w.(phase := Putting(started, id))])
  }

  predicate Matches(lease: Option<Object>, mode: Mode) {
    match mode
    case Create => lease.None?
    case Update(tag) => lease.Some? && lease.value.tag == tag
  }

  predicate Running(s: State, node: Node) {
    node in s.workers && node in s.offsets
  }

  predicate Enabled(s: State, e: Event) {
    match e
    case Pass(time) => true
    case Join(node, ttl, offset) => node !in s.workers && ValidTtl(ttl)
    case Tick(node, failed) => Running(s, node) && s.workers[node].phase.Resting?
    case Begin(node, id) => Running(s, node) && s.workers[node].phase.Ticked? && id !in s.attempts
    case Serve(node) => Running(s, node) && s.workers[node].phase.Reading? && node !in s.served
    case Receive(node, lost, id) =>
      && Running(s, node) && s.workers[node].phase.Reading? && id !in s.attempts
      && (lost || node in s.served)
    case Land(id) => id in s.attempts && s.attempts[id].fate.Sent?
    case Reply(node) =>
      && Running(s, node) && s.workers[node].phase.Putting?
      && s.workers[node].phase.id in s.attempts && !s.attempts[s.workers[node].phase.id].fate.Sent?
    case GiveUp(node) => Running(s, node) && s.workers[node].phase.Putting?
    case Check(node, opening) => Running(s, node) && s.workers[node].phase.Checking?
    case Stop(node) => Running(s, node) && s.workers[node].phase.Resting?
    case Crash(node) => Running(s, node)
  }

  function After(s: State, e: Event): State
    requires Enabled(s, e)
  {
    match e
    case Pass(time) => s.(now := s.now + time)
    case Join(node, ttl, offset) =>
      s.(workers := s.workers[node := Fresh(ttl)], offsets := s.offsets[node := offset], served := s.served - {node})
    case Tick(node, failed) => Set(s, node, OnTick(s.workers[node], Clock(s, node), failed))
    case Begin(node, id) =>
      var w := s.workers[node];
      if w.owned.Some? then Send(s, node, w, Update(w.owned.value), Clock(s, node), id)
      else Set(s, node, w.(phase := Reading(Clock(s, node)))).(served := s.served - {node})
    case Serve(node) =>
      s.(served := s.served[node :=
           if s.lease.None? then NotFound else Found(s.lease.value.tag, s.lease.value.ttl)])
    case Receive(node, lost, id) =>
      var w := s.workers[node];
      var (next, decision) := OnRead(w, Clock(s, node), if lost then Failed else s.served[node]);
      if decision.Put? then Send(s, node, next, decision.mode, w.phase.started, id) else Set(s, node, next)
    case Land(id) =>
      var a := s.attempts[id];
      if Matches(s.lease, a.mode) then
        s.(lease := Some(Object(s.tags, a.ttl)),
           tags := s.tags + 1,
           history := s.history[s.tags := Written(a.node, a.ttl, a.started, s.now)],
           attempts := s.attempts[id := a.(fate := Landed(s.tags))])
      else s.(attempts := s.attempts[id := a.(fate := Rejected)])
    case Reply(node) =>
      var w := s.workers[node];
      var fate := s.attempts[w.phase.id].fate;
      Set(s, node, OnPut(w, Clock(s, node), w.phase.started,
                         if fate.Landed? then Stored(fate.tag) else Uncertain))
    case GiveUp(node) =>
      var w := s.workers[node];
      Set(s, node, OnPut(w, Clock(s, node), w.phase.started, Uncertain))
    case Check(node, opening) => Set(s, node, OnOpening(s.workers[node], Clock(s, node), opening))
    case Stop(node) => Set(s, node, OnStop(s.workers[node]))
    case Crash(node) => s.(workers := s.workers - {node})
  }

  predicate Run(run: seq<State>, events: seq<Event>) {
    && |run| == |events| + 1
    && run[0] == INITIAL
    && forall i :: 0 <= i < |events| ==> Enabled(run[i], events[i]) && run[i + 1] == After(run[i], events[i])
  }

  // ---------------------------------------------------------------------------------------------
  // The invariant

  /** The last instant that a write can vouch for. */
  function Expiry(written: Written): int {
    written.started + written.ttl
  }

  ghost predicate HistoryOk(s: State) {
    && (s.lease.None? ==> forall t :: t !in s.history)
    && (s.lease.Some? ==>
          s.lease.value.tag in s.history && s.history[s.lease.value.tag].ttl == s.lease.value.ttl)
    && forall t :: t in s.history ==>
         t < s.tags && ValidTtl(s.history[t].ttl) && s.history[t].started <= s.history[t].landed <= s.now
  }

  /** Whatever was written before has expired, or the same node holds the lease and for longer. */
  ghost predicate Superseded(s: State, t: Tag)
    requires t in s.history && s.lease.Some? && s.lease.value.tag in s.history
  {
    var current := s.history[s.lease.value.tag];
    || Expiry(s.history[t]) <= s.now
    || (s.history[t].node == current.node && Expiry(s.history[t]) <= Expiry(current))
  }

  /** A put on its way over a tag is a renewal by the node that wrote the tag, or the tag has been there for
      its whole lease time. */
  ghost predicate AttemptOk(s: State, id: nat)
    requires id in s.attempts
  {
    var a := s.attempts[id];
    && ValidTtl(a.ttl)
    && a.started <= s.now
    && (a.fate.Landed? ==>
          a.fate.tag in s.history && var h := s.history[a.fate.tag];
          h.node == a.node && h.ttl == a.ttl && h.started == a.started)
    && (a.fate.Sent? && a.mode.Update? ==>
          a.mode.tag in s.history && var h := s.history[a.mode.tag];
          || (h.node == a.node && Expiry(h) <= a.started + a.ttl)
          || h.landed + h.ttl <= s.now)
  }

  /** What a worker believes is true of the history. */
  ghost predicate WorkerOk(s: State, node: Node)
    requires node in s.workers
  {
    var w := s.workers[node];
    && node in s.offsets
    && ValidTtl(w.ttl)
    && Consistent(w)
    && (w.observed.Some? ==>
          w.observed.value.0 in s.history
          && s.history[w.observed.value.0].landed + s.offsets[node] <= w.observed.value.1 <= Clock(s, node))
    && (w.owned.Some? ==>
          w.owned.value in s.history && var h := s.history[w.owned.value];
          h.node == node && h.ttl == w.ttl && w.deadline == Expiry(h) + s.offsets[node])
    && (w.phase.Reading? ==> w.phase.started <= Clock(s, node))
    && (w.phase.Putting? ==>
          w.phase.id in s.attempts && var a := s.attempts[w.phase.id];
          a.node == node && a.ttl == w.ttl && a.started + s.offsets[node] == w.phase.started)
    && (node in s.served && s.served[node].Found? ==>
          s.served[node].tag in s.history && s.history[s.served[node].tag].ttl == s.served[node].ttl)
  }

  ghost predicate Inv(s: State) {
    && HistoryOk(s)
    && (forall t :: t in s.history ==> Superseded(s, t))
    && (forall id :: id in s.attempts ==> AttemptOk(s, id))
    && (forall node :: node in s.workers ==> WorkerOk(s, node))
  }

  /** What a put that lands replaces has expired, or is the same node's and expires no later. */
  lemma LandSupersedes(s: State, id: nat, t: Tag)
    requires Inv(s) && Enabled(s, Land(id)) && Matches(s.lease, s.attempts[id].mode)
    requires t in After(s, Land(id)).history
    ensures Superseded(After(s, Land(id)), t)
  {
    assert AttemptOk(s, id);
    if t in s.history && t != s.tags { assert Superseded(s, t); }
  }

  lemma LandAttempt(s: State, id: nat, other: nat)
    requires Inv(s) && Enabled(s, Land(id)) && other in s.attempts
    ensures AttemptOk(After(s, Land(id)), other)
  {
    assert AttemptOk(s, other);
  }

  lemma LandWorker(s: State, id: nat, node: Node)
    requires Inv(s) && Enabled(s, Land(id)) && node in s.workers
    ensures WorkerOk(After(s, Land(id)), node)
  {
    assert WorkerOk(s, node);
  }

  lemma LandHistory(s: State, id: nat)
    requires Inv(s) && Enabled(s, Land(id))
    ensures HistoryOk(After(s, Land(id)))
  {
    assert AttemptOk(s, id);
  }

  lemma LandKeeps(s: State, id: nat)
    requires Inv(s) && Enabled(s, Land(id))
    ensures Inv(After(s, Land(id)))
  {
    var t := After(s, Land(id));
    LandHistory(s, id);
    forall x | x in t.history ensures Superseded(t, x) {
      if Matches(s.lease, s.attempts[id].mode) { LandSupersedes(s, id, x); } else { assert Superseded(s, x); }
    }
    forall i | i in t.attempts ensures AttemptOk(t, i) { LandAttempt(s, id, i); }
    forall x | x in t.workers ensures WorkerOk(t, x) { LandWorker(s, id, x); }
  }

  /** A step inside one worker. */
  lemma LocalKeeps(s: State, node: Node, w: Local)
    requires Inv(s) && node in s.workers && WorkerOk(Set(s, node, w), node)
    ensures Inv(Set(s, node, w))
  {
    var t := Set(s, node, w);
    forall x | x in t.workers ensures WorkerOk(t, x) { if x != node { assert WorkerOk(s, x); } }
    forall x | x in t.history ensures Superseded(t, x) { assert Superseded(s, x); }
    forall id | id in t.attempts ensures AttemptOk(t, id) { assert AttemptOk(s, id); }
  }

  /** A put leaves the worker. */
  lemma SendKeeps(s: State, node: Node, w: Local, mode: Mode, started: Instant, id: nat)
    requires Inv(s) && node in s.workers && node in s.offsets && id !in s.attempts
    requires AttemptOk(Send(s, node, w, mode, started, id), id)
    requires WorkerOk(Send(s, node, w, mode, started, id), node)
    ensures Inv(Send(s, node, w, mode, started, id))
  {
    var t := Send(s, node, w, mode, started, id);
    forall x | x in t.workers ensures WorkerOk(t, x) { if x != node { assert WorkerOk(s, x); } }
    forall x | x in t.history ensures Superseded(t, x) { assert Superseded(s, x); }
    forall i | i in t.attempts ensures AttemptOk(t, i) { if i != id { assert AttemptOk(s, i); } }
  }

  lemma PassKeeps(s: State, time: nat)
    requires Inv(s)
    ensures Inv(After(s, Pass(time)))
  {
    var t := After(s, Pass(time));
    forall x | x in t.workers ensures WorkerOk(t, x) { assert WorkerOk(s, x); }
    forall x | x in t.history ensures Superseded(t, x) { assert Superseded(s, x); }
    forall i | i in t.attempts ensures AttemptOk(t, i) { assert AttemptOk(s, i); }
  }

  lemma JoinKeeps(s: State, node: Node, ttl: nat, offset: int)
    requires Inv(s) && Enabled(s, Join(node, ttl, offset))
    ensures Inv(After(s, Join(node, ttl, offset)))
  {
    var t := After(s, Join(node, ttl, offset));
    forall x | x in t.workers ensures WorkerOk(t, x) { if x != node { assert WorkerOk(s, x); } }
    forall x | x in t.history ensures Superseded(t, x) { assert Superseded(s, x); }
    forall i | i in t.attempts ensures AttemptOk(t, i) { assert AttemptOk(s, i); }
  }

  lemma BeginKeeps(s: State, node: Node, id: nat)
    requires Inv(s) && Enabled(s, Begin(node, id))
    ensures Inv(After(s, Begin(node, id)))
  {
    var w := s.workers[node];
    assert WorkerOk(s, node);
    if w.owned.Some? {
      SendKeeps(s, node, w, Update(w.owned.value), Clock(s, node), id);
    } else {
      LocalKeeps(s, node, w.(phase := Reading(Clock(s, node))));
      ForgetKeeps(Set(s, node, w.(phase := Reading(Clock(s, node)))), node);
    }
  }

  lemma ForgetKeeps(s: State, node: Node)
    requires Inv(s)
    ensures Inv(s.(served := s.served - {node}))
  {
    var t := s.(served := s.served - {node});
    forall x | x in t.workers ensures WorkerOk(t, x) { assert WorkerOk(s, x); }
    forall x | x in t.history ensures Superseded(t, x) { assert Superseded(s, x); }
    forall i | i in t.attempts ensures AttemptOk(t, i) { assert AttemptOk(s, i); }
  }

  lemma ServeKeeps(s: State, node: Node)
    requires Inv(s) && Enabled(s, Serve(node))
    ensures Inv(After(s, Serve(node)))
  {
    var t := After(s, Serve(node));
    forall x | x in t.workers ensures WorkerOk(t, x) { assert WorkerOk(s, x); }
    forall x | x in t.history ensures Superseded(t, x) { assert Superseded(s, x); }
    forall i | i in t.attempts ensures AttemptOk(t, i) { assert AttemptOk(s, i); }
  }

  lemma ReceiveKeeps(s: State, node: Node, lost: bool, id: nat)
    requires Inv(s) && Enabled(s, Receive(node, lost, id))
    ensures Inv(After(s, Receive(node, lost, id)))
  {
    var w := s.workers[node];
    assert WorkerOk(s, node);
    var (next, decision) := OnRead(w, Clock(s, node), if lost then Failed else s.served[node]);
    if decision.Put? {
      SendKeeps(s, node, next, decision.mode, w.phase.started, id);
    } else {
      LocalKeeps(s, node, next);
    }
  }

  lemma CrashKeeps(s: State, node: Node)
    requires Inv(s)
    ensures Inv(s.(workers := s.workers - {node}))
  {
    var t := s.(workers := s.workers - {node});
    forall x | x in t.workers ensures WorkerOk(t, x) { assert WorkerOk(s, x); }
    forall x | x in t.history ensures Superseded(t, x) { assert Superseded(s, x); }
    forall i | i in t.attempts ensures AttemptOk(t, i) { assert AttemptOk(s, i); }
  }

  /** Every step keeps the invariant. */
  lemma StepKeeps(s: State, e: Event)
    requires Inv(s) && Enabled(s, e)
    ensures Inv(After(s, e))
  {
    match e
    case Pass(time) => PassKeeps(s, time);
    case Join(node, ttl, offset) => JoinKeeps(s, node, ttl, offset);
    case Begin(node, id) => BeginKeeps(s, node, id);
    case Serve(node) => ServeKeeps(s, node);
    case Receive(node, lost, id) => ReceiveKeeps(s, node, lost, id);
    case Land(id) => LandKeeps(s, id);
    case Crash(node) => CrashKeeps(s, node);
    case Tick(node, failed) => TickKeeps(s, node, failed);
    case Reply(node) => ReplyKeeps(s, node);
    case GiveUp(node) => GiveUpKeeps(s, node);
    case Check(node, opening) => CheckKeeps(s, node, opening);
    case Stop(node) => StopKeeps(s, node);
  }

  lemma TickKeeps(s: State, node: Node, failed: bool)
    requires Inv(s) && Enabled(s, Tick(node, failed))
    ensures Inv(After(s, Tick(node, failed)))
  {
    assert WorkerOk(s, node);
    LocalKeeps(s, node, OnTick(s.workers[node], Clock(s, node), failed));
  }

  lemma ReplyKeeps(s: State, node: Node)
    requires Inv(s) && Enabled(s, Reply(node))
    ensures Inv(After(s, Reply(node)))
  {
    assert WorkerOk(s, node) && AttemptOk(s, s.workers[node].phase.id);
    LocalKeeps(s, node, After(s, Reply(node)).workers[node]);
  }

  lemma GiveUpKeeps(s: State, node: Node)
    requires Inv(s) && Enabled(s, GiveUp(node))
    ensures Inv(After(s, GiveUp(node)))
  {
    assert WorkerOk(s, node);
    LocalKeeps(s, node, After(s, GiveUp(node)).workers[node]);
  }

  lemma CheckKeeps(s: State, node: Node, opening: Opening)
    requires Inv(s) && Enabled(s, Check(node, opening))
    ensures Inv(After(s, Check(node, opening)))
  {
    assert WorkerOk(s, node);
    LocalKeeps(s, node, OnOpening(s.workers[node], Clock(s, node), opening));
  }

  lemma StopKeeps(s: State, node: Node)
    requires Inv(s) && Enabled(s, Stop(node))
    ensures Inv(After(s, Stop(node)))
  {
    assert WorkerOk(s, node);
    LocalKeeps(s, node, OnStop(s.workers[node]));
  }

  lemma {:induction false} RunKeeps(run: seq<State>, events: seq<Event>, i: nat)
    requires Run(run, events) && i < |run|
    ensures Inv(run[i])
  {
    if i > 0 {
      RunKeeps(run, events, i - 1);
      StepKeeps(run[i - 1], events[i - 1]);
    }
  }

  // ---------------------------------------------------------------------------------------------
  // What follows

  /** A worker that would answer a request now. */
  predicate Admitting(s: State, node: Node) {
    Running(s, node) && Admits(s.workers[node], Clock(s, node), false)
  }

  /** A worker that answers holds the lease: the object was last written by it, and its deadline is no later
      than what that write vouches for. */
  lemma AdmittingHolds(s: State, node: Node)
    requires Inv(s) && Admitting(s, node)
    ensures s.lease.Some? && s.lease.value.tag in s.history
    ensures s.history[s.lease.value.tag].node == node
    ensures s.workers[node].active.value.until - s.offsets[node] <= Expiry(s.history[s.lease.value.tag])
  {
    assert WorkerOk(s, node);
    assert Superseded(s, s.workers[node].owned.value);
  }

  /** At no instant of any run do two workers answer requests. */
  lemma Exclusive(run: seq<State>, events: seq<Event>, i: nat, a: Node, b: Node)
    requires Run(run, events) && i < |run| && Admitting(run[i], a) && Admitting(run[i], b)
    ensures a == b
  {
    RunKeeps(run, events, i);
    AdmittingHolds(run[i], a);
    AdmittingHolds(run[i], b);
  }

  /** When a put of another node takes the lease, the last admission deadline of every other worker has
      passed, whatever that worker still believes and whichever replies are still on their way. */
  lemma TakeoverAfterDeadlines(run: seq<State>, events: seq<Event>, i: nat, node: Node)
    requires Run(run, events) && i < |events| && events[i].Land?
    requires Matches(run[i].lease, run[i].attempts[events[i].id].mode)
    requires Running(run[i], node) && node != run[i].attempts[events[i].id].node
    ensures !Admitting(run[i], node)
    ensures run[i].workers[node].owned.Some? ==> Clock(run[i], node) >= run[i].workers[node].deadline
  {
    RunKeeps(run, events, i);
    RunKeeps(run, events, i + 1);
    var s, t := run[i], run[i + 1];
    assert WorkerOk(t, node);
    if s.workers[node].owned.Some? { assert Superseded(t, t.workers[node].owned.value); }
  }

  /** In any state of any run: what serves was opened in the current unbroken term of an owner, and nothing
      serves once the loop has ended. */
  lemma TermsConsistent(run: seq<State>, events: seq<Event>, i: nat, node: Node)
    requires Run(run, events) && i < |run| && node in run[i].workers
    ensures var w := run[i].workers[node];
            && (w.active.Some? || w.opening.Some? ==> w.owned.Some?)
            && !(w.active.Some? && w.opening.Some?)
            && (w.active.Some? ==> w.active.value == Serving(w.term, w.deadline))
            && (w.phase.Stopped? ==> w.active.None?)
  {
    RunKeeps(run, events, i);
    assert WorkerOk(run[i], node);
  }

  /** A worker never has to give up because of what it reads: every lease it can read is valid. */
  lemma LeaseAlwaysValid(run: seq<State>, events: seq<Event>, i: nat)
    requires Run(run, events) && i < |run| && run[i].lease.Some?
    ensures ValidTtl(run[i].lease.value.ttl)
  {
    RunKeeps(run, events, i);
  }

  lemma Extended(run: seq<State>, events: seq<Event>, e: Event)
    requires Run(run, events) && Enabled(run[|run| - 1], e)
    ensures Run(run + [After(run[|run| - 1], e)], events + [e])
  {}

  function Play(s: State, events: seq<Event>): Option<State>
    decreases |events|
  {
    if events == [] then Some(s)
    else if Enabled(s, events[0]) then Play(After(s, events[0]), events[1..]) else None
  }

  lemma {:induction false} Played(run: seq<State>, events: seq<Event>, more: seq<Event>)
    returns (r: seq<State>, es: seq<Event>)
    requires Run(run, events) && Play(run[|run| - 1], more).Some?
    ensures Run(r, es) && r[|r| - 1] == Play(run[|run| - 1], more).value
    decreases |more|
  {
    if more == [] {
      r, es := run, events;
    } else {
      Extended(run, events, more[0]);
      r, es := Played(run + [After(run[|run| - 1], more[0])], events + [more[0]], more[1..]);
    }
  }

  lemma PlayFirst(s: State, e: Event, rest: seq<Event>)
    requires Enabled(s, e)
    ensures Play(s, [e] + rest) == Play(After(s, e), rest)
  {
    assert ([e] + rest)[1..] == rest;
  }

  /** A lone worker comes to serve: the protocol does not exclude by never admitting anyone. */
  lemma SomeoneServes(node: Node, ttl: nat, offset: int) returns (run: seq<State>, events: seq<Event>)
    requires ValidTtl(ttl)
    ensures Run(run, events) && Admitting(run[|run| - 1], node)
  {
    var s3 := After(After(After(INITIAL, Join(node, ttl, offset)), Tick(node, false)), Begin(node, 0));
    var s4 := After(s3, Serve(node));
    var w := Fresh(ttl).(phase := Reading(offset));
    assert s4 == INITIAL.(workers := map[node := w], offsets := map[node := offset], served := map[node := NotFound]);
    LeaseTaken(node, ttl, offset, s4);
    var last := [Receive(node, false, 0), Land(0), Reply(node), Check(node, Opened)];
    PlayFirst(s3, Serve(node), last);
    PlayFirst(After(After(INITIAL, Join(node, ttl, offset)), Tick(node, false)), Begin(node, 0), [Serve(node)] + last);
    PlayFirst(After(INITIAL, Join(node, ttl, offset)), Tick(node, false), [Begin(node, 0)] + ([Serve(node)] + last));
    PlayFirst(INITIAL, Join(node, ttl, offset), [Tick(node, false)] + ([Begin(node, 0)] + ([Serve(node)] + last)));
    run, events := Played([INITIAL], [],
      [Join(node, ttl, offset)] + ([Tick(node, false)] + ([Begin(node, 0)] + ([Serve(node)] + last))));
  }

  lemma LeaseTaken(node: Node, ttl: nat, offset: int, s: State)
    requires ValidTtl(ttl)
    requires s == INITIAL.(
               workers := map[node := Fresh(ttl).(phase := Reading(offset))], offsets := map[node := offset],
               served := map[node := NotFound])
    ensures var end := Play(s, [Receive(node, false, 0), Land(0), Reply(node), Check(node, Opened)]);
            end.Some? && Admitting(end.value, node)
  {
    var s1 := After(s, Receive(node, false, 0));
    var s2 := After(s1, Land(0));
    var s3 := After(s2, Reply(node));
    assert s3.workers[node].phase.Checking? && s3.workers[node].opening == Some(1);
    var s4 := After(s3, Check(node, Opened));
    assert Admitting(s4, node);
    assert Play(s4, []) == Some(s4);
    PlayFirst(s3, Check(node, Opened), []);
    PlayFirst(s2, Reply(node), [Check(node, Opened)]);
    PlayFirst(s1, Land(0), [Reply(node), Check(node, Opened)]);
    PlayFirst(s, Receive(node, false, 0), [Land(0), Reply(node), Check(node, Opened)]);
    assert [Receive(node, false, 0)] + [Land(0), Reply(node), Check(node, Opened)] ==
           [Receive(node, false, 0), Land(0), Reply(node), Check(node, Opened)];
    assert [Land(0)] + [Reply(node), Check(node, Opened)] == [Land(0), Reply(node), Check(node, Opened)];
    assert [Reply(node)] + [Check(node, Opened)] == [Reply(node), Check(node, Opened)];
    assert [Check(node, Opened)] + [] == [Check(node, Opened)];
  }
}
