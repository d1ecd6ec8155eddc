/** One worker of a shard: the ownership loop, with instants read from the worker's own clock. */
module Worker {
  import opened Wrappers

  type Instant = int
  type Tag = nat

  const MIN_TTL: nat := 3000
  const MAX_TTL: nat := 300_000

  /** An engine that serves until an instant. It was opened in some term of ownership. */
  datatype Serving = Serving(term: nat, until: Instant)

  datatype Mode = Create | Update(tag: Tag)

  /** Where the loop is. */
  datatype Phase =
    | Resting                                   // waiting for a tick
    | Ticked                                    // past the retirement check
    | Reading(started: Instant)                 // waiting for the lease
    | Putting(started: Instant, id: nat)        // waiting for a conditional put
    | Checking                                  // owner, about to look at the opening job
    | Stopped

  /** The variables of the loop, and the slot that requests read. The term counts how often ownership began. */
  datatype Local = Local(
    ttl: nat,
    observed: Option<(Tag, Instant)>,
    owned: Option<Tag>,
    deadline: Instant,
    opening: Option<nat>,
    active: Option<Serving>,
    phase: Phase,
    term: nat)

  /** What reading the lease object returned. */
  datatype Reading = Failed | NotFound | Found(tag: Tag, ttl: nat)

  /** What came back from the conditional put, if anything did in time. */
  datatype PutResult = Stored(tag: Tag) | Uncertain

  /** Broken: the job itself failed, or its engine cannot be routed to. */
  datatype Opening = Running | Opened | OpenFailed | Broken

  datatype Decision = Put(mode: Mode) | Wait | Exit

  predicate ValidTtl(ttl: nat) {
    MIN_TTL <= ttl <= MAX_TTL
  }

  function Fresh(ttl: nat): Local {
    Local(ttl, None, None, 0, None, None, Resting, 0)
  }

  /** Nothing serves and nothing is being opened. */
  function Retired(w: Local): Local {
    w.(owned := None, observed := None, opening := None, active := None)
  }

  /** The check at the head of the loop. */
  function OnTick(w: Local, now: Instant, failed: bool): Local {
    (if w.owned.Some? && (now >= w.deadline || (w.active.Some? && failed)) then Retired(w) else w).(phase := Ticked)
  }

  /** Whether to try for the lease after reading it, and what to remember. */
  function OnRead(w: Local, now: Instant, reading: Reading): (Local, Decision) {
    match reading
    case Failed => (w.(phase := Resting), Wait)
    case NotFound => (w, Put(Create))
    case Found(tag, ttl) =>
      if !ValidTtl(ttl) then (w.(phase := Stopped), Exit)
      else if w.observed.Some? && w.observed.value.0 == tag then
        if now - w.observed.value.1 >= ttl then (w, Put(Update(tag))) else (w.(phase := Resting), Wait)
      else (w.(observed := Some((tag, now)), phase := Resting), Wait)
  }

  /** Ownership is what a put proves in time; anything else is treated as loss. */
  function OnPut(w: Local, now: Instant, started: Instant, result: PutResult): Local {
    if result.Stored? && now - started < w.ttl then
      var deadline := started + w.ttl;
      var owner := w.(owned := Some(result.tag), deadline := deadline, phase := Checking);
      if w.owned.Some? then
        owner.(active := if w.active.Some? then Some(w.active.value.(until := deadline)) else None)
      else
        owner.(opening := Some(w.term + 1), term := w.term + 1)
    else
      Retired(w).(phase := Resting)
  }

  /** A finished opening serves only before the deadline. A broken one ends the loop. */
  function OnOpening(w: Local, now: Instant, opening: Opening): Local {
    if w.owned.Some? && w.opening.Some? && opening.Broken? then w.(opening := None, phase := Stopped)
    else (if w.owned.None? || w.opening.None? || opening.Running? then w
     else if opening.Opened? && now < w.deadline then
       w.(opening := None, active := Some(Serving(w.opening.value, w.deadline)))
     else
       w.(opening := None, owned := None, observed := None)).(phase := Resting)
  }

  function OnStop(w: Local): Local {
    w.(opening := None, active := None, phase := Stopped)
  }

  /** Admission of a request. */
  predicate Admits(w: Local, now: Instant, failed: bool) {
    w.active.Some? && now < w.active.value.until && !failed
  }

  /** Ownership terms: what serves or opens belongs to the current term of an owner, and never both. */
  ghost predicate Consistent(w: Local) {
    && (w.active.Some? || w.opening.Some? ==> w.owned.Some?)
    && !(w.active.Some? && w.opening.Some?)
    && (w.active.Some? ==> w.active.value == Serving(w.term, w.deadline))
    && (w.opening.Some? ==> w.opening.value == w.term)
    && (w.phase.Reading? || w.phase.Stopped? ==> w.active.None? && w.opening.None?)
    && (w.phase.Reading? ==> w.owned.None?)
  }

  /** The loop as an object. */
  class Loop {
    var local: Local

    constructor (ttl: nat)
      requires ValidTtl(ttl)
      ensures local == Fresh(ttl) && Consistent(local)
    {
      local := Fresh(ttl);
    }

    /** Clear the slot that requests read before anything else, then the opening job. */
    method Retire()
      modifies this
      ensures local == Retired(old(local))
    {
      local := local.(active := None);
      local := local.(opening := None);
      local := local.(owned := None, observed := None);
    }

    method Tick(now: Instant, failed: bool)
      requires Consistent(local) && local.phase.Resting?
      modifies this
      ensures local == OnTick(old(local), now, failed) && Consistent(local)
      ensures local.owned.Some? ==> now < local.deadline
    {
      var activeFailed := local.active.Some? && failed;
      if local.owned.Some? && (now >= local.deadline || activeFailed) {
        Retire();
      }
      local := local.(phase := Ticked);
    }

    method Read(now: Instant, reading: Reading) returns (decision: Decision)
      requires Consistent(local) && local.phase.Reading?
      modifies this
      ensures (local, decision) == OnRead(old(local), now, reading) && Consistent(local)
      ensures decision.Exit? ==> local.active.None?
      ensures decision == Put(Create) <==> reading.NotFound?
      ensures decision.Put? && decision.mode.Update? ==>
                var observed := old(local).observed;
                && reading.Found? && decision.mode.tag == reading.tag
                && observed.Some? && observed.value.0 == reading.tag && now - observed.value.1 >= reading.ttl
    {
      match reading {
        case Failed =>
          local, decision := local.(phase := Resting), Wait;
        case NotFound =>
          decision := Put(Create);
        case Found(tag, ttl) =>
          if !ValidTtl(ttl) {
            local, decision := local.(phase := Stopped), Exit;
          } else if local.observed.None? || local.observed.value.0 != tag {
            local, decision := local.(observed := Some((tag, now)), phase := Resting), Wait;
          } else if now - local.observed.value.1 >= ttl {
            decision := Put(Update(tag));
          } else {
            local, decision := local.(phase := Resting), Wait;
          }
      }
    }

    method Finish(now: Instant, result: PutResult)
      requires Consistent(local) && local.phase.Putting?
      modifies this
      ensures local == OnPut(old(local), now, old(local).phase.started, result) && Consistent(local)
      ensures local.owned.Some? <==> result.Stored? && now < old(local).phase.started + local.ttl
      ensures local.term == old(local).term + if old(local).owned.None? && local.owned.Some? then 1 else 0
    {
      var started, owner := local.phase.started, local.owned.Some?;
      if result.Stored? && now - started < local.ttl {
        local := local.(owned := Some(result.tag), deadline := started + local.ttl, phase := Checking);
        if !owner {
          local := local.(term := local.term + 1);
          local := local.(opening := Some(local.term));
        } else if local.active.Some? {
          local := local.(active := Some(local.active.value.(until := local.deadline)));
        }
      } else {
        Retire();
        local := local.(phase := Resting);
      }
    }

    method Check(now: Instant, opening: Opening)
      requires Consistent(local) && local.phase.Checking?
      modifies this
      ensures local == OnOpening(old(local), now, opening) && Consistent(local)
      ensures local.phase.Stopped? ==> local.active.None?
    {
      var stopped := false;
      if local.owned.Some? && local.opening.Some? && !opening.Running? {
        var term := local.opening.value;
        local := local.(opening := None);
        if opening.Opened? && now < local.deadline {
          local := local.(active := Some(Serving(term, local.deadline)));
        } else if opening.Broken? {
          stopped := true;
        } else {
          local := local.(owned := None, observed := None);
        }
      }
      local := local.(phase := if stopped then Stopped else Resting);
    }

    method Stop()
      requires Consistent(local)
      modifies this
      ensures local == OnStop(old(local)) && local.active.None? && Consistent(local)
    {
      local := local.(active := None);
      local := local.(opening := None, phase := Stopped);
    }
  }
}
