/** How many uploads, and how many bytes of them, an agent and all agents together may have under way. */
module Admission {
  import opened Base

  datatype AgentState = AgentState(requests: int, bytes: int)

  /** One admitted upload, until it is released. */
  datatype Lease = Lease(agent: nat, bytes: nat, released: bool)

  datatype Refusal = LengthRequired | TooLarge | TooManyRequests

  function BytesOf(a: nat): Lease -> nat { (l: Lease) => if l.agent == a && !l.released then l.bytes else 0 }

  function CountOf(a: nat): Lease -> nat { (l: Lease) => if l.agent == a && !l.released then 1 else 0 }

  function HeldBytes(l: Lease): nat { if l.released then 0 else l.bytes }

  function StateBytes(s: AgentState): nat { if s.bytes > 0 then s.bytes else 0 }

  function StateOf(perAgent: map<nat, AgentState>, a: nat): AgentState {
    if a in perAgent then perAgent[a] else AgentState(0, 0)
  }

  type Leases = map<nat, Lease>

  /** Each agent's numbers are those of its own unreleased uploads. */
  ghost predicate Tallied(perAgent: map<nat, AgentState>, leases: Leases) {
    forall a :: StateOf(perAgent, a) == AgentState(Sum(leases, CountOf(a)), Sum(leases, BytesOf(a)))
  }

  lemma TallyChange(leases: Leases, t: nat, l: Lease, a: nat)
    ensures t !in leases ==> Sum(leases[t := l], BytesOf(a)) == Sum(leases, BytesOf(a)) + BytesOf(a)(l)
    ensures t !in leases ==> Sum(leases[t := l], CountOf(a)) == Sum(leases, CountOf(a)) + CountOf(a)(l)
    ensures t in leases ==> Sum(leases[t := l], BytesOf(a)) + BytesOf(a)(leases[t]) == Sum(leases, BytesOf(a)) + BytesOf(a)(l)
    ensures t in leases ==> Sum(leases[t := l], CountOf(a)) + CountOf(a)(leases[t]) == Sum(leases, CountOf(a)) + CountOf(a)(l)
  {
    SumInsert(leases, BytesOf(a), t, l);
    SumInsert(leases, CountOf(a), t, l);
  }

  lemma TalliedAdd(perAgent: map<nat, AgentState>, leases: Leases, t: nat, agent: nat, bytes: nat)
    requires Tallied(perAgent, leases) && t !in leases
    ensures var s := StateOf(perAgent, agent);
      Tallied(perAgent[agent := AgentState(s.requests + 1, s.bytes + bytes)], leases[t := Lease(agent, bytes, false)])
  {
    var s := StateOf(perAgent, agent);
    var perAgent', leases' := perAgent[agent := AgentState(s.requests + 1, s.bytes + bytes)], leases[t := Lease(agent, bytes, false)];
    forall a ensures StateOf(perAgent', a) == AgentState(Sum(leases', CountOf(a)), Sum(leases', BytesOf(a))) {
      TallyChange(leases, t, Lease(agent, bytes, false), a);
      assert StateOf(perAgent, a) == AgentState(Sum(leases, CountOf(a)), Sum(leases, BytesOf(a)));
    }
  }

  /** What a release leaves of an agent's state: nothing once both numbers are down. */
  function Lowered(perAgent: map<nat, AgentState>, agent: nat, bytes: nat): map<nat, AgentState> {
    if agent !in perAgent then perAgent
    else
      var s := AgentState(perAgent[agent].requests - 1, perAgent[agent].bytes - bytes);
      if s.requests <= 0 && s.bytes <= 0 then perAgent - {agent} else perAgent[agent := s]
  }

  lemma TalliedRelease(perAgent: map<nat, AgentState>, leases: Leases, t: nat)
    requires Tallied(perAgent, leases) && t in leases && !leases[t].released
    ensures var l := leases[t];
      && l.agent in perAgent && perAgent[l.agent].requests >= 1 && perAgent[l.agent].bytes >= l.bytes
      && Tallied(Lowered(perAgent, l.agent, l.bytes), leases[t := l.(released := true)])
  {
    var l := leases[t];
    var perAgent', leases' := Lowered(perAgent, l.agent, l.bytes), leases[t := l.(released := true)];
    TallyChange(leases, t, l.(released := true), l.agent);
    assert StateOf(perAgent, l.agent) == AgentState(Sum(leases, CountOf(l.agent)), Sum(leases, BytesOf(l.agent)));
    forall a ensures StateOf(perAgent', a) == AgentState(Sum(leases', CountOf(a)), Sum(leases', BytesOf(a))) {
      TallyChange(leases, t, l.(released := true), a);
      assert StateOf(perAgent, a) == AgentState(Sum(leases, CountOf(a)), Sum(leases, BytesOf(a)));
    }
  }

  class AgentUploadAdmission {
    const maxRequestsPerAgent: nat
    const maxBytesPerAgent: nat
    const maxBytesGlobal: nat
    var perAgent: map<nat, AgentState>
    var globalBytes: int
    var leases: Leases       // the `released` flags the release functions close over, by upload
    var nextLease: nat

    ghost predicate Valid()
      reads this
    {
      && Tallied(perAgent, leases)
      && globalBytes == Sum(leases, HeldBytes) == Sum(perAgent, StateBytes) && globalBytes <= maxBytesGlobal
      && (forall a :: a in perAgent ==> 0 <= perAgent[a].requests <= maxRequestsPerAgent && 0 <= perAgent[a].bytes <= maxBytesPerAgent)
      && (forall t :: t in leases ==> t < nextLease)
    }

    constructor (maxRequestsPerAgent: nat, maxBytesPerAgent: nat, maxBytesGlobal: nat)
      ensures Valid() && perAgent == map[] && leases == map[] && globalBytes == 0
      ensures this.maxRequestsPerAgent == maxRequestsPerAgent && this.maxBytesPerAgent == maxBytesPerAgent && this.maxBytesGlobal == maxBytesGlobal
    {
      this.maxRequestsPerAgent, this.maxBytesPerAgent, this.maxBytesGlobal := maxRequestsPerAgent, maxBytesPerAgent, maxBytesGlobal;
      perAgent, globalBytes, leases, nextLease := map[], 0, map[], 0;
    }

    /** Admits an upload or says why not. A refusal by the limits in use may leave an entry of zeros for
        an agent that had none; it counts for nothing. */
    method Acquire(agent: nat, requestBytes: int) returns (r: Result<nat, Refusal>)
      requires Valid()
      modifies this
      ensures Valid()
      ensures forall a :: StateOf(perAgent, a) == if r.Ok? && a == agent
        then AgentState(old(StateOf(perAgent, agent)).requests + 1, old(StateOf(perAgent, agent)).bytes + requestBytes) else old(StateOf(perAgent, a))
      ensures r.Ok? ==> requestBytes >= 0 && r.value !in old(leases) && leases == old(leases)[r.value := Lease(agent, requestBytes, false)]
      ensures r.Ok? ==> globalBytes == old(globalBytes) + requestBytes
      ensures r.Err? ==> leases == old(leases) && globalBytes == old(globalBytes) && perAgent.Keys <= old(perAgent).Keys + {agent}
      ensures r == Err(LengthRequired) <==> requestBytes < 0
      ensures r == Err(TooLarge) <==> requestBytes >= 0 && (requestBytes > maxBytesPerAgent || requestBytes > maxBytesGlobal)
      ensures r.Ok? <==> (
        && 0 <= requestBytes <= maxBytesPerAgent && requestBytes <= maxBytesGlobal
        && old(StateOf(perAgent, agent)).requests < maxRequestsPerAgent
        && old(StateOf(perAgent, agent)).bytes + requestBytes <= maxBytesPerAgent && old(globalBytes) + requestBytes <= maxBytesGlobal)
    {
      hide Tallied, Sum;
      if requestBytes < 0 { return Err(LengthRequired); }
      if requestBytes > maxBytesPerAgent { return Err(TooLarge); }
      if requestBytes > maxBytesGlobal { return Err(TooLarge); }
      if agent !in perAgent {
        EmptyEntry(perAgent, leases, agent);
        perAgent := perAgent[agent := AgentState(0, 0)];
      }
      var state := perAgent[agent];
      if state.requests >= maxRequestsPerAgent { return Err(TooManyRequests); }
      if state.bytes + requestBytes > maxBytesPerAgent { return Err(TooManyRequests); }
      if globalBytes + requestBytes > maxBytesGlobal { return Err(TooManyRequests); }
      var lease := Grant(agent, requestBytes);
      r := Ok(lease);
    }

    /** Books a request that is within all limits. */
    method Grant(agent: nat, requestBytes: nat) returns (lease: nat)
      requires Valid() && agent in perAgent
      requires perAgent[agent].requests < maxRequestsPerAgent && perAgent[agent].bytes + requestBytes <= maxBytesPerAgent
      requires globalBytes + requestBytes <= maxBytesGlobal
      modifies this
      ensures Valid()
      ensures perAgent == old(perAgent)[agent := AgentState(old(perAgent)[agent].requests + 1, old(perAgent)[agent].bytes + requestBytes)]
      ensures lease !in old(leases) && leases == old(leases)[lease := Lease(agent, requestBytes, false)]
      ensures globalBytes == old(globalBytes) + requestBytes
    {
      hide Tallied, Sum;
      lease := nextLease;
      TalliedAdd(perAgent, leases, lease, agent, requestBytes);
      var raised := AgentState(perAgent[agent].requests + 1, perAgent[agent].bytes + requestBytes);
      SumInsert(perAgent, StateBytes, agent, raised);
      SumInsert(leases, HeldBytes, lease, Lease(agent, requestBytes, false));
      perAgent, globalBytes := perAgent[agent := raised], globalBytes + requestBytes;
      leases, nextLease := leases[lease := Lease(agent, requestBytes, false)], lease + 1;
    }

    /** What the caller of a granted upload calls when it is done; calling it again does nothing. */
    method Release(t: nat)
      requires Valid() && t in leases
      modifies this
      ensures Valid() && leases == old(leases)[t := old(leases[t]).(released := true)]
      ensures old(leases[t].released) ==> perAgent == old(perAgent) && globalBytes == old(globalBytes)
      ensures !old(leases[t].released) ==>
        globalBytes == old(globalBytes) - leases[t].bytes && perAgent == Lowered(old(perAgent), leases[t].agent, leases[t].bytes)
    {
      hide Tallied, Sum;
      var lease := leases[t];
      if lease.released { assert leases == leases[t := lease.(released := true)]; return; }
      TalliedRelease(perAgent, leases, t);
      SumInsert(leases, HeldBytes, t, lease.(released := true));
      LoweredSum(perAgent, lease.agent, lease.bytes);
      var state := AgentState(perAgent[lease.agent].requests - 1, perAgent[lease.agent].bytes - lease.bytes);
      if state.requests <= 0 && state.bytes <= 0 {
        perAgent := perAgent - {lease.agent};
      } else {
        perAgent := perAgent[lease.agent := state];
      }
      leases := leases[t := lease.(released := true)];
      globalBytes := if globalBytes - lease.bytes < 0 then 0 else globalBytes - lease.bytes;
    }
  }

  lemma EmptyEntry(perAgent: map<nat, AgentState>, leases: Leases, agent: nat)
    requires Tallied(perAgent, leases) && agent !in perAgent
    ensures Tallied(perAgent[agent := AgentState(0, 0)], leases)
    ensures Sum(perAgent[agent := AgentState(0, 0)], StateBytes) == Sum(perAgent, StateBytes)
  {
    SumInsert(perAgent, StateBytes, agent, AgentState(0, 0));
    var perAgent' := perAgent[agent := AgentState(0, 0)];
    forall a ensures StateOf(perAgent', a) == AgentState(Sum(leases, CountOf(a)), Sum(leases, BytesOf(a))) {
      assert StateOf(perAgent, a) == AgentState(Sum(leases, CountOf(a)), Sum(leases, BytesOf(a)));
    }
  }

  lemma LoweredSum(perAgent: map<nat, AgentState>, agent: nat, bytes: nat)
    requires agent in perAgent && perAgent[agent].bytes >= bytes
    ensures Sum(Lowered(perAgent, agent, bytes), StateBytes) + bytes == Sum(perAgent, StateBytes)
  {
    var s := AgentState(perAgent[agent].requests - 1, perAgent[agent].bytes - bytes);
    SumRemove(perAgent, StateBytes, agent);
    SumInsert(perAgent, StateBytes, agent, s);
  }

  /** The totals are those of the uploads under way: with none, everything is at zero. */
  lemma NothingHeld(a: AgentUploadAdmission)
    requires a.Valid() && forall t :: t in a.leases ==> a.leases[t].released
    ensures a.globalBytes == 0 && forall g :: StateOf(a.perAgent, g) == AgentState(0, 0)
  {
    NoBytes(a.leases);
    forall g ensures StateOf(a.perAgent, g) == AgentState(0, 0) { NoneOf(a.leases, g); }
  }

  lemma {:induction false} NoBytes(m: Leases)
    requires forall t :: t in m ==> m[t].released
    ensures Sum(m, HeldBytes) == 0
    decreases |m|
  {
    if m != map[] {
      var t :| t in m;
      SumRemove(m, HeldBytes, t);
      NoBytes(m - {t});
    }
  }

  lemma {:induction false} NoneOf(m: Leases, g: nat)
    requires forall t :: t in m ==> m[t].released
    ensures Sum(m, BytesOf(g)) == 0 && Sum(m, CountOf(g)) == 0
    decreases |m|
  {
    if m != map[] {
      var t :| t in m;
      SumRemove(m, BytesOf(g), t);
      SumRemove(m, CountOf(g), t);
      NoneOf(m - {t}, g);
    }
  }
}
