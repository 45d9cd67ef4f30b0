/** application/election/coordinator.py: the staggered-timer election state machine of one node. */
module Election {
  import opened Prelude
  import opened Config

  datatype Phase = Idle | Pending | Claimed | Follower

  datatype Outcome = SelfElected(ip: string) | FollowingHost(ip: string, joinIndex: int)

  datatype Coordinator = Coordinator(
    joinIndex: int, ip: string, phase: Phase, hostIp: Option<string>, hostJoinIndex: Option<int>,
    knownPeers: set<string>, expiry: Option<real>)

  /** Lower join indices fire earlier. */
  function Delay(joinIndex: int): real { T_ELECTION_BASE_S + joinIndex as real * T_ELECTION_DELTA_S }

  function Fresh(joinIndex: int, ip: string): Coordinator { Coordinator(joinIndex, ip, Idle, None, None, {}, None) }

  function Started(c: Coordinator, peers: set<string>): Coordinator {
    c.(phase := Pending, knownPeers := peers, hostIp := None, hostJoinIndex := None)
  }

  function TimerSet(c: Coordinator, now: real): Coordinator { c.(expiry := Some(now + Delay(c.joinIndex))) }

  predicate Fires(c: Coordinator, now: real) { c.phase == Pending && c.expiry.Some? && now >= c.expiry.value }

  function Ticked(c: Coordinator, now: real): Coordinator { if Fires(c, now) then c.(phase := Claimed) else c }

  predicate Follows(c: Coordinator, claimerJoinIndex: int) { claimerJoinIndex < c.joinIndex }

  function ClaimHeard(c: Coordinator, claimerJoinIndex: int, claimerIp: string): Coordinator {
    if !Follows(c, claimerJoinIndex) then c
    else c.(phase := Follower, hostIp := Some(claimerIp), hostJoinIndex := Some(claimerJoinIndex), expiry := None)
  }

  class ElectionCoordinator {
    const joinIndex: int
    const myIp: string
    var phase: Phase
    var currentHostIp: Option<string>
    var currentHostJoinIndex: Option<int>
    var knownPeers: set<string>
    var electionTimerExpiry: Option<real>

    ghost function State(): Coordinator
      reads this
    {
      Coordinator(joinIndex, myIp, phase, currentHostIp, currentHostJoinIndex, knownPeers, electionTimerExpiry)
    }

    constructor (joinIndex: int, myIp: string)
      ensures State() == Fresh(joinIndex, myIp)
    {
      this.joinIndex, this.myIp := joinIndex, myIp;
      phase, currentHostIp, currentHostJoinIndex := Idle, None, None;
      knownPeers, electionTimerExpiry := {}, None;
    }

    method StartElection(peers: set<string>)
      modifies this
      ensures State() == Started(old(State()), peers)
    {
      phase, knownPeers := Pending, peers;
      currentHostIp, currentHostJoinIndex := None, None;
    }

    method SetElectionTimer(now: real)
      modifies this
      ensures State() == TimerSet(old(State()), now)
    {
      electionTimerExpiry := Some(now + (T_ELECTION_BASE_S + joinIndex as real * T_ELECTION_DELTA_S));
    }

    /** Raises when an election is pending without a timer. */
    method Tick(now: real) returns (r: Result<Option<Outcome>>)
      modifies this
      ensures r.Raised? <==> old(phase) == Pending && old(electionTimerExpiry).None?
      ensures State() == Ticked(old(State()), now)
      ensures r.Ok? ==> r.value == if old(Fires(State(), now)) then Some(SelfElected(myIp)) else None
    {
      if phase == Pending {
        if electionTimerExpiry.None? { return Raised("election_timer_expiry must be set"); }
        if now >= electionTimerExpiry.value {
          phase := Claimed;
          return Ok(Some(SelfElected(myIp)));
        }
      }
      return Ok(None);
    }

    method OnNewHostClaim(claimerJoinIndex: int, claimerIp: string) returns (outcome: Option<Outcome>)
      modifies this
      ensures State() == ClaimHeard(old(State()), claimerJoinIndex, claimerIp)
      ensures outcome == if claimerJoinIndex < joinIndex then Some(FollowingHost(claimerIp, claimerJoinIndex)) else None
    {
      if claimerJoinIndex >= joinIndex { return None; }
      phase, currentHostIp, currentHostJoinIndex := Follower, Some(claimerIp), Some(claimerJoinIndex);
      electionTimerExpiry := None;
      return Some(FollowingHost(claimerIp, claimerJoinIndex));
    }
  }
}
