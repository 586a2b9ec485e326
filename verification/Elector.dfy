/** One node of internal/election/election.go: the critical sections of the Elector, as functions on
    its mutex-protected fields and as the methods that execute them. */
module ElectorNode {

  type ID = string

  datatype Role = Follower | Candidate | Leader

  /** state, currentTerm, votedFor ("" for none) and leader ("" for unknown). */
  datatype Node = Node(role: Role, term: nat, votedFor: ID, leader: ID)

  /** Terms are uint64: incrementing the last one wraps to zero. */
  const TERMS: nat := 0x1_0000_0000_0000_0000

  /** The reply to a vote, heartbeat or append-wal request. */
  datatype Reply = Reply(ok: bool, term: nat)

  function Start(): (n: Node) { Node(Follower, 0, "", "") }

  /** runFollower: the election timer fires. */
  function OnTimeout(n: Node): (r: Node) { if n.role.Follower? then n.(role := Candidate) else n }

  /** runCandidate, first critical section. */
  function OnCampaign(n: Node, self: ID): (r: Node) {
    n.(term := (n.term + 1) % TERMS, votedFor := self, leader := "")
  }

  /** A reply carried a higher term: runCandidate and broadcastHeartbeat step down. */
  function OnHigherTerm(n: Node, term: nat): (r: Node) {
    if term > n.term then Node(Follower, term, "", "") else n
  }

  /** HandleVote; ours and theirs are the last log sequence numbers of the voter and the candidate, 0 for
      a node without a log. A request without a candidate is refused with an error, which its sender takes
      for no answer. */
  function OnVoteRequest(n: Node, term: nat, candidate: ID, ours: nat, theirs: nat): (r: (Node, Reply)) {
    if candidate == "" then (n, Reply(false, 0))
    else if term < n.term then (n, Reply(false, n.term))
    else
      var m := if term > n.term then Node(Follower, term, "", "") else n;
      if ours > theirs then (m, Reply(false, m.term))
      else if m.votedFor == "" || m.votedFor == candidate then (m.(votedFor := candidate), Reply(true, m.term))
      else (m, Reply(false, m.term))
  }

  /** The voting rule of section 5.4.1 of the Raft paper: the candidate has a name, is not from an older
      term, has at least our log, and we have not voted for another in its term. */
  predicate Grants(n: Node, term: nat, candidate: ID, ours: nat, theirs: nat) {
    && candidate != "" && term >= n.term && theirs >= ours
    && (term == n.term ==> n.votedFor == "" || n.votedFor == candidate)
  }

  /** A newer term makes a node a follower without a vote; an older one leaves it as it was. */
  function AtTerm(n: Node, term: nat): (m: Node) { if term > n.term then Node(Follower, term, "", "") else n }

  /** HandleHeartbeat after parsing. */
  function OnHeartbeat(n: Node, term: nat, leader: ID): (r: (Node, Reply)) {
    if term < n.term then (n, Reply(false, n.term))
    else (Node(Follower, term, if term > n.term then "" else n.votedFor, leader), Reply(true, term))
  }

  /** HandleAppendWAL after parsing; applied says whether the append function succeeded. */
  function OnAppendWAL(n: Node, term: nat, applied: bool): (r: (Node, Reply)) {
    if term < n.term then (n, Reply(false, n.term))
    else
      var m := if term > n.term then n.(role := Follower, term := term, votedFor := "") else n;
      (m, Reply(applied, term))
  }

  /** runCandidate, last critical section: the tally of a campaign for the given term. */
  function OnTally(n: Node, self: ID, term: nat, votes: nat, quorum: nat): (r: Node) {
    if n.role != Candidate || n.term != term then n
    else if votes >= quorum then n.(role := Leader, leader := self)
    else n.(role := Follower)
  }

  /** The Elector: every method below is one hold of its mutex. */
  class Elector {
    const self: ID
    var role: Role
    var currentTerm: nat
    var votedFor: ID
    var leader: ID

    ghost function State(): (n: Node)
      reads this
    {
      Node(role, currentTerm, votedFor, leader)
    }

    constructor (self: ID)
      ensures this.self == self && State() == Start()
    {
      this.self := self;
      role, currentTerm, votedFor, leader := Follower, 0, "", "";
    }

    method Timeout()
      modifies this
      ensures State() == OnTimeout(old(State()))
      ensures State() == old(State()).(role := if old(role) == Follower then Candidate else old(role))
    {
      if role != Follower {
        return;
      }
      role := Candidate;
    }

    /** A campaign is in the next term, which is new unless the counter wraps, and has its own vote. */
    method BeginCampaign() returns (term: nat)
      modifies this
      ensures State() == OnCampaign(old(State()), self) && term == State().term
      ensures old(currentTerm) < TERMS - 1 ==> term == old(currentTerm) + 1
      ensures old(currentTerm) == TERMS - 1 ==> term == 0
      ensures role == old(role) && votedFor == self && leader == ""
    {
      currentTerm := (currentTerm + 1) % TERMS;
      votedFor := self;
      leader := "";
      term := currentTerm;
    }

    method StepDown(peerTerm: nat)
      modifies this
      ensures State() == OnHigherTerm(old(State()), peerTerm)
      ensures State() == AtTerm(old(State()), peerTerm)
    {
      if peerTerm > currentTerm {
        currentTerm := peerTerm;
        votedFor := "";
        role := Follower;
        leader := "";
      }
    }

    /** The vote is granted exactly by the rule and is then on record; a refusal leaves the vote of the
        current term alone. */
    method HandleVote(term: nat, candidate: ID, voterLogSeq: nat, candidateLogSeq: nat) returns (reply: Reply)
      modifies this
      ensures (State(), reply) == OnVoteRequest(old(State()), term, candidate, voterLogSeq, candidateLogSeq)
      ensures reply.ok <==> Grants(old(State()), term, candidate, voterLogSeq, candidateLogSeq)
      ensures reply.ok ==> State() == AtTerm(old(State()), term).(votedFor := candidate)
      ensures !reply.ok ==> State() == if candidate == "" then old(State()) else AtTerm(old(State()), term)
    {
      if candidate == "" {
        return Reply(false, 0);
      }
      if term < currentTerm {
        return Reply(false, currentTerm);
      }
      if term > currentTerm {
        currentTerm := term;
        votedFor := "";
        role := Follower;
        leader := "";
      }
      if voterLogSeq > candidateLogSeq {
        return Reply(false, currentTerm);
      }
      if votedFor == "" || votedFor == candidate {
        votedFor := candidate;
        return Reply(true, currentTerm);
      }
      return Reply(false, currentTerm);
    }

    method HandleHeartbeat(term: nat, sender: ID) returns (reply: Reply)
      modifies this
      ensures (State(), reply) == OnHeartbeat(old(State()), term, sender)
      ensures reply.ok <==> term >= old(currentTerm)
      ensures reply.ok ==> role == Follower && currentTerm == term && leader == sender
      ensures reply.ok && term == old(currentTerm) ==> votedFor == old(votedFor)
      ensures reply.ok && term > old(currentTerm) ==> votedFor == ""
      ensures !reply.ok ==> State() == old(State()) && reply.term == currentTerm > term
    {
      if term < currentTerm {
        return Reply(false, currentTerm);
      }
      if term > currentTerm {
        currentTerm := term;
        votedFor := "";
      }
      role := Follower;
      leader := sender;
      return Reply(true, currentTerm);
    }

    method HandleAppendWAL(term: nat, applied: bool) returns (reply: Reply)
      modifies this
      ensures (State(), reply) == OnAppendWAL(old(State()), term, applied)
      ensures reply.ok <==> term >= old(currentTerm) && applied
      ensures State() == AtTerm(old(State()), term).(leader := old(leader))
    {
      if term < currentTerm {
        return Reply(false, currentTerm);
      }
      if term > currentTerm {
        currentTerm := term;
        votedFor := "";
        role := Follower;
      }
      return Reply(applied, term);
    }

    method Tally(term: nat, votes: nat, quorum: nat)
      modifies this
      ensures State() == OnTally(old(State()), self, term, votes, quorum)
      ensures currentTerm == old(currentTerm) && votedFor == old(votedFor)
      ensures old(role) == Candidate && currentTerm == term ==> role == if votes >= quorum then Leader else Follower
      ensures !(old(role) == Candidate && currentTerm == term) ==> State() == old(State())
      ensures role == Leader && old(role) != Leader ==> leader == self
    {
      if role != Candidate || currentTerm != term {
        return;
      }
      if votes >= quorum {
        role := Leader;
        leader := self;
        return;
      }
      role := Follower;
    }
  }
}
