/** The election protocol of internal/election as a transition system. Requests and replies travel
    through a network that delays, reorders, repeats and loses them; heartbeats and append-wal
    requests outside ReplicateEntry carry arbitrary terms and senders. */
module ElectionModel {
  import opened ElectorNode

  /** Where a node's Run loop is. In a campaign: the votes counted so far, who gave them, and the
      peers whose goroutine has not finished. */
  datatype Run =
    | AtLoop
    | InFollower
    | InCandidate
    | Campaigning(term: nat, votes: nat, yes: set<ID>, waiting: set<ID>)
    | InLeader

  /** lastLog is the candidate's last log sequence number when the request was made. */
  datatype VoteRequest = VoteRequest(candidate: ID, term: nat, lastLog: nat)

  /** log is the voter's last log sequence number when it answered. */
  datatype VoteReply = VoteReply(voter: ID, request: VoteRequest, reply: Reply, log: nat)

  /** One vote given: voter, term, candidate. */
  datatype Vote = Vote(voter: ID, term: nat, candidate: ID)

  /** A ReplicateEntry call: the role check, then the term it read, the acks it counted and, as history, the
      peers that applied the entry. */
  datatype Push = Checked(caller: ID) | Pushing(caller: ID, term: nat, acks: set<ID>, stored: set<ID>)

  /** logs has the last log sequence number of every node, 0 for one without a log. votes and leaders are
      history: every vote ever given and every (node, term) that ever led. */
  datatype Sys = Sys(nodes: map<ID, Node>, runs: map<ID, Run>, logs: map<ID, nat>, requests: set<VoteRequest>,
                     replies: set<VoteReply>, pushes: seq<Push>, votes: set<Vote>, leaders: set<(ID, nat)>)

  datatype Action =
    | Dispatch(i: ID)
    | Timeout(i: ID)
    | Campaign(i: ID)
    | SendRequest(i: ID)
    | DeliverRequest(i: ID, request: VoteRequest)
    | DeliverReply(i: ID, reply: VoteReply)
    | LoseReply(i: ID, peer: ID)
    | Tally(i: ID)
    | LeaveLeader(i: ID)
    | Heartbeat(i: ID, term: nat, sender: ID)
    | Append(i: ID, term: nat, applied: bool)
    | HigherTerm(i: ID, term: nat)
    | LogChange(i: ID, seqNo: nat)
    | PushCheck(i: ID)
    | PushRead(i: ID, round: nat)
    | PushDeliver(i: ID, round: nat, applied: bool, acked: bool)

  /** The smallest majority. */
  function Quorum(peers: set<ID>): (q: nat)
    ensures 2 * q > |peers| && 2 * (q - 1) <= |peers|
  {
    |peers| / 2 + 1
  }

  function InitSys(peers: set<ID>): (s: Sys)
    ensures WellShaped(s, peers)
  {
    Sys(map i | i in peers :: Start(), map i | i in peers :: AtLoop, map i | i in peers :: 0, {}, {}, [], {}, {})
  }

  ghost predicate WellShaped(s: Sys, peers: set<ID>) { s.nodes.Keys == s.runs.Keys == s.logs.Keys == peers }

  predicate Enabled(s: Sys, peers: set<ID>, a: Action)
    requires WellShaped(s, peers)
  {
    a.i in peers && match a
      case Dispatch(i) => s.runs[i].AtLoop?
      case Timeout(i) => s.runs[i].InFollower?
      case Campaign(i) => s.runs[i].InCandidate?
      case SendRequest(i) => s.runs[i].Campaigning? && s.runs[i].waiting != {}
      case DeliverRequest(i, request) => request in s.requests && request.candidate != i
      case DeliverReply(i, reply) =>
        s.runs[i].Campaigning? && reply in s.replies && reply.voter in s.runs[i].waiting
        && reply.request.candidate == i && reply.request.term == s.runs[i].term
      case LoseReply(i, peer) => s.runs[i].Campaigning? && peer in s.runs[i].waiting
      case Tally(i) => s.runs[i].Campaigning? && s.runs[i].waiting == {}
      case LeaveLeader(i) => s.runs[i].InLeader? && !s.nodes[i].role.Leader?
      case Heartbeat(_, term, _) => term < TERMS
      case Append(_, term, _) => term < TERMS
      case HigherTerm(_, term) => term < TERMS
      case LogChange(_, _) => true
      case PushCheck(i) => s.nodes[i].role.Leader?
      case PushRead(i, round) => round < |s.pushes| && s.pushes[round] == Checked(i)
      case PushDeliver(i, round, _, _) =>
        round < |s.pushes| && s.pushes[round].Pushing? && s.pushes[round].caller != i
  }

  function Step(s: Sys, peers: set<ID>, a: Action): (t: Sys)
    requires WellShaped(s, peers) && Enabled(s, peers, a)
    ensures WellShaped(t, peers)
  {
    var n, run := s.nodes[a.i], s.runs[a.i];
    match a
    case Dispatch(i) =>
      var next :=
        match n.role case Follower => InFollower case Candidate => InCandidate case Leader => InLeader;
      s.(runs := s.runs[i := next])
    case Timeout(i) => s.(nodes := s.nodes[i := OnTimeout(n)], runs := s.runs[i := AtLoop])
    case Campaign(i) =>
      var m := OnCampaign(n, i);
      s.(nodes := s.nodes[i := m], runs := s.runs[i := Campaigning(m.term, 1, {i}, peers - {i})],
         votes := s.votes + {Vote(i, m.term, i)})
    case SendRequest(i) => s.(requests := s.requests + {VoteRequest(i, run.term, s.logs[i])})
    case DeliverRequest(i, q) =>
      var (m, r) := OnVoteRequest(n, q.term, q.candidate, s.logs[i], q.lastLog);
      s.(nodes := s.nodes[i := m], replies := s.replies + {VoteReply(i, q, r, s.logs[i])},
         votes := if r.ok then s.votes + {Vote(i, q.term, q.candidate)} else s.votes)
    case DeliverReply(i, v) =>
      var rest := run.waiting - {v.voter};
      if v.reply.term > run.term then
        s.(nodes := s.nodes[i := OnHigherTerm(n, v.reply.term)], runs := s.runs[i := run.(waiting := rest)])
      else if v.reply.ok then
        s.(runs := s.runs[i := Campaigning(run.term, run.votes + 1, run.yes + {v.voter}, rest)])
      else s.(runs := s.runs[i := run.(waiting := rest)])
    case LoseReply(i, peer) => s.(runs := s.runs[i := run.(waiting := run.waiting - {peer})])
    case Tally(i) =>
      var m := OnTally(n, i, run.term, run.votes, Quorum(peers));
      var won := n.role.Candidate? && n.term == run.term && run.votes >= Quorum(peers);
      s.(nodes := s.nodes[i := m], runs := s.runs[i := AtLoop],
         leaders := if won then s.leaders + {(i, run.term)} else s.leaders)
    case LeaveLeader(i) => s.(runs := s.runs[i := AtLoop])
    case Heartbeat(i, term, sender) => s.(nodes := s.nodes[i := OnHeartbeat(n, term, sender).0])
    case Append(i, term, applied) => s.(nodes := s.nodes[i := OnAppendWAL(n, term, applied).0])
    case HigherTerm(i, term) => s.(nodes := s.nodes[i := OnHigherTerm(n, term)])
    case LogChange(i, seqNo) => s.(logs := s.logs[i := seqNo])
    case PushCheck(i) => s.(pushes := s.pushes + [Checked(i)])
    case PushRead(i, round) => s.(pushes := s.pushes[round := Pushing(i, n.term, {i}, {})])
    case PushDeliver(i, round, applied, acked) =>
      var p := s.pushes[round];
      var (m, r) := OnAppendWAL(n, p.term, applied);
      s.(nodes := s.nodes[i := m],
         pushes := s.pushes[round := Pushing(p.caller, p.term, if r.ok && acked then p.acks + {i} else p.acks,
                                             if Applies(n, p.term, applied) then p.stored + {i} else p.stored)])
  }

  /** The entry of a round reaches the append function of this node, which succeeds. */
  predicate Applies(n: Node, term: nat, applied: bool) { term >= n.term && applied }

  /** The step does not increment the last uint64 term. */
  predicate NoWrap(s: Sys, a: Action)
    requires a.i in s.nodes
  {
    a.Campaign? ==> s.nodes[a.i].term + 1 < TERMS
  }

  // ---- the invariant ----

  /** The only vote for a nameless candidate is its own; every other vote is on record. */
  ghost predicate VotesKept(s: Sys) {
    forall v <- s.votes :: v.voter in s.nodes && v.term <= s.nodes[v.voter].term
      && (if v.candidate == "" then v.voter == ""
          else v.term == s.nodes[v.voter].term ==> v.candidate == s.nodes[v.voter].votedFor)
  }

  /** A vote is write-once per term. */
  ghost predicate VotesUnique(s: Sys) {
    forall v, w :: v in s.votes && w in s.votes && SameBallot(v, w) ==> v == w
  }

  /** Two votes for named candidates that one node gave in one term. */
  predicate SameBallot(v: Vote, w: Vote) {
    v.voter == w.voter && v.term == w.term && v.candidate != "" && w.candidate != ""
  }

  ghost predicate RepliesBacked(s: Sys) {
    forall r <- s.replies :: r.reply.ok ==> Vote(r.voter, r.request.term, r.request.candidate) in s.votes
  }

  /** Everyone in q voted for c in this term. */
  ghost predicate Backed(s: Sys, q: set<ID>, term: nat, c: ID) {
    forall v <- q :: Vote(v, term, c) in s.votes
  }

  ghost predicate CampaignsBacked(s: Sys, peers: set<ID>) {
    forall i <- s.runs :: s.runs[i].Campaigning? ==> RunBacked(s, s.runs[i], i, peers)
  }

  /** A campaign counts the votes it was given. */
  ghost predicate RunBacked(s: Sys, r: Run, i: ID, peers: set<ID>)
    requires r.Campaigning?
  {
    r.yes <= peers && r.waiting <= peers && r.yes !! r.waiting && r.votes == |r.yes| && Backed(s, r.yes, r.term, i)
  }

  ghost predicate LeadersBacked(s: Sys, peers: set<ID>) {
    forall l <- s.leaders :: l.0 in peers
      && exists q: set<ID> :: q <= peers && |q| >= Quorum(peers) && Backed(s, q, l.1, l.0)
  }

  /** Whoever has the leader role won the term it is in, and is not campaigning. */
  ghost predicate LeadersRecorded(s: Sys) {
    forall i <- s.nodes :: s.nodes[i].role.Leader? ==> Recorded(s, i)
  }

  ghost predicate Recorded(s: Sys, i: ID)
    requires i in s.nodes
  {
    (i, s.nodes[i].term) in s.leaders && i in s.runs && (s.runs[i].AtLoop? || s.runs[i].InLeader?)
  }

  ghost predicate Inv(s: Sys, peers: set<ID>) {
    && WellShaped(s, peers) && VotesKept(s) && VotesUnique(s) && RepliesBacked(s)
    && CampaignsBacked(s, peers) && LeadersBacked(s, peers) && LeadersRecorded(s)
  }

  // ---- runs ----

  /** acts leads from s to t. */
  ghost predicate Reaches(s: Sys, peers: set<ID>, acts: seq<Action>, t: Sys)
    requires WellShaped(s, peers)
    decreases |acts|
  {
    if acts == [] then s == t
    else Enabled(s, peers, acts[0]) && Reaches(Step(s, peers, acts[0]), peers, acts[1..], t)
  }

  /** No step of the run increments the last uint64 term. */
  ghost predicate NeverWraps(s: Sys, peers: set<ID>, acts: seq<Action>)
    requires WellShaped(s, peers)
    decreases |acts|
  {
    acts != [] && Enabled(s, peers, acts[0]) ==>
      NoWrap(s, acts[0]) && NeverWraps(Step(s, peers, acts[0]), peers, acts[1..])
  }

  /** Only node i and its Run loop changed, and no leader was added. */
  ghost predicate OnlyMoved(s: Sys, t: Sys, i: ID) {
    && s.nodes.Keys == t.nodes.Keys == s.runs.Keys == t.runs.Keys && t.leaders == s.leaders && t.logs == s.logs
    && forall j <- s.nodes :: j != i ==> t.nodes[j] == s.nodes[j] && t.runs[j] == s.runs[j]
  }

  /** Some run from the start leads to s. */
  ghost predicate Reachable(s: Sys, peers: set<ID>) {
    WellShaped(s, peers) && exists acts :: Reaches(InitSys(peers), peers, acts, s)
  }

  // ---- runs that wrap ----

  /** The term of the next campaign of a node. */
  predicate NextTerm(term: nat, next: nat) { next == (term + 1) % TERMS }

  /** Node i has begun a campaign. */
  ghost predicate Campaigned(s: Sys, t: Sys, peers: set<ID>, i: ID, term: nat) {
    && i in s.nodes && OnlyMoved(s, t, i)
    && t.nodes[i] == Node(Candidate, term, i, "") && t.runs[i] == Campaigning(term, 1, {i}, peers - {i})
  }

  /** A node waiting in its Run loop, with no log. */
  predicate Calm(s: Sys, i: ID) {
    && i in s.nodes && i in s.runs && i in s.logs
    && s.runs[i] == AtLoop && s.nodes[i].term < TERMS && s.logs[i] == 0
  }

  /** As at the start, but for its vote. */
  predicate Rested(s: Sys, i: ID) { Calm(s, i) && s.nodes[i].term == 0 && s.nodes[i].role == Follower }

  /** The campaign of node i in term 1: the peers it waits for are at rest, the rest voted for it. */
  ghost predicate Electing(s: Sys, peers: set<ID>, i: ID) {
    && i in peers && i in s.nodes && i in s.runs && s.nodes[i] == Node(Candidate, 1, i, "")
    && VoteRequest(i, 1, 0) in s.requests && s.runs[i].Campaigning? && s.runs[i].term == 1
    && i in s.logs && s.logs[i] == 0
    && s.runs[i].waiting <= peers - {i} && s.runs[i].votes + |s.runs[i].waiting| == |peers|
    && forall j <- peers :: j != i ==> if j in s.runs[i].waiting then Rested(s, j) else Calm(s, j)
  }

  /** The peers in todo are waiting in their loops, the others have come to rest. */
  predicate Settling(s: Sys, peers: set<ID>, todo: set<ID>) {
    forall j <- peers :: if j in todo then Calm(s, j) else Rested(s, j)
  }

  predicate AllCalm(s: Sys, peers: set<ID>) { forall j <- peers :: Calm(s, j) }

  /** Nobody votes for the nameless peer, so it leads only a cluster of its own. */
  ghost predicate NamelessLoses(s: Sys, peers: set<ID>) {
    && WellShaped(s, peers) && (forall r <- s.replies :: r.reply.ok ==> r.request.candidate != "")
    && ("" in s.runs && s.runs[""].Campaigning? ==> s.runs[""].votes == 1)
    && (forall l <- s.leaders :: l.0 in peers && (l.0 == "" ==> |peers| <= 1))
  }

  /** Some term has had two leaders. */
  ghost predicate TwoLeaders(s: Sys) {
    exists i, j, term :: (i, term) in s.leaders && (j, term) in s.leaders && i != j
  }

  ghost predicate TwoNamed(peers: set<ID>) { exists a <- peers, b <- peers :: a != b && a != "" && b != "" }

  // ---- the candidate's log ----

  /** v granted i its vote for this term in reply to a request that announced at least v's log. */
  ghost predicate Promised(s: Sys, v: ID, i: ID, term: nat) { exists r <- s.replies :: Promises(r, v, i, term) }

  predicate Promises(r: VoteReply, v: ID, i: ID, term: nat) {
    r.voter == v && r.reply.ok && r.request.candidate == i && r.request.term == term && r.log <= r.request.lastLog
  }

  ghost predicate AllPromised(s: Sys, yes: set<ID>, i: ID, term: nat) {
    i in yes && forall v <- yes :: v != i ==> Promised(s, v, i, term)
  }

  ghost predicate RepliesChecked(s: Sys) {
    forall r <- s.replies :: r.reply.ok ==> r.log <= r.request.lastLog
  }

  ghost predicate RunsPromised(s: Sys, peers: set<ID>) {
    forall i <- s.runs :: s.runs[i].Campaigning? ==> RunPromised(s, s.runs[i], i, peers)
  }

  ghost predicate RunPromised(s: Sys, r: Run, i: ID, peers: set<ID>)
    requires r.Campaigning?
  {
    && r.yes <= peers && r.waiting <= peers && r.yes !! r.waiting && r.votes == |r.yes|
    && AllPromised(s, r.yes, i, r.term)
  }

  ghost predicate LeadersPromised(s: Sys, peers: set<ID>) {
    forall l <- s.leaders :: exists q: set<ID> :: PromisedBy(s, peers, q, l)
  }

  ghost predicate PromisedBy(s: Sys, peers: set<ID>, q: set<ID>, l: (ID, nat)) {
    q <= peers && |q| >= Quorum(peers) && AllPromised(s, q, l.0, l.1)
  }

  ghost predicate LogInv(s: Sys, peers: set<ID>) {
    WellShaped(s, peers) && RepliesChecked(s) && RunsPromised(s, peers) && LeadersPromised(s, peers)
  }

  /** The run is in state u when it takes step n. */
  ghost predicate Takes(s: Sys, peers: set<ID>, acts: seq<Action>, n: nat, a: Action, u: Sys)
    requires WellShaped(s, peers)
  {
    n < |acts| && acts[n] == a && WellShaped(u, peers) && Reaches(s, peers, acts[..n], u) && Enabled(u, peers, a)
  }

  /** In its campaign for this term i asked v for its vote, v answered that request, and i's log at the time
      of asking was at least as long as v's at the time of answering. */
  ghost predicate AskedWithLongerLog(peers: set<ID>, acts: seq<Action>, i: ID, v: ID, term: nat) {
    exists m: nat, u: Sys, n: nat, w: Sys :: m < n && AskedAndAnswered(peers, acts, i, v, term, m, u, n, w)
  }

  ghost predicate AskedAndAnswered(peers: set<ID>, acts: seq<Action>, i: ID, v: ID, term: nat,
                                   m: nat, u: Sys, n: nat, w: Sys)
  {
    && Takes(InitSys(peers), peers, acts, m, SendRequest(i), u)
    && u.runs[i].Campaigning? && u.runs[i].term == term
    && Takes(InitSys(peers), peers, acts, n, DeliverRequest(v, VoteRequest(i, term, u.logs[i])), w)
    && Grants(w.nodes[v], term, i, w.logs[v], u.logs[i]) && w.logs[v] <= u.logs[i]
  }

  // ---- fencing ----

  /** Everyone in g has voted in this term. */
  ghost predicate Voted(s: Sys, g: set<ID>, term: nat) {
    forall v <- g :: exists c :: Vote(v, term, c) in s.votes
  }

  ghost predicate Unread(pushes: seq<Push>, round: nat) { round < |pushes| ==> pushes[round].Checked? }

  /** g is at or above the term; rounds that read a lower term afterwards have no ack from g. */
  ghost predicate Fenced(s: Sys, g: set<ID>, term: nat, before: seq<Push>) {
    && (forall v <- g :: v in s.nodes && s.nodes[v].term >= term)
    && (forall r: nat :: r < |s.pushes| && Unread(before, r) && s.pushes[r].Pushing? && s.pushes[r].term < term
         ==> s.pushes[r].acks !! g)
  }

  /** A round counts its caller and peers that applied its entry. */
  ghost predicate ValidAcks(s: Sys, peers: set<ID>) {
    forall r :: 0 <= r < |s.pushes| && s.pushes[r].Pushing? ==>
      s.pushes[r].acks <= peers && s.pushes[r].acks <= s.pushes[r].stored + {s.pushes[r].caller}
  }
}

/** Election safety and the replication fence. */
module Election {
  import opened ElectorNode
  import opened ElectionModel

  lemma InitInv(peers: set<ID>)
    ensures Inv(InitSys(peers), peers)
  {
  }

  /** Terms only grow, votes are never taken back, and within a term a vote is only given once. */
  lemma NodesAdvance(s: Sys, peers: set<ID>, a: Action, v: ID)
    requires Inv(s, peers) && Enabled(s, peers, a) && NoWrap(s, a) && v in peers
    ensures var t := Step(s, peers, a);
      && s.votes <= t.votes && s.nodes[v].term <= t.nodes[v].term
      && (s.nodes[v].term == t.nodes[v].term ==>
           s.nodes[v].votedFor == t.nodes[v].votedFor || s.nodes[v].votedFor == "")
  {
    VotesStay(s, peers, a);
    if v != a.i { OthersStay(s, peers, a, v); }
  }

  lemma VotesStay(s: Sys, peers: set<ID>, a: Action)
    requires WellShaped(s, peers) && Enabled(s, peers, a)
    ensures s.votes <= Step(s, peers, a).votes
  {
  }

  lemma OthersStay(s: Sys, peers: set<ID>, a: Action, v: ID)
    requires WellShaped(s, peers) && Enabled(s, peers, a) && v in peers && v != a.i
    ensures Step(s, peers, a).nodes[v] == s.nodes[v] && Step(s, peers, a).runs[v] == s.runs[v]
  {
  }

  /** The only votes a step adds are the actor's own, at its new term and as recorded in votedFor. */
  lemma NewVotes(s: Sys, peers: set<ID>, a: Action, v: Vote)
    requires Inv(s, peers) && Enabled(s, peers, a) && NoWrap(s, a)
    requires v in Step(s, peers, a).votes && v !in s.votes
    ensures var m := Step(s, peers, a).nodes[a.i];
      v.voter == a.i && v.term == m.term && v.candidate == m.votedFor && (v.candidate == "" ==> v.voter == "")
    ensures s.nodes[a.i].term < v.term || s.nodes[a.i].votedFor == "" || s.nodes[a.i].votedFor == v.candidate
  {
  }

  lemma VotesStep(s: Sys, peers: set<ID>, a: Action)
    requires Inv(s, peers) && Enabled(s, peers, a) && NoWrap(s, a)
    ensures VotesKept(Step(s, peers, a)) && VotesUnique(Step(s, peers, a))
  {
    var t := Step(s, peers, a);
    forall v | v in t.votes
      ensures v.voter in t.nodes && v.term <= t.nodes[v.voter].term && (v.candidate == "" ==> v.voter == "")
      ensures v.candidate != "" && v.term == t.nodes[v.voter].term ==> v.candidate == t.nodes[v.voter].votedFor
    {
      if v in s.votes { NodesAdvance(s, peers, a, v.voter); } else { NewVotes(s, peers, a, v); }
    }
    forall v, w | v in t.votes && w in t.votes && SameBallot(v, w) ensures v == w {
      if v !in s.votes { NewVotes(s, peers, a, v); }
      if w !in s.votes { NewVotes(s, peers, a, w); }
    }
  }

  lemma RepliesStep(s: Sys, peers: set<ID>, a: Action)
    requires Inv(s, peers) && Enabled(s, peers, a) && NoWrap(s, a)
    ensures RepliesBacked(Step(s, peers, a))
  {
  }

  lemma CampaignsStep(s: Sys, peers: set<ID>, a: Action)
    requires Inv(s, peers) && Enabled(s, peers, a) && NoWrap(s, a)
    ensures CampaignsBacked(Step(s, peers, a), peers)
  {
    var t := Step(s, peers, a);
    forall i | i in t.runs && t.runs[i].Campaigning? ensures RunBacked(t, t.runs[i], i, peers) {
      if i == a.i { OwnCampaign(s, peers, a); } else { OtherCampaign(s, peers, a, i); }
    }
  }

  lemma OtherCampaign(s: Sys, peers: set<ID>, a: Action, i: ID)
    requires Inv(s, peers) && Enabled(s, peers, a) && i in Step(s, peers, a).runs && i != a.i
    requires Step(s, peers, a).runs[i].Campaigning?
    ensures RunBacked(Step(s, peers, a), Step(s, peers, a).runs[i], i, peers)
  {
    VotesStay(s, peers, a);
    OthersStay(s, peers, a, i);
    assert RunBacked(s, s.runs[i], i, peers);
  }

  lemma OwnCampaign(s: Sys, peers: set<ID>, a: Action)
    requires Inv(s, peers) && Enabled(s, peers, a) && NoWrap(s, a)
    requires a.i in Step(s, peers, a).runs && Step(s, peers, a).runs[a.i].Campaigning?
    ensures RunBacked(Step(s, peers, a), Step(s, peers, a).runs[a.i], a.i, peers)
  {
    VotesStay(s, peers, a);
    if a.DeliverReply? {
      CountedCampaign(s, peers, a);
    } else if s.runs[a.i].Campaigning? {
      assert RunBacked(s, s.runs[a.i], a.i, peers);
    }
  }

  lemma CountedCampaign(s: Sys, peers: set<ID>, a: Action)
    requires Inv(s, peers) && Enabled(s, peers, a) && a.DeliverReply?
    ensures RunBacked(Step(s, peers, a), Step(s, peers, a).runs[a.i], a.i, peers)
  {
    assert RunBacked(s, s.runs[a.i], a.i, peers);
  }

  lemma LeadersStep(s: Sys, peers: set<ID>, a: Action)
    requires Inv(s, peers) && Enabled(s, peers, a) && NoWrap(s, a)
    ensures LeadersBacked(Step(s, peers, a), peers)
  {
    var t := Step(s, peers, a);
    assert s.votes <= t.votes;
    forall l | l in t.leaders
      ensures l.0 in peers && exists q: set<ID> :: q <= peers && |q| >= Quorum(peers) && Backed(t, q, l.1, l.0)
    {
      if l in s.leaders {
        var q: set<ID> :| q <= peers && |q| >= Quorum(peers) && Backed(s, q, l.1, l.0);
        assert Backed(t, q, l.1, l.0);
      } else {
        NewLeader(s, peers, a, l);
      }
    }
  }

  /** A new leader has just counted a majority. */
  lemma NewLeader(s: Sys, peers: set<ID>, a: Action, l: (ID, nat))
    requires Inv(s, peers) && Enabled(s, peers, a) && l in Step(s, peers, a).leaders && l !in s.leaders
    ensures l.0 in peers
    ensures exists q: set<ID> :: q <= peers && |q| >= Quorum(peers) && Backed(Step(s, peers, a), q, l.1, l.0)
  {
    assert RunBacked(s, s.runs[a.i], a.i, peers);
    assert Backed(Step(s, peers, a), s.runs[a.i].yes, l.1, l.0);
  }

  lemma StepKeepsInv(s: Sys, peers: set<ID>, a: Action)
    requires Inv(s, peers) && Enabled(s, peers, a) && NoWrap(s, a)
    ensures Inv(Step(s, peers, a), peers)
  {
    VotesStep(s, peers, a);
    RepliesStep(s, peers, a);
    CampaignsStep(s, peers, a);
    LeadersStep(s, peers, a);
    RolesStep(s, peers, a);
  }

  lemma RolesStep(s: Sys, peers: set<ID>, a: Action)
    requires WellShaped(s, peers) && LeadersRecorded(s) && Enabled(s, peers, a)
    ensures LeadersRecorded(Step(s, peers, a))
  {
    var t := Step(s, peers, a);
    forall i | i in t.nodes && t.nodes[i].role.Leader? ensures Recorded(t, i) {
      if i == a.i { OwnRole(s, peers, a); } else { assert Recorded(s, i); }
    }
  }

  lemma OwnRole(s: Sys, peers: set<ID>, a: Action)
    requires WellShaped(s, peers) && LeadersRecorded(s) && Enabled(s, peers, a)
    requires Step(s, peers, a).nodes[a.i].role.Leader?
    ensures Recorded(Step(s, peers, a), a.i)
  {
    if a.Tally? {
      TallyRole(s, peers, a);
    } else {
      RoleKept(s, peers, a);
      assert Recorded(s, a.i);
    }
  }

  lemma TallyRole(s: Sys, peers: set<ID>, a: Action)
    requires WellShaped(s, peers) && LeadersRecorded(s) && Enabled(s, peers, a)
    requires a.Tally? && Step(s, peers, a).nodes[a.i].role.Leader?
    ensures Recorded(Step(s, peers, a), a.i)
  {
  }

  /** Only a tally makes a leader, and a leader that steps to another term is none any more. */
  lemma RoleKept(s: Sys, peers: set<ID>, a: Action)
    requires WellShaped(s, peers) && LeadersRecorded(s) && Enabled(s, peers, a)
    requires !a.Tally? && Step(s, peers, a).nodes[a.i].role.Leader?
    ensures s.nodes[a.i].role.Leader? && !a.Campaign? && s.nodes[a.i].term == Step(s, peers, a).nodes[a.i].term
  {
    if s.nodes[a.i].role.Leader? { assert Recorded(s, a.i); }
  }

  // ---- runs ----

  lemma {:induction false} RunKeepsInv(s: Sys, peers: set<ID>, acts: seq<Action>, t: Sys)
    requires Inv(s, peers) && Reaches(s, peers, acts, t) && NeverWraps(s, peers, acts)
    ensures Inv(t, peers)
    decreases |acts|
  {
    if acts != [] {
      StepKeepsInv(s, peers, acts[0]);
      RunKeepsInv(Step(s, peers, acts[0]), peers, acts[1..], t);
    }
  }

  lemma QuorumsMeet(p: set<ID>, q: set<ID>, peers: set<ID>)
    requires p <= peers && q <= peers && |p| >= Quorum(peers) && |q| >= Quorum(peers)
    ensures exists v :: v in p && v in q
  {
    if p * q == {} {
      assert |p + q| == |p| + |q|;
      SubsetSize(p + q, peers);
    }
    var v :| v in p * q;
  }

  lemma SubsetSize(a: set<ID>, b: set<ID>)
    requires a <= b
    ensures |a| <= |b|
  {
    assert b == a + (b - a);
  }

  /** A nameless leader is alone: nobody else votes for it, so its own vote was a quorum. */
  lemma NamelessLeader(s: Sys, peers: set<ID>, q: set<ID>, term: nat, j: ID)
    requires Inv(s, peers) && q <= peers && |q| >= Quorum(peers) && Backed(s, q, term, "") && j in peers
    ensures j == ""
  {
    forall v | v in q ensures v == "" { assert Vote(v, term, "") in s.votes; }
    SubsetSize(q, {""});
    assert q == {""};
    SubsetSize({"", j}, peers);
  }

  /** No term has two leaders in a state that satisfies the invariant. */
  lemma OneLeader(s: Sys, peers: set<ID>, i: ID, j: ID, term: nat)
    requires Inv(s, peers) && (i, term) in s.leaders && (j, term) in s.leaders
    ensures i == j
  {
    var p: set<ID> :| p <= peers && |p| >= Quorum(peers) && Backed(s, p, (i, term).1, (i, term).0);
    var q: set<ID> :| q <= peers && |q| >= Quorum(peers) && Backed(s, q, (j, term).1, (j, term).0);
    if i == "" {
      NamelessLeader(s, peers, p, term, j);
    } else if j == "" {
      NamelessLeader(s, peers, q, term, i);
    } else {
      QuorumsMeet(p, q, peers);
      var v :| v in p && v in q;
      assert Vote(v, term, i) in s.votes && Vote(v, term, j) in s.votes;
    }
  }

  /** Node i has the leader role in this term. */
  ghost predicate Leads(s: Sys, i: ID, term: nat) { i in s.nodes && s.nodes[i].role.Leader? && s.nodes[i].term == term }

  /** Election safety: over a whole run from the start no term ever has two leaders, and in every state
      of it two nodes that have the leader role in the same term are one node. */
  lemma OneLeaderPerTerm(peers: set<ID>, acts: seq<Action>, t: Sys, i: ID, j: ID, term: nat)
    requires Reaches(InitSys(peers), peers, acts, t) && NeverWraps(InitSys(peers), peers, acts)
    ensures (i, term) in t.leaders && (j, term) in t.leaders ==> i == j
    ensures Leads(t, i, term) && Leads(t, j, term) ==> i == j
    ensures Leads(t, i, term) ==> (i, term) in t.leaders
  {
    InitInv(peers);
    RunKeepsInv(InitSys(peers), peers, acts, t);
    if (i, term) in t.leaders && (j, term) in t.leaders { OneLeader(t, peers, i, j, term); }
    if Leads(t, i, term) { assert Recorded(t, i); }
    if Leads(t, j, term) { assert Recorded(t, j); }
  }

  // ---- a majority vote fences older replication rounds ----

  lemma FenceStep(s: Sys, peers: set<ID>, a: Action, g: set<ID>, term: nat, before: seq<Push>)
    requires Inv(s, peers) && Enabled(s, peers, a) && NoWrap(s, a) && g <= peers
    requires Fenced(s, g, term, before)
    ensures Fenced(Step(s, peers, a), g, term, before)
  {
    var t := Step(s, peers, a);
    forall v | v in g ensures t.nodes[v].term >= term {
      NodesAdvance(s, peers, a, v);
    }
    FencedRounds(s, peers, a, g, term, before);
  }

  /** A fenced node refuses the entry of an older round. */
  lemma FencedRounds(s: Sys, peers: set<ID>, a: Action, g: set<ID>, term: nat, before: seq<Push>)
    requires WellShaped(s, peers) && Enabled(s, peers, a) && g <= peers && Fenced(s, g, term, before)
    ensures forall r: nat :: var pushes := Step(s, peers, a).pushes;
      r < |pushes| && Unread(before, r) && pushes[r].Pushing? && pushes[r].term < term ==> pushes[r].acks !! g
  {
  }

  lemma {:induction false} FenceRun(s: Sys, peers: set<ID>, acts: seq<Action>, t: Sys,
                                    g: set<ID>, term: nat, before: seq<Push>)
    requires Inv(s, peers) && Reaches(s, peers, acts, t) && NeverWraps(s, peers, acts)
    requires g <= peers && Fenced(s, g, term, before)
    ensures Fenced(t, g, term, before)
    decreases |acts|
  {
    if acts != [] {
      StepKeepsInv(s, peers, acts[0]);
      FenceStep(s, peers, acts[0], g, term, before);
      FenceRun(Step(s, peers, acts[0]), peers, acts[1..], t, g, term, before);
    }
  }

  lemma {:induction false} AcksApplied(s: Sys, peers: set<ID>, acts: seq<Action>, t: Sys)
    requires WellShaped(s, peers) && Reaches(s, peers, acts, t) && ValidAcks(s, peers)
    ensures ValidAcks(t, peers)
    decreases |acts|
  {
    if acts != [] {
      AcksStep(s, peers, acts[0]);
      AcksApplied(Step(s, peers, acts[0]), peers, acts[1..], t);
    }
  }

  lemma AcksStep(s: Sys, peers: set<ID>, a: Action)
    requires WellShaped(s, peers) && Enabled(s, peers, a) && ValidAcks(s, peers)
    ensures ValidAcks(Step(s, peers, a), peers)
  {
  }

  /** Once a majority has voted in a term, no replication round that reads a lower term afterwards
      reaches a quorum, even counting its caller. */
  lemma OldTermCannotReplicate(peers: set<ID>, acts: seq<Action>, s: Sys, more: seq<Action>, t: Sys,
                               g: set<ID>, term: nat, round: nat)
    requires Reaches(InitSys(peers), peers, acts, s) && NeverWraps(InitSys(peers), peers, acts)
    requires WellShaped(s, peers) && Reaches(s, peers, more, t) && NeverWraps(s, peers, more)
    requires g <= peers && |g| >= Quorum(peers) && Voted(s, g, term)
    requires Unread(s.pushes, round) && round < |t.pushes| && t.pushes[round].Pushing?
    requires t.pushes[round].term < term
    ensures |t.pushes[round].acks| < Quorum(peers)
  {
    InitInv(peers);
    RunKeepsInv(InitSys(peers), peers, acts, s);
    VotersAreFenced(s, peers, g, term);
    FenceRun(s, peers, more, t, g, term, s.pushes);
    AcksApplied(InitSys(peers), peers, acts, s);
    AcksApplied(s, peers, more, t);
    FencedRoundFails(t, peers, g, term, s.pushes, round);
  }

  lemma VotersAreFenced(s: Sys, peers: set<ID>, g: set<ID>, term: nat)
    requires Inv(s, peers) && g <= peers && Voted(s, g, term)
    ensures Fenced(s, g, term, s.pushes)
  {
  }

  lemma FencedRoundFails(t: Sys, peers: set<ID>, g: set<ID>, term: nat, before: seq<Push>, round: nat)
    requires g <= peers && |g| >= Quorum(peers) && Fenced(t, g, term, before) && ValidAcks(t, peers)
    requires Unread(before, round) && round < |t.pushes| && t.pushes[round].Pushing? && t.pushes[round].term < term
    ensures |t.pushes[round].acks| < Quorum(peers)
  {
    if |t.pushes[round].acks| >= Quorum(peers) {
      QuorumsMeet(g, t.pushes[round].acks, peers);
    }
  }
}

/** The log check of the vote, over whole runs. */
module ElectionLogs {
  import opened ElectorNode
  import opened ElectionModel
  import Election

  lemma InitLogs(peers: set<ID>)
    ensures LogInv(InitSys(peers), peers)
  {
  }

  /** What was promised stays promised. */
  lemma PromiseKept(s: Sys, t: Sys, yes: set<ID>, i: ID, term: nat)
    requires s.replies <= t.replies && AllPromised(s, yes, i, term)
    ensures AllPromised(t, yes, i, term)
  {
    forall v | v in yes && v != i ensures Promised(t, v, i, term) {
      var r :| r in s.replies && Promises(r, v, i, term);
      assert r in t.replies;
    }
  }

  lemma RepliesStep(s: Sys, peers: set<ID>, a: Action)
    requires WellShaped(s, peers) && RepliesChecked(s) && Enabled(s, peers, a)
    ensures RepliesChecked(Step(s, peers, a)) && s.replies <= Step(s, peers, a).replies
  {
  }

  lemma OwnRun(s: Sys, peers: set<ID>, a: Action)
    requires LogInv(s, peers) && Enabled(s, peers, a) && Step(s, peers, a).runs[a.i].Campaigning?
    ensures RunPromised(Step(s, peers, a), Step(s, peers, a).runs[a.i], a.i, peers)
  {
    RepliesStep(s, peers, a);
    if a.DeliverReply? {
      CountedRun(s, peers, a);
    } else if s.runs[a.i].Campaigning? {
      PromiseKept(s, Step(s, peers, a), s.runs[a.i].yes, a.i, s.runs[a.i].term);
    }
  }

  lemma CountedRun(s: Sys, peers: set<ID>, a: Action)
    requires LogInv(s, peers) && Enabled(s, peers, a) && a.DeliverReply?
    ensures RunPromised(Step(s, peers, a), Step(s, peers, a).runs[a.i], a.i, peers)
  {
    var r := s.runs[a.i];
    assert RunPromised(s, r, a.i, peers);
    if a.reply.reply.ok {
      assert Promises(a.reply, a.reply.voter, a.i, r.term);
      assert Promised(s, a.reply.voter, a.i, r.term);
    }
    PromiseKept(s, Step(s, peers, a), r.yes, a.i, r.term);
  }

  lemma LeadersStep(s: Sys, peers: set<ID>, a: Action)
    requires LogInv(s, peers) && Enabled(s, peers, a)
    ensures LeadersPromised(Step(s, peers, a), peers)
  {
    var t := Step(s, peers, a);
    RepliesStep(s, peers, a);
    forall l | l in t.leaders ensures exists q: set<ID> :: PromisedBy(t, peers, q, l) {
      if l in s.leaders {
        var q :| PromisedBy(s, peers, q, l);
        PromiseKept(s, t, q, l.0, l.1);
        assert PromisedBy(t, peers, q, l);
      } else {
        NewLeader(s, peers, a, l);
      }
    }
  }

  lemma NewLeader(s: Sys, peers: set<ID>, a: Action, l: (ID, nat))
    requires LogInv(s, peers) && Enabled(s, peers, a) && l in Step(s, peers, a).leaders && l !in s.leaders
    ensures exists q: set<ID> :: PromisedBy(Step(s, peers, a), peers, q, l)
  {
    RepliesStep(s, peers, a);
    assert RunPromised(s, s.runs[a.i], a.i, peers);
    PromiseKept(s, Step(s, peers, a), s.runs[a.i].yes, l.0, l.1);
    assert PromisedBy(Step(s, peers, a), peers, s.runs[a.i].yes, l);
  }

  lemma LogStep(s: Sys, peers: set<ID>, a: Action)
    requires LogInv(s, peers) && Enabled(s, peers, a)
    ensures LogInv(Step(s, peers, a), peers)
  {
    var t := Step(s, peers, a);
    RepliesStep(s, peers, a);
    LeadersStep(s, peers, a);
    forall i | i in t.runs && t.runs[i].Campaigning? ensures RunPromised(t, t.runs[i], i, peers) {
      if i == a.i {
        OwnRun(s, peers, a);
      } else {
        Election.OthersStay(s, peers, a, i);
        PromiseKept(s, t, s.runs[i].yes, i, s.runs[i].term);
      }
    }
  }

  lemma {:induction false} LogRun(s: Sys, peers: set<ID>, acts: seq<Action>, t: Sys)
    requires LogInv(s, peers) && Reaches(s, peers, acts, t)
    ensures LogInv(t, peers)
    decreases |acts|
  {
    if acts != [] {
      LogStep(s, peers, acts[0]);
      LogRun(Step(s, peers, acts[0]), peers, acts[1..], t);
    }
  }

  // ---- when requests and replies were made ----

  lemma TakesLater(s: Sys, peers: set<ID>, acts: seq<Action>, n: nat, a: Action, u: Sys)
    requires WellShaped(s, peers) && acts != [] && Enabled(s, peers, acts[0])
    requires Takes(Step(s, peers, acts[0]), peers, acts[1..], n, a, u)
    ensures Takes(s, peers, acts, n + 1, a, u)
  {
    assert acts[..n + 1][1..] == acts[1..][..n];
  }

  lemma TakesEarlier(s: Sys, peers: set<ID>, acts: seq<Action>, n: nat, m: nat, a: Action, u: Sys)
    requires WellShaped(s, peers) && n <= |acts| && Takes(s, peers, acts[..n], m, a, u)
    ensures m < n && Takes(s, peers, acts, m, a, u)
  {
    assert acts[..n][..m] == acts[..m];
  }

  /** A reply says what its voter's log was. */
  lemma ReplyMade(s: Sys, peers: set<ID>, a: Action, r: VoteReply)
    requires WellShaped(s, peers) && Enabled(s, peers, a) && r in Step(s, peers, a).replies && r !in s.replies
    ensures a == DeliverRequest(r.voter, r.request) && r.log == s.logs[r.voter]
    ensures r.reply.ok ==> Grants(s.nodes[r.voter], r.request.term, r.request.candidate, r.log, r.request.lastLog)
  {
  }

  lemma {:induction false} ReplyStep(s: Sys, peers: set<ID>, acts: seq<Action>, t: Sys, r: VoteReply)
    returns (n: nat, w: Sys)
    requires WellShaped(s, peers) && Reaches(s, peers, acts, t) && r in t.replies && r !in s.replies
    ensures Takes(s, peers, acts, n, DeliverRequest(r.voter, r.request), w) && w.logs[r.voter] == r.log
    ensures r.reply.ok ==> Grants(w.nodes[r.voter], r.request.term, r.request.candidate, r.log, r.request.lastLog)
    decreases |acts|
  {
    var s1 := Step(s, peers, acts[0]);
    if r in s1.replies {
      ReplyMade(s, peers, acts[0], r);
      n, w := 0, s;
    } else {
      n, w := ReplyStep(s1, peers, acts[1..], t, r);
      TakesLater(s, peers, acts, n, DeliverRequest(r.voter, r.request), w);
      n := n + 1;
    }
  }

  /** A request says what its candidate's log was. */
  lemma RequestMade(s: Sys, peers: set<ID>, a: Action, q: VoteRequest)
    requires WellShaped(s, peers) && Enabled(s, peers, a) && q in Step(s, peers, a).requests && q !in s.requests
    ensures a == SendRequest(q.candidate) && q.lastLog == s.logs[q.candidate]
    ensures s.runs[q.candidate].Campaigning? && s.runs[q.candidate].term == q.term
  {
  }

  lemma {:induction false} RequestStep(s: Sys, peers: set<ID>, acts: seq<Action>, t: Sys, q: VoteRequest)
    returns (m: nat, u: Sys)
    requires WellShaped(s, peers) && Reaches(s, peers, acts, t) && q in t.requests && q !in s.requests
    ensures Takes(s, peers, acts, m, SendRequest(q.candidate), u) && u.logs[q.candidate] == q.lastLog
    ensures u.runs[q.candidate].Campaigning? && u.runs[q.candidate].term == q.term
    decreases |acts|
  {
    var s1 := Step(s, peers, acts[0]);
    if q in s1.requests {
      RequestMade(s, peers, acts[0], q);
      m, u := 0, s;
    } else {
      m, u := RequestStep(s1, peers, acts[1..], t, q);
      TakesLater(s, peers, acts, m, SendRequest(q.candidate), u);
      m := m + 1;
    }
  }

  lemma PromiseWasAsked(peers: set<ID>, acts: seq<Action>, t: Sys, i: ID, v: ID, term: nat)
    requires Reaches(InitSys(peers), peers, acts, t) && Promised(t, v, i, term)
    ensures AskedWithLongerLog(peers, acts, i, v, term)
  {
    var r :| r in t.replies && Promises(r, v, i, term);
    NothingSent(peers);
    var n, w := ReplyStep(InitSys(peers), peers, acts, t, r);
    ReplyWasAsked(peers, acts, i, v, term, r, n, w);
  }

  lemma NothingSent(peers: set<ID>)
    ensures InitSys(peers).replies == {} && InitSys(peers).requests == {}
  {
  }

  lemma ReplyWasAsked(peers: set<ID>, acts: seq<Action>, i: ID, v: ID, term: nat, r: VoteReply, n: nat, w: Sys)
    requires Takes(InitSys(peers), peers, acts, n, DeliverRequest(r.voter, r.request), w) && Promises(r, v, i, term)
    requires w.logs[v] == r.log && Grants(w.nodes[v], term, i, r.log, r.request.lastLog)
    ensures AskedWithLongerLog(peers, acts, i, v, term)
  {
    NothingSent(peers);
    var m, u := RequestStep(InitSys(peers), peers, acts[..n], w, r.request);
    TakesEarlier(InitSys(peers), peers, acts, n, m, SendRequest(i), u);
    assert r.request == VoteRequest(i, term, u.logs[i]);
    assert AskedAndAnswered(peers, acts, i, v, term, m, u, n, w);
  }

  /** Section 5.4.1 of the Raft paper, for every run: whoever led a term had, for each voter of some majority,
      asked that voter for its vote when its own log was at least as long as the voter's was on granting it. */
  lemma LeaderLogCoversVoters(peers: set<ID>, acts: seq<Action>, t: Sys, i: ID, term: nat) returns (q: set<ID>)
    requires Reaches(InitSys(peers), peers, acts, t) && (i, term) in t.leaders
    ensures q <= peers && |q| >= Quorum(peers) && i in q
    ensures forall v <- q :: v != i ==> AskedWithLongerLog(peers, acts, i, v, term)
  {
    InitLogs(peers);
    LogRun(InitSys(peers), peers, acts, t);
    q :| PromisedBy(t, peers, q, (i, term));
    forall v | v in q && v != i ensures AskedWithLongerLog(peers, acts, i, v, term) {
      PromiseWasAsked(peers, acts, t, i, v, term);
    }
  }

  /** The converse: a delivered request is granted exactly by the rule. */
  lemma RequestGrantedExactly(s: Sys, peers: set<ID>, v: ID, q: VoteRequest)
    requires WellShaped(s, peers) && Enabled(s, peers, DeliverRequest(v, q))
    ensures var t := Step(s, peers, DeliverRequest(v, q));
      && (Grants(s.nodes[v], q.term, q.candidate, s.logs[v], q.lastLog) ==>
            && VoteReply(v, q, Reply(true, q.term), s.logs[v]) in t.replies
            && Vote(v, q.term, q.candidate) in t.votes && t.nodes[v].votedFor == q.candidate)
      && (!Grants(s.nodes[v], q.term, q.candidate, s.logs[v], q.lastLog) ==>
            && t.votes == s.votes && forall r <- t.replies :: r in s.replies || !r.reply.ok)
  {
  }
}

/** What the wrap of the last uint64 term does: with two named peers, and only then, one term can have two
    leaders. */
module ElectionWrap {
  import Lists
  import opened ElectorNode
  import opened ElectionModel
  import opened Election

  lemma {:induction false} ReachesThen(s: Sys, peers: set<ID>, acts: seq<Action>, t: Sys, a: Action)
    requires WellShaped(s, peers) && WellShaped(t, peers) && Reaches(s, peers, acts, t) && Enabled(t, peers, a)
    ensures Reaches(s, peers, acts + [a], Step(t, peers, a))
    decreases |acts|
  {
    if acts != [] {
      ReachesThen(Step(s, peers, acts[0]), peers, acts[1..], t, a);
      Lists.TailOfAppend(acts, a);
    }
  }

  lemma ReachableStep(s: Sys, peers: set<ID>, a: Action)
    requires Reachable(s, peers) && Enabled(s, peers, a)
    ensures Reachable(Step(s, peers, a), peers)
  {
    var acts :| Reaches(InitSys(peers), peers, acts, s);
    ReachesThen(InitSys(peers), peers, acts, s, a);
    ReachedBy(peers, acts + [a], Step(s, peers, a));
  }

  lemma ReachedBy(peers: set<ID>, acts: seq<Action>, t: Sys)
    requires WellShaped(t, peers) && Reaches(InitSys(peers), peers, acts, t)
    ensures Reachable(t, peers)
  {
  }

  lemma MovedTwice(s: Sys, t: Sys, u: Sys, i: ID)
    requires OnlyMoved(s, t, i) && OnlyMoved(t, u, i)
    ensures OnlyMoved(s, u, i)
  {
  }

  // ---- one node campaigns ----

  lemma EnterEffect(s: Sys, peers: set<ID>, i: ID)
    requires WellShaped(s, peers) && i in peers && s.runs[i] == AtLoop && !s.nodes[i].role.Leader?
    ensures var t := Step(s, peers, Dispatch(i));
      && OnlyMoved(s, t, i) && t.nodes[i] == s.nodes[i]
      && t.runs[i] == if s.nodes[i].role.Follower? then InFollower else InCandidate
  {
  }

  lemma EnterRole(s: Sys, peers: set<ID>, i: ID) returns (t: Sys)
    requires Reachable(s, peers) && i in peers && s.runs[i] == AtLoop && !s.nodes[i].role.Leader?
    ensures Reachable(t, peers) && OnlyMoved(s, t, i) && t.nodes[i] == s.nodes[i]
    ensures t.runs[i] == if s.nodes[i].role.Follower? then InFollower else InCandidate
  {
    EnterEffect(s, peers, i);
    ReachableStep(s, peers, Dispatch(i));
    t := Step(s, peers, Dispatch(i));
  }

  lemma TimeoutEffect(s: Sys, peers: set<ID>, i: ID)
    requires WellShaped(s, peers) && i in peers && s.runs[i] == InFollower && s.nodes[i].role == Follower
    ensures var t := Step(s, peers, Timeout(i));
      OnlyMoved(s, t, i) && t.nodes[i] == s.nodes[i].(role := Candidate) && t.runs[i] == AtLoop
  {
  }

  lemma TimesOut(s: Sys, peers: set<ID>, i: ID) returns (t: Sys)
    requires Reachable(s, peers) && i in peers && s.runs[i] == InFollower && s.nodes[i].role == Follower
    ensures Reachable(t, peers) && OnlyMoved(s, t, i)
    ensures t.nodes[i] == s.nodes[i].(role := Candidate) && t.runs[i] == AtLoop
  {
    TimeoutEffect(s, peers, i);
    ReachableStep(s, peers, Timeout(i));
    t := Step(s, peers, Timeout(i));
  }

  lemma Campaigns(s: Sys, peers: set<ID>, i: ID, term: nat) returns (t: Sys)
    requires Reachable(s, peers) && i in peers && s.runs[i] == InCandidate && s.nodes[i].role == Candidate
    requires NextTerm(s.nodes[i].term, term)
    ensures Reachable(t, peers) && Campaigned(s, t, peers, i, term)
  {
    CampaignEffect(s, peers, i, term);
    ReachableStep(s, peers, Campaign(i));
    t := Step(s, peers, Campaign(i));
  }

  lemma CampaignEffect(s: Sys, peers: set<ID>, i: ID, term: nat)
    requires WellShaped(s, peers) && i in peers && s.runs[i] == InCandidate && s.nodes[i].role == Candidate
    requires NextTerm(s.nodes[i].term, term)
    ensures Campaigned(s, Step(s, peers, Campaign(i)), peers, i, term)
  {
  }

  /** The election timer fires and the loop reaches runCandidate. */
  lemma BecomeCandidate(s: Sys, peers: set<ID>, i: ID) returns (t: Sys)
    requires Reachable(s, peers) && i in peers && s.runs[i] == AtLoop && s.nodes[i].role == Follower
    ensures Reachable(t, peers) && OnlyMoved(s, t, i)
    ensures t.nodes[i] == s.nodes[i].(role := Candidate) && t.runs[i] == InCandidate
  {
    var s1 := EnterRole(s, peers, i);
    var s2 := TimesOut(s1, peers, i);
    MovedTwice(s, s1, s2, i);
    t := EnterRole(s2, peers, i);
    MovedTwice(s, s2, t, i);
  }

  lemma StartCampaign(s: Sys, peers: set<ID>, i: ID, term: nat) returns (t: Sys)
    requires Reachable(s, peers) && i in peers && s.runs[i] == AtLoop && s.nodes[i].role == Follower
    requires NextTerm(s.nodes[i].term, term)
    ensures Reachable(t, peers) && Campaigned(s, t, peers, i, term)
  {
    var s1 := BecomeCandidate(s, peers, i);
    t := Campaigns(s1, peers, i, term);
    MovedTwice(s, s1, t, i);
  }

  // ---- every node wraps to term 0 ----

  lemma HeartbeatEffect(s: Sys, peers: set<ID>, i: ID)
    requires WellShaped(s, peers) && i in peers && s.nodes[i].term < TERMS
    ensures var t := Step(s, peers, Heartbeat(i, TERMS - 1, ""));
      && OnlyMoved(s, t, i) && t.runs[i] == s.runs[i]
      && t.nodes[i].role == Follower && t.nodes[i].term == TERMS - 1
  {
  }

  /** A stray heartbeat with the last term reaches a node. */
  lemma StrayHeartbeat(s: Sys, peers: set<ID>, i: ID) returns (t: Sys)
    requires Reachable(s, peers) && i in peers && s.nodes[i].term < TERMS
    ensures Reachable(t, peers) && OnlyMoved(s, t, i) && t.runs[i] == s.runs[i]
    ensures t.nodes[i].role == Follower && t.nodes[i].term == TERMS - 1
  {
    HeartbeatEffect(s, peers, i);
    ReachableStep(s, peers, Heartbeat(i, TERMS - 1, ""));
    t := Step(s, peers, Heartbeat(i, TERMS - 1, ""));
  }

  lemma NoAnswerEffect(s: Sys, peers: set<ID>, i: ID, j: ID)
    requires WellShaped(s, peers) && i in peers && s.runs[i].Campaigning? && j in s.runs[i].waiting
    ensures var t := Step(s, peers, LoseReply(i, j));
      && OnlyMoved(s, t, i) && t.nodes[i] == s.nodes[i]
      && t.runs[i] == s.runs[i].(waiting := s.runs[i].waiting - {j})
  {
  }

  lemma NoAnswer(s: Sys, peers: set<ID>, i: ID, j: ID) returns (t: Sys)
    requires Reachable(s, peers) && i in peers && s.runs[i].Campaigning? && j in s.runs[i].waiting
    ensures Reachable(t, peers) && OnlyMoved(s, t, i) && t.nodes[i] == s.nodes[i]
    ensures t.runs[i] == s.runs[i].(waiting := s.runs[i].waiting - {j})
  {
    NoAnswerEffect(s, peers, i, j);
    ReachableStep(s, peers, LoseReply(i, j));
    t := Step(s, peers, LoseReply(i, j));
  }

  /** Nobody answers a campaign. */
  lemma {:induction false} NoAnswers(s: Sys, peers: set<ID>, i: ID, waiting: set<ID>) returns (t: Sys)
    requires Reachable(s, peers) && i in peers && s.runs[i].Campaigning? && s.runs[i].waiting == waiting
    ensures Reachable(t, peers) && OnlyMoved(s, t, i) && t.nodes[i] == s.nodes[i]
    ensures t.runs[i] == s.runs[i].(waiting := {})
    decreases |waiting|
  {
    if waiting == {} { return s; }
    var j :| j in waiting;
    var s1 := NoAnswer(s, peers, i, j);
    t := NoAnswers(s1, peers, i, waiting - {j});
    MovedTwice(s, s1, t, i);
  }

  /** One vote of at least two is no majority. */
  lemma Loses(s: Sys, peers: set<ID>, i: ID) returns (t: Sys)
    requires Reachable(s, peers) && i in peers && |peers| >= 2
    requires s.nodes[i].role == Candidate && s.nodes[i].term == 0 && s.logs[i] == 0
    requires s.runs[i].Campaigning? && s.runs[i].term == 0 && s.runs[i].votes == 1 && s.runs[i].waiting == {}
    ensures Reachable(t, peers) && OnlyMoved(s, t, i) && Rested(t, i)
  {
    LosesEffect(s, peers, i);
    ReachableStep(s, peers, Tally(i));
    t := Step(s, peers, Tally(i));
  }

  lemma LosesEffect(s: Sys, peers: set<ID>, i: ID)
    requires WellShaped(s, peers) && i in peers && |peers| >= 2
    requires s.nodes[i].role == Candidate && s.nodes[i].term == 0 && s.logs[i] == 0
    requires s.runs[i].Campaigning? && s.runs[i].term == 0 && s.runs[i].votes == 1 && s.runs[i].waiting == {}
    ensures var t := Step(s, peers, Tally(i)); OnlyMoved(s, t, i) && Rested(t, i)
  {
  }

  /** A node told the last term campaigns in term 0, in vain. */
  lemma WrapOne(s: Sys, peers: set<ID>, i: ID) returns (t: Sys)
    requires Reachable(s, peers) && i in peers && |peers| >= 2 && Calm(s, i)
    ensures Reachable(t, peers) && OnlyMoved(s, t, i) && Rested(t, i)
  {
    var s1 := StrayHeartbeat(s, peers, i);
    var s2 := StartCampaign(s1, peers, i, 0);
    MovedTwice(s, s1, s2, i);
    var s3 := NoAnswers(s2, peers, i, peers - {i});
    MovedTwice(s, s2, s3, i);
    t := Loses(s3, peers, i);
    MovedTwice(s, s3, t, i);
  }

  lemma SettlingNext(s: Sys, t: Sys, peers: set<ID>, todo: set<ID>, i: ID)
    requires WellShaped(s, peers) && Settling(s, peers, todo) && OnlyMoved(s, t, i) && Rested(t, i)
    ensures Settling(t, peers, todo - {i})
  {
  }

  lemma WrapNext(s: Sys, peers: set<ID>, todo: set<ID>, i: ID) returns (t: Sys)
    requires Reachable(s, peers) && |peers| >= 2 && i in todo && todo <= peers && Settling(s, peers, todo)
    ensures Reachable(t, peers) && t.leaders == s.leaders && Settling(t, peers, todo - {i})
  {
    assert Calm(s, i);
    t := WrapOne(s, peers, i);
    SettlingNext(s, t, peers, todo, i);
  }

  /** Every node wraps. */
  lemma {:induction false} WrapAll(s: Sys, peers: set<ID>, todo: set<ID>) returns (t: Sys)
    requires Reachable(s, peers) && |peers| >= 2 && todo <= peers && Settling(s, peers, todo)
    ensures Reachable(t, peers) && t.leaders == s.leaders && Settling(t, peers, {})
    decreases |todo|
  {
    t := s;
    if i :| i in todo {
      t := WrapNext(s, peers, todo, i);
      t := WrapAll(t, peers, todo - {i});
    }
  }

  // ---- everyone votes for a campaign in term 1 ----

  lemma VotesEffect(s: Sys, peers: set<ID>, i: ID, j: ID)
    requires WellShaped(s, peers) && i in peers && j in peers && i != j && i != "" && Rested(s, j)
    requires VoteRequest(i, 1, 0) in s.requests
    ensures var t := Step(s, peers, DeliverRequest(j, VoteRequest(i, 1, 0)));
      && OnlyMoved(s, t, j) && Calm(t, j) && t.requests == s.requests
      && VoteReply(j, VoteRequest(i, 1, 0), Reply(true, 1), 0) in t.replies
  {
  }

  /** One peer votes for it. */
  lemma PeerVotes(s: Sys, peers: set<ID>, i: ID, j: ID) returns (t: Sys)
    requires Reachable(s, peers) && i in peers && j in peers && i != j && i != "" && VoteRequest(i, 1, 0) in s.requests
    requires Rested(s, j)
    ensures Reachable(t, peers) && OnlyMoved(s, t, j) && Calm(t, j) && t.requests == s.requests
    ensures VoteReply(j, VoteRequest(i, 1, 0), Reply(true, 1), 0) in t.replies
  {
    VotesEffect(s, peers, i, j);
    ReachableStep(s, peers, DeliverRequest(j, VoteRequest(i, 1, 0)));
    t := Step(s, peers, DeliverRequest(j, VoteRequest(i, 1, 0)));
  }

  lemma VoteCounted(s: Sys, peers: set<ID>, i: ID, j: ID) returns (t: Sys)
    requires Reachable(s, peers) && i in peers && s.runs[i].Campaigning? && s.runs[i].term == 1
    requires j in s.runs[i].waiting && VoteReply(j, VoteRequest(i, 1, 0), Reply(true, 1), 0) in s.replies
    ensures Reachable(t, peers) && OnlyMoved(s, t, i) && t.nodes[i] == s.nodes[i] && t.requests == s.requests
    ensures var r := s.runs[i]; t.runs[i] == Campaigning(1, r.votes + 1, r.yes + {j}, r.waiting - {j})
  {
    var a := DeliverReply(i, VoteReply(j, VoteRequest(i, 1, 0), Reply(true, 1), 0));
    CountedEffect(s, peers, i, j);
    ReachableStep(s, peers, a);
    t := Step(s, peers, a);
  }

  lemma CountedEffect(s: Sys, peers: set<ID>, i: ID, j: ID)
    requires WellShaped(s, peers) && i in peers && s.runs[i].Campaigning? && s.runs[i].term == 1
    requires j in s.runs[i].waiting && VoteReply(j, VoteRequest(i, 1, 0), Reply(true, 1), 0) in s.replies
    ensures var r, a := s.runs[i], DeliverReply(i, VoteReply(j, VoteRequest(i, 1, 0), Reply(true, 1), 0));
      var t := Step(s, peers, a);
      && OnlyMoved(s, t, i) && t.nodes[i] == s.nodes[i] && t.requests == s.requests
      && t.runs[i] == Campaigning(1, r.votes + 1, r.yes + {j}, r.waiting - {j})
  {
  }

  lemma ElectingNext(s: Sys, u: Sys, t: Sys, peers: set<ID>, i: ID, j: ID)
    requires WellShaped(s, peers) && Electing(s, peers, i) && j in s.runs[i].waiting
    requires OnlyMoved(s, u, j) && Calm(u, j) && OnlyMoved(u, t, i) && t.requests == u.requests == s.requests
    requires t.nodes[i] == u.nodes[i] && u.runs[i].Campaigning?
    requires var r := u.runs[i]; t.runs[i] == Campaigning(1, r.votes + 1, r.yes + {j}, r.waiting - {j})
    ensures Electing(t, peers, i) && t.leaders == s.leaders && t.runs[i].waiting == s.runs[i].waiting - {j}
  {
  }

  lemma OneVote(s: Sys, peers: set<ID>, i: ID, j: ID) returns (t: Sys)
    requires Reachable(s, peers) && Electing(s, peers, i) && i != "" && j in s.runs[i].waiting
    ensures Reachable(t, peers) && Electing(t, peers, i) && t.leaders == s.leaders
    ensures t.runs[i].waiting == s.runs[i].waiting - {j}
  {
    var s1 := PeerVotes(s, peers, i, j);
    t := VoteCounted(s1, peers, i, j);
    ElectingNext(s, s1, t, peers, i, j);
  }

  lemma {:induction false} AllVote(s: Sys, peers: set<ID>, i: ID) returns (t: Sys)
    requires Reachable(s, peers) && Electing(s, peers, i) && i != ""
    ensures Reachable(t, peers) && Electing(t, peers, i) && t.runs[i].waiting == {} && t.leaders == s.leaders
    decreases |s.runs[i].waiting|
  {
    if s.runs[i].waiting == {} { return s; }
    var j :| j in s.runs[i].waiting;
    var s1 := OneVote(s, peers, i, j);
    t := AllVote(s1, peers, i);
  }

  lemma Wins(s: Sys, peers: set<ID>, i: ID) returns (t: Sys)
    requires Reachable(s, peers) && Electing(s, peers, i) && s.runs[i].waiting == {}
    ensures Reachable(t, peers) && t.leaders == s.leaders + {(i, 1)} && AllCalm(t, peers)
  {
    WinsEffect(s, peers, i);
    ReachableStep(s, peers, Tally(i));
    t := Step(s, peers, Tally(i));
  }

  lemma WinsEffect(s: Sys, peers: set<ID>, i: ID)
    requires WellShaped(s, peers) && Electing(s, peers, i) && s.runs[i].waiting == {}
    ensures var t := Step(s, peers, Tally(i)); t.leaders == s.leaders + {(i, 1)} && AllCalm(t, peers)
  {
  }

  lemma AskEffect(s: Sys, peers: set<ID>, i: ID)
    requires WellShaped(s, peers) && i in peers && s.runs[i].Campaigning? && s.runs[i].waiting != {}
    ensures var t := Step(s, peers, SendRequest(i));
      && VoteRequest(i, s.runs[i].term, s.logs[i]) in t.requests
      && OnlyMoved(s, t, i) && t.nodes == s.nodes && t.runs == s.runs
  {
  }

  /** The candidate asks for votes. */
  lemma Asks(s: Sys, peers: set<ID>, i: ID) returns (t: Sys)
    requires Reachable(s, peers) && i in peers && s.runs[i].Campaigning? && s.runs[i].waiting != {}
    ensures Reachable(t, peers) && VoteRequest(i, s.runs[i].term, s.logs[i]) in t.requests
    ensures OnlyMoved(s, t, i) && t.nodes == s.nodes && t.runs == s.runs
  {
    AskEffect(s, peers, i);
    ReachableStep(s, peers, SendRequest(i));
    t := Step(s, peers, SendRequest(i));
  }

  lemma ElectingStart(s: Sys, t: Sys, peers: set<ID>, i: ID)
    requires WellShaped(s, peers) && i in peers && Settling(s, peers, {}) && Campaigned(s, t, peers, i, 1)
    requires VoteRequest(i, 1, 0) in t.requests
    ensures Electing(t, peers, i) && t.leaders == s.leaders
  {
    assert Rested(s, i);
    assert |peers - {i}| == |peers| - 1;
    forall j | j in peers - {i} ensures Rested(t, j) { assert Rested(s, j); }
  }

  lemma BeginElection(s: Sys, peers: set<ID>, i: ID) returns (t: Sys)
    requires Reachable(s, peers) && i in peers && |peers| >= 2 && Settling(s, peers, {})
    ensures Reachable(t, peers) && Electing(t, peers, i) && t.leaders == s.leaders
  {
    assert Rested(s, i) && NextTerm(s.nodes[i].term, 1);
    var s1 := StartCampaign(s, peers, i, 1);
    assert |peers - {i}| == |peers| - 1;
    t := Asks(s1, peers, i);
    MovedTwice(s, s1, t, i);
    ElectingStart(s, t, peers, i);
  }

  /** From rest, any named peer can be elected in term 1. */
  lemma ElectInTermOne(s: Sys, peers: set<ID>, i: ID) returns (t: Sys)
    requires Reachable(s, peers) && i in peers && i != "" && |peers| >= 2 && Settling(s, peers, {})
    ensures Reachable(t, peers) && t.leaders == s.leaders + {(i, 1)} && AllCalm(t, peers)
  {
    t := BeginElection(s, peers, i);
    t := AllVote(t, peers, i);
    t := Wins(t, peers, i);
  }

  /** Any two named peers of any cluster can both lead term 1: one is elected, stray heartbeats with the
      last term make every node wrap to term 0, and the other is elected. */
  lemma WrapElectsTwoLeaders(peers: set<ID>, a: ID, b: ID) returns (t: Sys)
    requires a in peers && b in peers && a != b && a != "" && b != ""
    ensures Reachable(t, peers) && (a, 1) in t.leaders && (b, 1) in t.leaders
  {
    SubsetSize({a, b}, peers);
    var start := InitSys(peers);
    assert Reaches(start, peers, [], start);
    var s1 := ElectInTermOne(start, peers, a);
    var s2 := WrapAll(s1, peers, peers);
    t := ElectInTermOne(s2, peers, b);
  }

  // ---- with fewer named peers the wrap does no harm ----

  lemma NamelessStep(s: Sys, peers: set<ID>, a: Action)
    requires NamelessLoses(s, peers) && Enabled(s, peers, a)
    ensures NamelessLoses(Step(s, peers, a), peers)
  {
    NamelessReplies(s, peers, a);
    if "" in peers { NamelessVotes(s, peers, a); }
    NamelessLeaders(s, peers, a);
  }

  lemma NamelessReplies(s: Sys, peers: set<ID>, a: Action)
    requires NamelessLoses(s, peers) && Enabled(s, peers, a)
    ensures forall r <- Step(s, peers, a).replies :: r.reply.ok ==> r.request.candidate != ""
  {
  }

  lemma NamelessVotes(s: Sys, peers: set<ID>, a: Action)
    requires NamelessLoses(s, peers) && Enabled(s, peers, a) && "" in peers
    ensures var run := Step(s, peers, a).runs[""]; run.Campaigning? ==> run.votes == 1
  {
  }

  lemma NamelessLeaders(s: Sys, peers: set<ID>, a: Action)
    requires NamelessLoses(s, peers) && Enabled(s, peers, a)
    ensures forall l <- Step(s, peers, a).leaders :: l.0 in peers && (l.0 == "" ==> |peers| <= 1)
  {
  }

  lemma {:induction false} NamelessRun(s: Sys, peers: set<ID>, acts: seq<Action>, t: Sys)
    requires NamelessLoses(s, peers) && Reaches(s, peers, acts, t)
    ensures NamelessLoses(t, peers)
    decreases |acts|
  {
    if acts != [] {
      NamelessStep(s, peers, acts[0]);
      NamelessRun(Step(s, peers, acts[0]), peers, acts[1..], t);
    }
  }

  lemma TwoLeadersNeedNames(t: Sys, peers: set<ID>)
    requires NamelessLoses(t, peers) && TwoLeaders(t)
    ensures TwoNamed(peers)
  {
    var i, j, term :| (i, term) in t.leaders && (j, term) in t.leaders && i != j;
    SubsetSize({i, j}, peers);
    assert (i, term).0 in peers && (j, term).0 in peers;
  }

  /** Exactly the clusters with two named peers have runs, wraps included, in which one term has two
      leaders; OneLeaderPerTerm says that every such run wraps. */
  lemma TwoLeadersPossible(peers: set<ID>)
    ensures (exists t :: Reachable(t, peers) && TwoLeaders(t)) <==> TwoNamed(peers)
  {
    if TwoNamed(peers) {
      var a, b :| a in peers && b in peers && a != b && a != "" && b != "";
      var t := WrapElectsTwoLeaders(peers, a, b);
      assert TwoLeaders(t);
    }
    if t :| Reachable(t, peers) && TwoLeaders(t) {
      var acts :| Reaches(InitSys(peers), peers, acts, t);
      NamelessRun(InitSys(peers), peers, acts, t);
      TwoLeadersNeedNames(t, peers);
    }
  }
}
