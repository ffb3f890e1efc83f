/** What view-change votes say, and when a NEW-VIEW is acceptable (consensus/pbft/view_change.go). */
module ViewChangeRules {
  import opened Types
  import opened Messages
  import Quorum

  // ----- Facts carried by a list of votes -----

  /** All prepared certificates, in the order the loops meet them. */
  ghost function Certs(votes: seq<ViewChangeMsg>): seq<PreparedCert> {
    if votes == [] then [] else Certs(votes[..|votes| - 1]) + votes[|votes| - 1].preparedSet
  }

  ghost function Checkpoints(votes: seq<ViewChangeMsg>): seq<Checkpoint> {
    if votes == [] then [] else Checkpoints(votes[..|votes| - 1]) + votes[|votes| - 1].checkpoints
  }

  ghost predicate Certifies(certs: seq<PreparedCert>, seqNum: nat, digest: Bytes) {
    exists c <- certs :: c.prePrepare.seqNum == seqNum && c.prePrepare.digest == digest
  }

  /** The certificates give every sequence number at most one digest. */
  ghost predicate Consistent(certs: seq<PreparedCert>) {
    forall a <- certs, b <- certs :: a.prePrepare.seqNum == b.prePrepare.seqNum ==>
      a.prePrepare.digest == b.prePrepare.digest
  }

  ghost predicate IsMaxCheckpoint(cps: seq<Checkpoint>, m: nat) {
    && (forall c <- cps :: c.seqNum <= m)
    && (m == 0 || exists c <- cps :: c.seqNum == m)
  }

  /** The largest checkpoint in the votes, 0 if there is none. */
  ghost function MaxCheckpoint(cps: seq<Checkpoint>): nat {
    if cps == [] then 0 else
      var init, c := cps[..|cps| - 1], cps[|cps| - 1];
      var m := MaxCheckpoint(init);
      if c.seqNum > m then c.seqNum else m
  }

  ghost predicate Proposes(prePrepares: seq<PrePrepareMsg>, seqNum: nat) {
    exists pp <- prePrepares :: pp.seqNum == seqNum
  }

  /** The rule verifyNewViewMsg is meant to decide, without its loops. */
  ghost predicate Acceptable(msg: NewViewMsg, quorum: nat) {
    var certs := Certs(msg.votes);
    var stable := MaxCheckpoint(Checkpoints(msg.votes));
    && |msg.votes| >= quorum
    && (forall v <- msg.votes :: v.newView == msg.view)
    && Consistent(certs)
    && (forall pp <- msg.prePrepares :: pp.seqNum > stable)
    && (forall pp <- msg.prePrepares, c <- certs :: c.prePrepare.seqNum == pp.seqNum ==>
          c.prePrepare.digest == pp.digest)
    && (forall c <- certs :: c.prePrepare.seqNum > stable ==> Proposes(msg.prePrepares, c.prePrepare.seqNum))
  }

  // ----- What the new primary builds -----

  /** The first certificate met for a sequence number supplies the block to re-propose. */
  ghost function FirstCertified(certs: seq<PreparedCert>, seqNum: nat): Option<PrePrepareMsg> {
    if certs == [] then None else
      var init, c := certs[..|certs| - 1], certs[|certs| - 1];
      var r := FirstCertified(init, seqNum);
      if r.Some? then r else if c.prePrepare.seqNum == seqNum then Some(c.prePrepare) else None
  }

  /** Re-proposals for low < seqNum <= high, in ascending order, gaps left out. */
  ghost function RePropose(certs: seq<PreparedCert>, low: nat, high: nat): seq<PrePrepareMsg> {
    if high <= low then [] else
      RePropose(certs, low, high - 1)
      + match FirstCertified(certs, high) { case None => [] case Some(pp) => [pp] }
  }

  ghost function MaxPrepared(certs: seq<PreparedCert>): nat {
    if certs == [] then 0 else
      var init, c := certs[..|certs| - 1], certs[|certs| - 1];
      var m := MaxPrepared(init);
      if c.prePrepare.seqNum > m then c.prePrepare.seqNum else m
  }

  ghost function PrePrepareSet(votes: seq<ViewChangeMsg>): seq<PrePrepareMsg> {
    RePropose(Certs(votes), MaxCheckpoint(Checkpoints(votes)), MaxPrepared(Certs(votes)))
  }

  ghost function BuildNewView(view: nat, votes: seq<ViewChangeMsg>, primary: NodeId): NewViewMsg {
    NewViewMsg(view, votes, PrePrepareSet(votes), primary)
  }

  ghost predicate DistinctSenders(votes: seq<ViewChangeMsg>) {
    forall i, j | 0 <= i < j < |votes| :: votes[i].nodeId != votes[j].nodeId
  }

  ghost function Senders(votes: seq<ViewChangeMsg>): set<NodeId> {
    set v <- votes :: v.nodeId
  }

  /** `votes` is one iteration order of `table`, whose entries are filed under their own sender. */
  ghost predicate Lists(votes: seq<ViewChangeMsg>, table: map<NodeId, ViewChangeMsg>) {
    && |votes| == |table|
    && DistinctSenders(votes)
    && (forall v <- votes :: v.nodeId in table && table[v.nodeId] == v)
  }

  /** No two certificates in the stored votes disagree about a sequence number. */
  ghost predicate TableConsistent(table: map<NodeId, ViewChangeMsg>) {
    forall a <- table, b <- table :: forall p <- table[a].preparedSet, q <- table[b].preparedSet ::
      p.prePrepare.seqNum == q.prePrepare.seqNum ==> p.prePrepare.digest == q.prePrepare.digest
  }

  // ----- Lemmas -----

  lemma {:induction false} MaxCheckpointIsMax(cps: seq<Checkpoint>)
    ensures IsMaxCheckpoint(cps, MaxCheckpoint(cps))
  {
    if cps == [] {
    } else {
      var init, c := cps[..|cps| - 1], cps[|cps| - 1];
      MaxCheckpointIsMax(init);
      assert cps == init + [c];
    }
  }

  lemma {:induction false} MaxPreparedIsMax(certs: seq<PreparedCert>)
    ensures forall c <- certs :: c.prePrepare.seqNum <= MaxPrepared(certs)
  {
    if certs == [] {
    } else {
      var init, c := certs[..|certs| - 1], certs[|certs| - 1];
      MaxPreparedIsMax(init);
      assert certs == init + [c];
    }
  }

  lemma {:induction false} FirstCertifiedIsCertified(certs: seq<PreparedCert>, seqNum: nat)
    ensures match FirstCertified(certs, seqNum)
            case Some(pp) => pp.seqNum == seqNum && exists c <- certs :: c.prePrepare == pp
            case None => forall c <- certs :: c.prePrepare.seqNum != seqNum
  {
    if certs == [] {
    } else {
      var init, c := certs[..|certs| - 1], certs[|certs| - 1];
      FirstCertifiedIsCertified(init, seqNum);
      assert certs == init + [c];
    }
  }

  lemma {:induction false} CertsMembers(votes: seq<ViewChangeMsg>)
    ensures forall v <- votes, c <- v.preparedSet :: c in Certs(votes)
    ensures forall c <- Certs(votes) :: exists v <- votes :: c in v.preparedSet
  {
    if votes == [] {
    } else {
      var init, last := votes[..|votes| - 1], votes[|votes| - 1];
      CertsMembers(init);
      assert votes == init + [last];
    }
  }

  lemma {:induction false} CheckpointsMembers(votes: seq<ViewChangeMsg>)
    ensures forall v <- votes, c <- v.checkpoints :: c in Checkpoints(votes)
    ensures forall c <- Checkpoints(votes) :: exists v <- votes :: c in v.checkpoints
  {
    if votes == [] {
    } else {
      var init, last := votes[..|votes| - 1], votes[|votes| - 1];
      CheckpointsMembers(init);
      assert votes == init + [last];
    }
  }

  /** The loops meet the votes in order, and within a vote its certificates and checkpoints in order. */
  lemma {:induction false} VotesInOrder(a: seq<ViewChangeMsg>, b: seq<ViewChangeMsg>, v: ViewChangeMsg)
    ensures Certs([]) == [] && Certs([v]) == v.preparedSet && Certs(a + b) == Certs(a) + Certs(b)
    ensures Checkpoints([]) == [] && Checkpoints([v]) == v.checkpoints
    ensures Checkpoints(a + b) == Checkpoints(a) + Checkpoints(b)
  {
    assert [v][..0] == [];
    if b == [] {
      assert a + b == a;
    } else {
      VotesInOrder(a, b[..|b| - 1], v);
      assert (a + b)[..|a + b| - 1] == a + b[..|b| - 1];
    }
  }

  /** The certificate at `k` is for `pp`, and none before it is for the same number. */
  ghost predicate FirstAt(certs: seq<PreparedCert>, k: nat, pp: PrePrepareMsg) {
    && k < |certs| && certs[k].prePrepare == pp
    && forall j | 0 <= j < k :: certs[j].prePrepare.seqNum != pp.seqNum
  }

  ghost predicate IsFirst(certs: seq<PreparedCert>, pp: PrePrepareMsg) {
    exists k: nat :: FirstAt(certs, k, pp)
  }

  lemma {:induction false} FirstCertifiedIsFirst(certs: seq<PreparedCert>, pp: PrePrepareMsg)
    requires FirstCertified(certs, pp.seqNum) == Some(pp)
    ensures IsFirst(certs, pp)
  {
    var init := certs[..|certs| - 1];
    if FirstCertified(init, pp.seqNum).Some? {
      FirstCertifiedIsFirst(init, pp);
      var k: nat :| FirstAt(init, k, pp);
      assert FirstAt(certs, k, pp);
    } else {
      FirstCertifiedIsCertified(init, pp.seqNum);
      assert forall j | 0 <= j < |init| :: init[j] in init;
      assert FirstAt(certs, |init|, pp);
    }
  }

  /** A number above every checkpoint of the votes, and above 0. */
  ghost predicate AboveCheckpoints(votes: seq<ViewChangeMsg>, seqNum: nat) {
    seqNum > 0 && forall v <- votes, cp <- v.checkpoints :: cp.seqNum < seqNum
  }

  lemma AboveIsAboveMax(votes: seq<ViewChangeMsg>, seqNum: nat)
    ensures AboveCheckpoints(votes, seqNum) <==> seqNum > MaxCheckpoint(Checkpoints(votes))
  {
    CheckpointsMembers(votes);
    MaxCheckpointIsMax(Checkpoints(votes));
  }

  /** What is re-proposed, without the loops: in ascending order, for each certified number above every checkpoint, the
      proposal of the first certificate for it. */
  lemma BuiltExactly(votes: seq<ViewChangeMsg>)
    ensures forall i, j | 0 <= i < j < |PrePrepareSet(votes)| ::
              PrePrepareSet(votes)[i].seqNum < PrePrepareSet(votes)[j].seqNum
    ensures forall pp <- PrePrepareSet(votes) ::
              AboveCheckpoints(votes, pp.seqNum) && IsFirst(Certs(votes), pp)
    ensures forall v <- votes, c <- v.preparedSet | AboveCheckpoints(votes, c.prePrepare.seqNum) ::
              exists pp <- PrePrepareSet(votes) :: pp.seqNum == c.prePrepare.seqNum
  {
    var certs, pps := Certs(votes), PrePrepareSet(votes);
    CertsMembers(votes);
    MaxPreparedIsMax(certs);
    ReProposeExactly(certs, MaxCheckpoint(Checkpoints(votes)), MaxPrepared(certs));
    forall pp <- pps ensures AboveCheckpoints(votes, pp.seqNum) && IsFirst(certs, pp) {
      AboveIsAboveMax(votes, pp.seqNum);
      FirstCertifiedIsFirst(certs, pp);
    }
    forall v <- votes, c <- v.preparedSet | AboveCheckpoints(votes, c.prePrepare.seqNum)
      ensures exists pp <- pps :: pp.seqNum == c.prePrepare.seqNum
    {
      AboveIsAboveMax(votes, c.prePrepare.seqNum);
      assert Proposes(pps, c.prePrepare.seqNum);
    }
  }

  /** What an acceptable message is, said of the votes themselves. */
  lemma AcceptableExactly(msg: NewViewMsg, quorum: nat)
    ensures Acceptable(msg, quorum) <==>
            && |msg.votes| >= quorum
            && (forall v <- msg.votes :: v.newView == msg.view)
            && (forall v <- msg.votes, w <- msg.votes :: forall c <- v.preparedSet, d <- w.preparedSet ::
                  c.prePrepare.seqNum == d.prePrepare.seqNum ==> c.prePrepare.digest == d.prePrepare.digest)
            && (forall pp <- msg.prePrepares :: AboveCheckpoints(msg.votes, pp.seqNum))
            && (forall pp <- msg.prePrepares, v <- msg.votes :: forall c <- v.preparedSet ::
                  c.prePrepare.seqNum == pp.seqNum ==> c.prePrepare.digest == pp.digest)
            && (forall v <- msg.votes, c <- v.preparedSet | AboveCheckpoints(msg.votes, c.prePrepare.seqNum) ::
                  exists pp <- msg.prePrepares :: pp.seqNum == c.prePrepare.seqNum)
  {
    CertsMembers(msg.votes);
    forall s: nat ensures AboveCheckpoints(msg.votes, s) <==> s > MaxCheckpoint(Checkpoints(msg.votes)) {
      AboveIsAboveMax(msg.votes, s);
    }
  }

  /** The re-proposals cover exactly the certified numbers of the range, once each and in order. */
  lemma {:induction false} ReProposeExactly(certs: seq<PreparedCert>, low: nat, high: nat)
    ensures forall pp <- RePropose(certs, low, high) ::
      low < pp.seqNum <= high && FirstCertified(certs, pp.seqNum) == Some(pp)
    ensures forall c <- certs :: low < c.prePrepare.seqNum <= high ==>
      Proposes(RePropose(certs, low, high), c.prePrepare.seqNum)
    ensures forall i, j | 0 <= i < j < |RePropose(certs, low, high)| ::
      RePropose(certs, low, high)[i].seqNum < RePropose(certs, low, high)[j].seqNum
  {
    if high <= low {
    } else {
      ReProposeExactly(certs, low, high - 1);
      FirstCertifiedIsCertified(certs, high);
      var before := RePropose(certs, low, high - 1);
      var all := RePropose(certs, low, high);
      forall c <- certs | low < c.prePrepare.seqNum <= high
        ensures Proposes(all, c.prePrepare.seqNum)
      {
        if c.prePrepare.seqNum < high {
          var pp :| pp in before && pp.seqNum == c.prePrepare.seqNum;
          assert pp in all;
        } else {
          assert FirstCertified(certs, high).value in all;
        }
      }
    }
  }

  /** Every vote in the table is listed, whatever the iteration order. */
  lemma ListsAll(votes: seq<ViewChangeMsg>, table: map<NodeId, ViewChangeMsg>)
    requires Lists(votes, table)
    ensures forall id <- table :: table[id] in votes
  {
    var senders := Senders(votes);
    SendersCount(votes);
    assert senders <= table.Keys;
    Quorum.SameSizeSubset(senders, table.Keys);
    assert forall id <- table :: id in senders;
  }

  lemma {:induction false} SendersCount(votes: seq<ViewChangeMsg>)
    requires DistinctSenders(votes)
    ensures |Senders(votes)| == |votes|
  {
    if votes == [] {
    } else {
      var init, last := votes[..|votes| - 1], votes[|votes| - 1];
      SendersCount(init);
      assert votes == init + [last];
      assert Senders(votes) == Senders(init) + {last.nodeId};
      assert last.nodeId !in Senders(init);
    }
  }

  lemma ListedConsistent(votes: seq<ViewChangeMsg>, table: map<NodeId, ViewChangeMsg>)
    requires Lists(votes, table)
    ensures Consistent(Certs(votes)) <==> TableConsistent(table)
  {
    if TableConsistent(table) {
      TableToList(votes, table);
    }
    if Consistent(Certs(votes)) {
      ListToTable(votes, table);
    }
  }

  lemma TableToList(votes: seq<ViewChangeMsg>, table: map<NodeId, ViewChangeMsg>)
    requires Lists(votes, table) && TableConsistent(table)
    ensures Consistent(Certs(votes))
  {
    CertsMembers(votes);
    var certs := Certs(votes);
    forall a <- certs, b <- certs | a.prePrepare.seqNum == b.prePrepare.seqNum
      ensures a.prePrepare.digest == b.prePrepare.digest
    {
      var va :| va in votes && a in va.preparedSet;
      var vb :| vb in votes && b in vb.preparedSet;
      assert va.nodeId in table && vb.nodeId in table;
    }
  }

  lemma ListToTable(votes: seq<ViewChangeMsg>, table: map<NodeId, ViewChangeMsg>)
    requires Lists(votes, table) && Consistent(Certs(votes))
    ensures TableConsistent(table)
  {
    ListsAll(votes, table);
    CertsMembers(votes);
    forall a <- table, b <- table, p <- table[a].preparedSet, q <- table[b].preparedSet
      | p.prePrepare.seqNum == q.prePrepare.seqNum
      ensures p.prePrepare.digest == q.prePrepare.digest
    {
      assert p in Certs(votes) && q in Certs(votes);
    }
  }

  /** What the builder re-proposes never contradicts consistent certificates. */
  lemma BuiltMatchesCerts(votes: seq<ViewChangeMsg>)
    requires Consistent(Certs(votes))
    ensures forall pp <- PrePrepareSet(votes), c <- Certs(votes) :: c.prePrepare.seqNum == pp.seqNum ==>
      c.prePrepare.digest == pp.digest
  {
    var certs := Certs(votes);
    ReProposeExactly(certs, MaxCheckpoint(Checkpoints(votes)), MaxPrepared(certs));
    forall pp <- PrePrepareSet(votes), c <- certs | c.prePrepare.seqNum == pp.seqNum
      ensures c.prePrepare.digest == pp.digest
    {
      FirstCertifiedIsCertified(certs, pp.seqNum);
      var first :| first in certs && first.prePrepare == FirstCertified(certs, pp.seqNum).value;
    }
  }

  /** What is built over consistent certificates is acceptable. */
  lemma ConsistentIsAcceptable(msg: NewViewMsg, quorum: nat)
    requires |msg.votes| >= quorum && forall v <- msg.votes :: v.newView == msg.view
    requires msg.prePrepares == PrePrepareSet(msg.votes) && Consistent(Certs(msg.votes))
    ensures Acceptable(msg, quorum)
  {
    var certs := Certs(msg.votes);
    BuiltMatchesCerts(msg.votes);
    MaxPreparedIsMax(certs);
    ReProposeExactly(certs, MaxCheckpoint(Checkpoints(msg.votes)), MaxPrepared(certs));
  }

  /** Builder and checker agree: for any iteration order of a quorum of votes for `view`, the message built
      is accepted exactly when no two certificates among the votes conflict. */
  lemma BuilderAndCheckerAgree(view: nat, table: map<NodeId, ViewChangeMsg>, votes: seq<ViewChangeMsg>,
                               primary: NodeId, quorum: nat)
    requires Lists(votes, table)
    requires forall id <- table :: table[id].newView == view
    requires |table| >= quorum
    ensures Acceptable(BuildNewView(view, votes, primary), quorum) <==> TableConsistent(table)
  {
    ListedConsistent(votes, table);
    if Consistent(Certs(votes)) {
      ConsistentIsAcceptable(BuildNewView(view, votes, primary), quorum);
    }
  }

  /** Two accepted messages over the same votes re-propose the same digest wherever a vote certifies one. */
  lemma AcceptedMessagesAgree(a: NewViewMsg, b: NewViewMsg, quorum: nat)
    requires Acceptable(a, quorum) && Acceptable(b, quorum)
    requires forall v :: v in a.votes <==> v in b.votes
    ensures forall p <- a.prePrepares, q <- b.prePrepares, v <- a.votes, c <- v.preparedSet ::
      p.seqNum == q.seqNum == c.prePrepare.seqNum ==> p.digest == q.digest
    ensures forall v <- a.votes, c <- v.preparedSet ::
      Proposes(a.prePrepares, c.prePrepare.seqNum) <==> Proposes(b.prePrepares, c.prePrepare.seqNum)
  {
    CertsMembers(a.votes);
    CertsMembers(b.votes);
    CheckpointsMembers(a.votes);
    CheckpointsMembers(b.votes);
    MaxCheckpointIsMax(Checkpoints(a.votes));
    MaxCheckpointIsMax(Checkpoints(b.votes));
    assert forall c <- Checkpoints(a.votes) :: c in Checkpoints(b.votes);
    assert forall c <- Checkpoints(b.votes) :: c in Checkpoints(a.votes);
  }

  ghost predicate VoteReports(vote: ViewChangeMsg, seqNum: nat, digest: Bytes) {
    Certifies(vote.preparedSet, seqNum, digest)
  }

  /** `msg` keeps (seqNum, digest) alive: it re-proposes it, and nothing else for that number, or shows a
      checkpoint that already covers it. */
  ghost predicate Preserves(msg: NewViewMsg, seqNum: nat, digest: Bytes) {
    || (exists v <- msg.votes :: exists c <- v.checkpoints :: c.seqNum >= seqNum)
    || (&& Proposes(msg.prePrepares, seqNum)
        && forall pp <- msg.prePrepares :: pp.seqNum == seqNum ==> pp.digest == digest)
  }

  /** Preservation: once a quorum reports a number prepared, every acceptable NEW-VIEW over votes of distinct
      validators carries it on, provided two quorums must meet. */
  lemma ReportedIsPreserved(msg: NewViewMsg, quorum: nat, validators: set<NodeId>, reporters: set<NodeId>,
                            seqNum: nat, digest: Bytes)
    requires DistinctSenders(msg.votes) && Senders(msg.votes) <= validators
    requires reporters <= validators && |reporters| >= quorum
    requires 2 * quorum > |validators|
    requires forall v <- msg.votes :: v.nodeId in reporters ==> VoteReports(v, seqNum, digest)
    requires Acceptable(msg, quorum)
    requires seqNum > 0
    ensures Preserves(msg, seqNum, digest)
  {
    SendersCount(msg.votes);
    Quorum.IntersectionSize(Senders(msg.votes), reporters, validators);
    var id :| id in Senders(msg.votes) * reporters;
    var vote :| vote in msg.votes && vote.nodeId == id;
    CertsMembers(msg.votes);
    CheckpointsMembers(msg.votes);
    var c :| c in vote.preparedSet && c.prePrepare.seqNum == seqNum && c.prePrepare.digest == digest;
    assert c in Certs(msg.votes);
    MaxCheckpointIsMax(Checkpoints(msg.votes));
    var stable := MaxCheckpoint(Checkpoints(msg.votes));
    if stable >= seqNum {
      var cp :| cp in Checkpoints(msg.votes) && cp.seqNum == stable;
    }
  }

  /** `msg` is an acceptable message over votes of distinct validators, of whom the `reporters`, a quorum, all
      report (seqNum, digest) prepared. */
  ghost predicate Reported(msg: NewViewMsg, quorum: nat, validators: set<NodeId>, reporters: set<NodeId>,
                           seqNum: nat, digest: Bytes)
  {
    && DistinctSenders(msg.votes) && Senders(msg.votes) <= validators
    && reporters <= validators && |reporters| >= quorum
    && (forall v <- msg.votes :: v.nodeId in reporters ==> VoteReports(v, seqNum, digest))
    && Acceptable(msg, quorum)
  }

  ghost predicate AlwaysPreserved(quorum: nat, validators: set<NodeId>, seqNum: nat, digest: Bytes) {
    forall msg: NewViewMsg, reporters: set<NodeId> | Reported(msg, quorum, validators, reporters, seqNum, digest) ::
      Preserves(msg, seqNum, digest)
  }

  /** A vote with nothing to report from every member. */
  lemma {:induction false} EmptyVotes(members: set<NodeId>) returns (votes: seq<ViewChangeMsg>)
    ensures Senders(votes) == members && DistinctSenders(votes) && |votes| == |members|
    ensures forall v <- votes :: v.nodeId in members && v == ViewChangeMsg(1, 0, [], [], v.nodeId)
  {
    if members == {} {
      votes := [];
    } else {
      var id :| id in members;
      var others := EmptyVotes(members - {id});
      votes := others + [ViewChangeMsg(1, 0, [], [], id)];
      OneMoreSender(others, votes[|others|]);
    }
  }

  lemma OneMoreSender(votes: seq<ViewChangeMsg>, vote: ViewChangeMsg)
    requires DistinctSenders(votes) && vote.nodeId !in Senders(votes)
    ensures DistinctSenders(votes + [vote]) && Senders(votes + [vote]) == Senders(votes) + {vote.nodeId}
  {
    assert forall i | 0 <= i < |votes| :: votes[i] in votes;
  }

  /** Without 2q > n, an acceptable message over one quorum's votes drops what a disjoint quorum reports. */
  lemma DisjointQuorumIsIgnored(quorum: nat, validators: set<NodeId>, seqNum: nat, digest: Bytes)
    returns (msg: NewViewMsg, reporters: set<NodeId>)
    requires 2 * quorum <= |validators|
    ensures Reported(msg, quorum, validators, reporters, seqNum, digest) && !Preserves(msg, seqNum, digest)
  {
    var voters;
    voters, reporters := Quorum.LeastOverlap(validators, quorum);
    Quorum.NoOverlap(voters, reporters);
    var votes := EmptyVotes(voters);
    msg := NewViewMsg(1, votes, [], []);
    NothingToReport(msg, quorum);
    assert forall v <- votes :: v.nodeId in voters;
  }

  lemma NothingToReport(msg: NewViewMsg, quorum: nat)
    requires |msg.votes| >= quorum && msg.prePrepares == []
    requires forall v <- msg.votes :: v == ViewChangeMsg(msg.view, 0, [], [], v.nodeId)
    ensures Acceptable(msg, quorum)
  {
    CertsMembers(msg.votes);
    if Certs(msg.votes) != [] {
      assert Certs(msg.votes)[0] in Certs(msg.votes);
    }
  }

  /** Preservation holds of a set of validators exactly when two quorums of it must meet. */
  lemma PreservationExactly(quorum: nat, validators: set<NodeId>, seqNum: nat, digest: Bytes)
    requires seqNum > 0
    ensures AlwaysPreserved(quorum, validators, seqNum, digest) <==> 2 * quorum > |validators|
  {
    if 2 * quorum > |validators| {
      forall msg: NewViewMsg, reporters: set<NodeId>
        | Reported(msg, quorum, validators, reporters, seqNum, digest)
        ensures Preserves(msg, seqNum, digest)
      {
        ReportedIsPreserved(msg, quorum, validators, reporters, seqNum, digest);
      }
    } else {
      var msg, reporters := DisjointQuorumIsIgnored(quorum, validators, seqNum, digest);
    }
  }
}
