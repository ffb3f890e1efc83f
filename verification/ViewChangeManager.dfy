/** The view-change manager: its vote table and the loops that build and check NEW-VIEW messages
    (consensus/pbft/view_change.go). */
module ViewChange {
  import opened Types
  import opened Messages
  import opened ViewChangeRules

  /** The value a ViewChangeManager object holds. */
  datatype Manager = Manager(
    currentView: nat,
    votes: map<nat, map<NodeId, ViewChangeMsg>>,
    newViews: map<nat, NewViewMsg>,
    inProgress: bool,
    quorum: nat,
    nodeId: NodeId
  ) {
    function Table(view: nat): map<NodeId, ViewChangeMsg> {
      if view in votes then votes[view] else map[]
    }

    /** Every vote is filed under the view and the node it names. */
    ghost predicate VotesFiled() {
      forall v <- votes, id <- votes[v] :: votes[v][id].newView == v && votes[v][id].nodeId == id
    }

    function Record(vote: ViewChangeMsg): Manager {
      this.(votes := votes[vote.newView := Table(vote.newView)[vote.nodeId := vote]])
    }

    ghost function Adopt(msg: NewViewMsg): Manager {
      this.(
        newViews := newViews[msg.view := msg],
        currentView := msg.view,
        inProgress := false,
        votes := map v | v in votes && v > msg.view :: votes[v])
    }
  }

  function NewManager(nodeId: NodeId, quorum: nat): Manager {
    Manager(0, map[], map[], false, quorum, nodeId)
  }

  /** The checkpoint loop that both computePrePrepareSet and verifyNewViewMsg open with. */
  lemma MaxCheckpointNext(cps: seq<Checkpoint>, c: Checkpoint)
    ensures MaxCheckpoint(cps + [c]) == if c.seqNum > MaxCheckpoint(cps) then c.seqNum else MaxCheckpoint(cps)
  {
    assert (cps + [c])[..|cps|] == cps;
  }

  lemma CheckpointsNext(votes: seq<ViewChangeMsg>, i: nat)
    requires i < |votes|
    ensures Checkpoints(votes[..i + 1]) == Checkpoints(votes[..i]) + votes[i].checkpoints
  {
    assert votes[..i + 1][..i] == votes[..i];
  }

  method FindMaxCheckpoint(votes: seq<ViewChangeMsg>) returns (maxCheckpoint: nat)
    ensures maxCheckpoint == MaxCheckpoint(Checkpoints(votes))
  {
    maxCheckpoint := 0;
    for i := 0 to |votes|
      invariant maxCheckpoint == MaxCheckpoint(Checkpoints(votes[..i]))
    {
      CheckpointsNext(votes, i);
      maxCheckpoint := FindMaxAfter(votes[i].checkpoints, maxCheckpoint, Checkpoints(votes[..i]));
    }
    assert votes[..|votes|] == votes;
  }

  /** The loop over the checkpoints of one vote; `seen` are those met before. */
  method FindMaxAfter(cps: seq<Checkpoint>, before: nat, ghost seen: seq<Checkpoint>) returns (maxCheckpoint: nat)
    requires before == MaxCheckpoint(seen)
    ensures maxCheckpoint == MaxCheckpoint(seen + cps)
  {
    maxCheckpoint := before;
    assert seen + cps[..0] == seen;
    for j := 0 to |cps|
      invariant maxCheckpoint == MaxCheckpoint(seen + cps[..j])
    {
      MaxCheckpointNext(seen + cps[..j], cps[j]);
      assert seen + cps[..j + 1] == seen + cps[..j] + [cps[j]];
      if cps[j].seqNum > maxCheckpoint {
        maxCheckpoint := cps[j].seqNum;
      }
    }
    assert cps[..|cps|] == cps;
  }

  lemma MaxPreparedNext(certs: seq<PreparedCert>, c: PreparedCert)
    ensures MaxPrepared(certs + [c]) ==
            if c.prePrepare.seqNum > MaxPrepared(certs) then c.prePrepare.seqNum else MaxPrepared(certs)
  {
    assert (certs + [c])[..|certs|] == certs;
  }

  /** The blocks the loop of computePrePrepareSet keeps. */
  ghost function FirstIndex(certs: seq<PreparedCert>): map<nat, PrePrepareMsg> {
    if certs == [] then map[]
    else
      var m, pp := FirstIndex(certs[..|certs| - 1]), certs[|certs| - 1].prePrepare;
      if pp.seqNum in m then m else m[pp.seqNum := pp]
  }

  lemma FirstIndexNext(certs: seq<PreparedCert>, c: PreparedCert)
    ensures var m, pp := FirstIndex(certs), c.prePrepare;
            FirstIndex(certs + [c]) == if pp.seqNum in m then m else m[pp.seqNum := pp]
  {
    assert (certs + [c])[..|certs|] == certs;
  }

  lemma {:induction false} FirstIndexExactly(certs: seq<PreparedCert>, s: nat)
    ensures FirstCertified(certs, s) == if s in FirstIndex(certs) then Some(FirstIndex(certs)[s]) else None
  {
    if certs != [] {
      FirstIndexExactly(certs[..|certs| - 1], s);
    }
  }

  /** `prepared` maps each certified number to its digest. */
  ghost predicate Indexes(prepared: map<nat, Bytes>, certs: seq<PreparedCert>) {
    && (forall c <- certs :: c.prePrepare.seqNum in prepared && prepared[c.prePrepare.seqNum] == c.prePrepare.digest)
    && (forall s <- prepared :: Certifies(certs, s, prepared[s]))
  }

  /** The index the loop builds, None once two certificates conflict. */
  ghost function IndexOf(certs: seq<PreparedCert>): Option<map<nat, Bytes>> {
    if certs == [] then Some(map[])
    else
      var pp := certs[|certs| - 1].prePrepare;
      match IndexOf(certs[..|certs| - 1])
      case None => None
      case Some(m) =>
        if pp.seqNum in m && m[pp.seqNum] != pp.digest then None else Some(m[pp.seqNum := pp.digest])
  }

  lemma IndexOfNext(certs: seq<PreparedCert>, c: PreparedCert)
    requires IndexOf(certs).Some?
    ensures var m, pp := IndexOf(certs).value, c.prePrepare;
            IndexOf(certs + [c]) ==
            if pp.seqNum in m && m[pp.seqNum] != pp.digest then None else Some(m[pp.seqNum := pp.digest])
  {
    assert (certs + [c])[..|certs|] == certs;
  }

  lemma {:induction false} ConflictStays(certs: seq<PreparedCert>, more: seq<PreparedCert>)
    requires IndexOf(certs).None?
    ensures IndexOf(certs + more).None?
  {
    if more == [] {
      assert certs + more == certs;
    } else {
      ConflictStays(certs, more[..|more| - 1]);
      assert (certs + more)[..|certs + more| - 1] == certs + more[..|more| - 1];
    }
  }

  /** An index exists exactly when no two certificates conflict, and then it is right. */
  lemma {:induction false} IndexOfExactly(certs: seq<PreparedCert>)
    ensures IndexOf(certs).Some? <==> Consistent(certs)
    ensures IndexOf(certs).Some? ==> Indexes(IndexOf(certs).value, certs)
  {
    if certs == [] {
    } else {
      var init, c := certs[..|certs| - 1], certs[|certs| - 1];
      assert certs == init + [c];
      IndexOfExactly(init);
      if Consistent(init) {
        IndexesNext(IndexOf(init).value, init, c);
      }
    }
  }

  lemma IndexesNext(prepared: map<nat, Bytes>, certs: seq<PreparedCert>, c: PreparedCert)
    requires Indexes(prepared, certs) && Consistent(certs)
    ensures var pp := c.prePrepare;
            if pp.seqNum in prepared && prepared[pp.seqNum] != pp.digest then !Consistent(certs + [c])
            else Consistent(certs + [c]) && Indexes(prepared[pp.seqNum := pp.digest], certs + [c])
  {
    var pp := c.prePrepare;
    assert c in certs + [c];
    if pp.seqNum in prepared && prepared[pp.seqNum] != pp.digest {
      var d :| d in certs && d.prePrepare.seqNum == pp.seqNum && d.prePrepare.digest == prepared[pp.seqNum];
      assert d in certs + [c];
    } else {
      var next := prepared[pp.seqNum := pp.digest];
      forall s <- next ensures Certifies(certs + [c], s, next[s]) {
        if s in prepared {
          var d :| d in certs && d.prePrepare.seqNum == s && d.prePrepare.digest == prepared[s];
          assert d in certs + [c];
        }
      }
    }
  }

  lemma IndexedIsConsistent(prepared: map<nat, Bytes>, certs: seq<PreparedCert>)
    requires Indexes(prepared, certs)
    ensures Consistent(certs)
  {
  }

  lemma {:induction false} CertsPrefix(votes: seq<ViewChangeMsg>, i: nat)
    requires i <= |votes|
    ensures Certs(votes[..i]) <= Certs(votes)
    decreases |votes| - i
  {
    if i == |votes| {
      assert votes[..i] == votes;
    } else {
      CertsPrefix(votes, i + 1);
      CertsNext(votes, i);
    }
  }

  lemma CertsNext(votes: seq<ViewChangeMsg>, i: nat)
    requires i < |votes|
    ensures Certs(votes[..i + 1]) == Certs(votes[..i]) + votes[i].preparedSet
  {
    assert votes[..i + 1][..i] == votes[..i];
  }

  lemma ConflictSpoils(certs: seq<PreparedCert>, all: seq<PreparedCert>)
    requires IndexOf(certs).None? && certs <= all
    ensures !Consistent(all)
  {
    ConflictStays(certs, all[|certs|..]);
    assert certs + all[|certs|..] == all;
    IndexOfExactly(all);
  }

  /** Second loop of verifyNewViewMsg: index the certificates, or stop at the first conflict. */
  method CollectDigests(votes: seq<ViewChangeMsg>)
    returns (consistent: bool, prepared: map<nat, Bytes>, maxPrepared: nat)
    ensures consistent == Consistent(Certs(votes))
    ensures consistent ==> Indexes(prepared, Certs(votes)) && maxPrepared == MaxPrepared(Certs(votes))
  {
    consistent, prepared, maxPrepared := true, map[], 0;
    for i := 0 to |votes|
      invariant consistent
      invariant IndexOf(Certs(votes[..i])) == Some(prepared) && maxPrepared == MaxPrepared(Certs(votes[..i]))
    {
      CertsNext(votes, i);
      consistent, prepared, maxPrepared :=
        IndexCerts(votes[i].preparedSet, prepared, maxPrepared, Certs(votes[..i]));
      if !consistent {
        CertsPrefix(votes, i + 1);
        ConflictSpoils(Certs(votes[..i + 1]), Certs(votes));
        return;
      }
    }
    assert votes[..|votes|] == votes;
    IndexOfExactly(Certs(votes));
  }

  /** The loop over the certificates of one vote; `seen` are those met before. */
  method IndexCerts(certs: seq<PreparedCert>, before: map<nat, Bytes>, maxBefore: nat, ghost seen: seq<PreparedCert>)
    returns (consistent: bool, prepared: map<nat, Bytes>, maxPrepared: nat)
    requires IndexOf(seen) == Some(before) && maxBefore == MaxPrepared(seen)
    ensures IndexOf(seen + certs) == if consistent then Some(prepared) else None
    ensures consistent ==> maxPrepared == MaxPrepared(seen + certs)
  {
    consistent, prepared, maxPrepared := true, before, maxBefore;
    assert seen + certs[..0] == seen;
    for j := 0 to |certs|
      invariant consistent
      invariant IndexOf(seen + certs[..j]) == Some(prepared) && maxPrepared == MaxPrepared(seen + certs[..j])
    {
      ghost var met := seen + certs[..j];
      assert seen + certs[..j + 1] == met + [certs[j]];
      IndexOfNext(met, certs[j]);
      MaxPreparedNext(met, certs[j]);
      var seqNum, digest := certs[j].prePrepare.seqNum, certs[j].prePrepare.digest;
      if seqNum > maxPrepared {
        maxPrepared := seqNum;
      }
      if seqNum in prepared {
        if prepared[seqNum] != digest {
          ConflictStays(met + [certs[j]], certs[j + 1..]);
          assert met + [certs[j]] + certs[j + 1..] == seen + certs;
          consistent := false;
          return;
        }
        assert prepared == prepared[seqNum := digest];
      } else {
        prepared := prepared[seqNum := digest];
      }
    }
    assert certs[..|certs|] == certs;
  }

  /** Third loop of verifyNewViewMsg: re-proposals are above the checkpoint and match what was prepared. */
  method MatchesPrepared(prepared: map<nat, Bytes>, low: nat, prePrepares: seq<PrePrepareMsg>)
    returns (matches: bool)
    ensures matches <==> forall pp <- prePrepares ::
      pp.seqNum > low && (pp.seqNum in prepared ==> prepared[pp.seqNum] == pp.digest)
  {
    for k := 0 to |prePrepares|
      invariant forall pp <- prePrepares[..k] ::
        pp.seqNum > low && (pp.seqNum in prepared ==> prepared[pp.seqNum] == pp.digest)
    {
      var pp := prePrepares[k];
      assert pp in prePrepares;
      if pp.seqNum <= low {
        return false;
      }
      if pp.seqNum in prepared && prepared[pp.seqNum] != pp.digest {
        return false;
      }
    }
    return true;
  }

  /** Fourth loop of verifyNewViewMsg: every certified number above the checkpoint is re-proposed. */
  method CoversPrepared(prepared: map<nat, Bytes>, low: nat, high: nat, prePrepares: seq<PrePrepareMsg>)
    returns (covered: bool)
    ensures covered <==> forall s <- prepared :: low < s <= high ==> Proposes(prePrepares, s)
  {
    var seqNum := low + 1;
    while seqNum <= high
      invariant low < seqNum
      invariant forall s <- prepared :: low < s < seqNum ==> Proposes(prePrepares, s)
    {
      if seqNum in prepared {
        var found := false;
        for k := 0 to |prePrepares|
          invariant !found
          invariant forall x | 0 <= x < k :: prePrepares[x].seqNum != seqNum
        {
          if prePrepares[k].seqNum == seqNum {
            found := true;
            break;
          }
        }
        if !found {
          return false;
        }
      }
      seqNum := seqNum + 1;
    }
    return true;
  }

  /** The indexed form of the checks is the rule. */
  lemma IndexedChecksDecide(msg: NewViewMsg, quorum: nat, prepared: map<nat, Bytes>)
    requires |msg.votes| >= quorum && forall v <- msg.votes :: v.newView == msg.view
    requires Indexes(prepared, Certs(msg.votes))
    ensures Acceptable(msg, quorum) <==>
      var low, high := MaxCheckpoint(Checkpoints(msg.votes)), MaxPrepared(Certs(msg.votes));
      && (forall pp <- msg.prePrepares ::
            pp.seqNum > low && (pp.seqNum in prepared ==> prepared[pp.seqNum] == pp.digest))
      && (forall s <- prepared :: low < s <= high ==> Proposes(msg.prePrepares, s))
  {
    var certs := Certs(msg.votes);
    MaxPreparedIsMax(certs);
    IndexedIsConsistent(prepared, certs);
    forall s <- prepared ensures exists c <- certs :: c.prePrepare.seqNum == s && c.prePrepare.digest == prepared[s] {
      assert Certifies(certs, s, prepared[s]);
    }
  }

  class ViewChangeManager {
    var currentView: nat
    var viewChangeMsgs: map<nat, map<NodeId, ViewChangeMsg>>
    var newViewMsgs: map<nat, NewViewMsg>
    var inProgress: bool
    const quorumSize: nat
    const nodeId: NodeId

    ghost function Model(): Manager
      reads this
    {
      Manager(currentView, viewChangeMsgs, newViewMsgs, inProgress, quorumSize, nodeId)
    }

    ghost predicate Valid()
      reads this
    {
      Model().VotesFiled()
    }

    constructor (nodeId: NodeId, quorumSize: nat)
      ensures Valid() && Model() == NewManager(nodeId, quorumSize)
    {
      currentView, viewChangeMsgs, newViewMsgs, inProgress := 0, map[], map[], false;
      this.quorumSize, this.nodeId := quorumSize, nodeId;
    }

    /** `sent` is what broadcastFunc is called with. */
    method StartViewChange(newView: nat, lastSeqNum: nat, checkpoints: seq<Checkpoint>,
                           preparedSet: seq<PreparedCert>) returns (sent: seq<Message>)
      requires Valid()
      modifies this
      ensures Valid()
      ensures newView <= old(currentView) ==> Model() == old(Model()) && sent == []
      ensures newView > old(currentView) ==>
        var vote := ViewChangeMsg(newView, lastSeqNum, checkpoints, preparedSet, nodeId);
        && Model() == old(Model()).(inProgress := true).Record(vote)
        && sent == [ViewChangeNet(newView, lastSeqNum, nodeId, vote)]
    {
      if newView <= currentView {
        return [];
      }
      inProgress := true;
      var vote := ViewChangeMsg(newView, lastSeqNum, checkpoints, preparedSet, nodeId);
      if newView !in viewChangeMsgs {
        viewChangeMsgs := viewChangeMsgs[newView := map[]];
      }
      viewChangeMsgs := viewChangeMsgs[newView := viewChangeMsgs[newView][nodeId := vote]];
      sent := [ViewChangeNet(newView, lastSeqNum, nodeId, vote)];
    }

    method HandleViewChange(msg: ViewChangeMsg) returns (hasQuorum: bool)
      requires Valid()
      modifies this
      ensures Valid()
      ensures Model() == old(Model()).Record(msg)
      ensures hasQuorum <==> |Model().Table(msg.newView)| >= quorumSize
    {
      if msg.newView !in viewChangeMsgs {
        viewChangeMsgs := viewChangeMsgs[msg.newView := map[]];
      }
      viewChangeMsgs := viewChangeMsgs[msg.newView := viewChangeMsgs[msg.newView][msg.nodeId := msg]];
      hasQuorum := |viewChangeMsgs[msg.newView]| >= quorumSize;
    }

    /** The map may be iterated in any order, and any order may be the one in the message. */
    method CreateNewViewMsg(newView: nat) returns (msg: Option<NewViewMsg>)
      requires Valid()
      ensures msg.None? <==> |Model().Table(newView)| < quorumSize
      ensures msg.Some? ==>
        && Lists(msg.value.votes, Model().Table(newView))
        && msg.value == BuildNewView(newView, msg.value.votes, nodeId)
    {
      var table := if newView in viewChangeMsgs then viewChangeMsgs[newView] else map[];
      if |table| < quorumSize {
        return None;
      }
      var votes: seq<ViewChangeMsg> := [];
      var pending := table.Keys;
      while pending != {}
        invariant pending <= table.Keys
        invariant |votes| + |pending| == |table|
        invariant forall i, j | 0 <= i < j < |votes| :: votes[i].nodeId != votes[j].nodeId
        invariant forall v <- votes :: v.nodeId in table.Keys - pending && table[v.nodeId] == v
      {
        var id :| id in pending;
        votes := votes + [table[id]];
        pending := pending - {id};
      }
      var prePrepares := ComputePrePrepareSet(votes);
      msg := Some(NewViewMsg(newView, votes, prePrepares, nodeId));
    }

    method ComputePrePrepareSet(votes: seq<ViewChangeMsg>) returns (prePrepares: seq<PrePrepareMsg>)
      ensures prePrepares == PrePrepareSet(votes)
    {
      var maxCheckpoint := FindMaxCheckpoint(votes);
      var maxPrepared, blocks := CollectFirst(votes);
      prePrepares := [];
      var seqNum := maxCheckpoint + 1;
      while seqNum <= maxPrepared
        invariant maxCheckpoint < seqNum
        invariant seqNum <= maxPrepared + 1 || seqNum == maxCheckpoint + 1
        invariant prePrepares == RePropose(Certs(votes), maxCheckpoint, seqNum - 1)
      {
        if seqNum in blocks {
          prePrepares := prePrepares + [blocks[seqNum]];
        }
        seqNum := seqNum + 1;
      }
    }

    /** Second loop of computePrePrepareSet: the first certificate for a number wins. */
    method CollectFirst(votes: seq<ViewChangeMsg>)
      returns (maxPrepared: nat, blocks: map<nat, PrePrepareMsg>)
      ensures maxPrepared == MaxPrepared(Certs(votes))
      ensures forall s :: FirstCertified(Certs(votes), s) == if s in blocks then Some(blocks[s]) else None
    {
      maxPrepared, blocks := 0, map[];
      for i := 0 to |votes|
        invariant maxPrepared == MaxPrepared(Certs(votes[..i])) && blocks == FirstIndex(Certs(votes[..i]))
      {
        CertsNext(votes, i);
        maxPrepared, blocks := CollectFirstOf(votes[i].preparedSet, maxPrepared, blocks, Certs(votes[..i]));
      }
      assert votes[..|votes|] == votes;
      forall s: nat {
        FirstIndexExactly(Certs(votes), s);
      }
    }

    /** The loop over the certificates of one vote; `seen` are those met before. */
    method CollectFirstOf(certs: seq<PreparedCert>, maxBefore: nat, before: map<nat, PrePrepareMsg>,
                          ghost seen: seq<PreparedCert>)
      returns (maxPrepared: nat, blocks: map<nat, PrePrepareMsg>)
      requires maxBefore == MaxPrepared(seen) && before == FirstIndex(seen)
      ensures maxPrepared == MaxPrepared(seen + certs) && blocks == FirstIndex(seen + certs)
    {
      maxPrepared, blocks := maxBefore, before;
      assert seen + certs[..0] == seen;
      for j := 0 to |certs|
        invariant maxPrepared == MaxPrepared(seen + certs[..j]) && blocks == FirstIndex(seen + certs[..j])
      {
        ghost var met := seen + certs[..j];
        assert seen + certs[..j + 1] == met + [certs[j]];
        MaxPreparedNext(met, certs[j]);
        FirstIndexNext(met, certs[j]);
        var pp := certs[j].prePrepare;
        if pp.seqNum > maxPrepared {
          maxPrepared := pp.seqNum;
        }
        if pp.seqNum !in blocks {
          blocks := blocks[pp.seqNum := pp];
        }
      }
      assert certs[..|certs|] == certs;
    }

    /** On success the caller's onViewChangeComplete runs; EngineV2 does that part. */
    method HandleNewView(msg: NewViewMsg) returns (accepted: bool)
      requires Valid()
      modifies this
      ensures Valid()
      ensures accepted == Acceptable(msg, quorumSize)
      ensures Model() == if accepted then old(Model()).Adopt(msg) else old(Model())
    {
      var ok := VerifyNewViewMsg(msg);
      if !ok {
        return false;
      }
      newViewMsgs := newViewMsgs[msg.view := msg];
      currentView := msg.view;
      inProgress := false;
      ghost var was := viewChangeMsgs;
      var pending := viewChangeMsgs.Keys;
      while pending != {}
        modifies `viewChangeMsgs
        invariant pending <= was.Keys
        invariant viewChangeMsgs == map v | v in was && (v > msg.view || v in pending) :: was[v]
      {
        var v :| v in pending;
        if v <= msg.view {
          viewChangeMsgs := viewChangeMsgs - {v};
        }
        pending := pending - {v};
      }
      return true;
    }

    /** The four checks of verifyNewViewMsg decide the rule `Acceptable` in both directions. */
    method VerifyNewViewMsg(msg: NewViewMsg) returns (ok: bool)
      ensures ok <==> Acceptable(msg, quorumSize)
    {
      if |msg.votes| < quorumSize {
        return false;
      }
      for i := 0 to |msg.votes|
        invariant forall k | 0 <= k < i :: msg.votes[k].newView == msg.view
      {
        if msg.votes[i].newView != msg.view {
          return false;
        }
      }
      var maxCheckpoint := FindMaxCheckpoint(msg.votes);
      var consistent, prepared, maxPrepared := CollectDigests(msg.votes);
      if !consistent {
        return false;
      }
      IndexedChecksDecide(msg, quorumSize, prepared);
      ok := MatchesPrepared(prepared, maxCheckpoint, msg.prePrepares);
      if ok {
        ok := CoversPrepared(prepared, maxCheckpoint, maxPrepared, msg.prePrepares);
      }
    }
  }
}
