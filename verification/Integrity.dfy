/** No block is invented: in every run of the network, through every view, what is executed was proposed. */
module Integrity {
  import opened Types
  import opened Messages
  import opened StateLogs
  import opened ViewChangeRules
  import opened EngineRules
  import opened NodeRuns
  import opened TurnLaws
  import opened Provenance
  import opened Network
  import opened Preservation

  /** Some PRE-PREPARE that was broadcast gives this block to this number. */
  ghost predicate Offered(net: set<Message>, s: nat, b: Block) {
    exists m <- net :: m.PrePrepareNet? && m.seqNum == s && m.prePrepare.block == Some(b)
  }

  ghost predicate VoteOffered(net: set<Message>, vote: ViewChangeMsg) {
    forall c <- vote.preparedSet ::
      c.prePrepare.block.Some? ==> Offered(net, c.prePrepare.seqNum, c.prePrepare.block.value)
  }

  ghost predicate LogOffered(net: set<Message>, log: Log) {
    && Keyed(log)
    && forall s: nat, b: Block | Holds(log, s, b) :: Offered(net, s, b)
  }

  ghost predicate NodeOffered(net: set<Message>, n: Node) {
    LogOffered(net, n.engine.log) && forall x <- n.history :: Offered(net, x.seqNum, x.block)
  }

  ghost predicate IntegrityInv(s: System) {
    && (forall m <- s.net :: m.ViewChangeNet? ==> VoteOffered(s.net, m.viewChange))
    && (forall id <- s.nodes :: NodeOffered(s.net, s.nodes[id]))
  }

  lemma NodeOfferedGrows(net: set<Message>, net': set<Message>, n: Node)
    requires NodeOffered(net, n) && net <= net'
    ensures NodeOffered(net', n)
  {
    assert forall s: nat, b: Block | Offered(net, s, b) :: Offered(net', s, b);
  }

  lemma VoteOfferedGrows(net: set<Message>, net': set<Message>, vote: ViewChangeMsg)
    requires VoteOffered(net, vote) && net <= net'
    ensures VoteOffered(net', vote)
  {
    assert forall s: nat, b: Block | Offered(net, s, b) :: Offered(net', s, b);
  }

  // ----- One turn -----

  /** A NEW-VIEW built from votes that report only proposed blocks re-proposes only such blocks. */
  lemma BuiltIsOffered(cfg: Config, net: set<Message>, msg: NewViewMsg, pp: PrePrepareMsg)
    requires Built(cfg, net, msg) && pp in msg.prePrepares && pp.block.Some?
    requires forall m <- net :: m.ViewChangeNet? ==> VoteOffered(net, m.viewChange)
    ensures Offered(net, pp.seqNum, pp.block.value)
  {
    BuiltExactly(msg.votes);
    CertsMembers(msg.votes);
    var k: nat :| FirstAt(Certs(msg.votes), k, pp);
    var c := Certs(msg.votes)[k];
    assert c in Certs(msg.votes);
    var v :| v in msg.votes && c in v.preparedSet;
    assert Wrap(v) in net;
  }

  lemma TurnOffers(cfg: Config, net: set<Message>, e: Engine, t: Turn, s: nat, b: Block)
    requires cfg.Valid() && LogOffered(net, e.log) && Next(cfg, e, t.ev, t.out) && VotesGenuine(cfg, net)
    requires forall m <- net :: m.ViewChangeNet? ==> VoteOffered(net, m.viewChange)
    requires t.ev.Deliver? ==> t.ev.msg in net
    requires Holds(t.out.engine.log, s, b)
    ensures Offered(net + Sent(t), s, b)
  {
    TurnBrings(cfg, e, t, s, b);
    if Holds(e.log, s, b) {
      assert Offered(net, s, b);
    } else if ProposedIt(cfg, e, t, s, b) {
      assert t.out.sent[0] in net + Sent(t);
    } else if AdoptedIt(e, t, s, b) {
      var pp :| pp in t.ev.msg.newView.prePrepares && pp.seqNum == s && pp.block == Some(b);
      BuiltIsOffered(cfg, net, t.ev.msg.newView, pp);
      assert Offered(net, s, b);
    }
  }

  lemma NodeStaysOffered(cfg: Config, net: set<Message>, n: Node, t: Turn, n': Node)
    requires cfg.Valid() && NodeOffered(net, n) && TakesTurn(cfg, n, t, n') && VotesGenuine(cfg, net)
    requires forall m <- net :: m.ViewChangeNet? ==> VoteOffered(net, m.viewChange)
    requires t.ev.Deliver? ==> t.ev.msg in net
    ensures NodeOffered(net + Sent(t), n')
  {
    var net' := net + Sent(t);
    NodeOfferedGrows(net, net', n);
    TurnKeepsKeyed(cfg, n.engine, t.ev, t.out);
    forall s: nat, b: Block | Holds(n'.engine.log, s, b) ensures Offered(net', s, b) {
      TurnOffers(cfg, net, n.engine, t, s, b);
    }
    if t.out.executed != [] {
      ExecutingTurn(cfg, n, t);
    }
  }

  /** The certificates of a new vote show the blocks of the sender's own log. */
  lemma SentVoteOffered(cfg: Config, net: set<Message>, e: Engine, t: Turn, m: Message)
    requires cfg.Valid() && LogOffered(net, e.log) && Next(cfg, e, t.ev, t.out)
    requires m in t.out.sent && m.ViewChangeNet?
    ensures VoteOffered(net, m.viewChange)
  {
    VotesFromTimeouts(cfg, e, t, m);
    TimeoutTurn(cfg, e, t.ev, t.out);
    var vote := m.viewChange;
    VoteContents(cfg, e, t.ev, t.out, vote);
    forall c <- vote.preparedSet | c.prePrepare.block.Some?
      ensures Offered(net, c.prePrepare.seqNum, c.prePrepare.block.value)
    {
      assert CertifiesState(e.view, e.log.states[c.prePrepare.seqNum], c);
      assert Holds(e.log, c.prePrepare.seqNum, c.prePrepare.block.value);
    }
  }

  lemma VotesFromTimeouts(cfg: Config, e: Engine, t: Turn, m: Message)
    requires cfg.Valid() && Next(cfg, e, t.ev, t.out) && m in t.out.sent && m.ViewChangeNet?
    ensures t.ev.Timeout?
  {
  }

  lemma StepKeepsIntegrity(cfg: Config, s: System, a: Act, s': System)
    requires cfg.Valid() && VoteInv(cfg, s) && IntegrityInv(s) && Step(cfg, s, a, s')
    ensures IntegrityInv(s')
  {
    NodeStaysOffered(For(cfg, a.id), s.net, s.nodes[a.id], a.turn, s'.nodes[a.id]);
    forall id <- s'.nodes ensures NodeOffered(s'.net, s'.nodes[id]) {
      if id != a.id {
        NodeOfferedGrows(s.net, s'.net, s.nodes[id]);
      }
    }
    forall m <- s'.net | m.ViewChangeNet? ensures VoteOffered(s'.net, m.viewChange) {
      if m !in s.net {
        SentVoteOffered(For(cfg, a.id), s.net, s.nodes[a.id].engine, a.turn, m);
      }
      VoteOfferedGrows(s.net, s'.net, m.viewChange);
    }
  }

  lemma {:induction false} IntegrityInvHolds(cfg: Config, states: seq<System>, acts: seq<Act>, i: nat)
    requires cfg.Valid() && IsSystemRun(cfg, states, acts) && i < |states|
    ensures IntegrityInv(states[i])
  {
    if i > 0 {
      IntegrityInvHolds(cfg, states, acts, i - 1);
      VoteInvHolds(cfg, states, acts, i - 1);
      RunKeepsIntegrity(cfg, states, acts, i - 1);
    } else {
      StartsWithIntegrity(cfg, states, acts);
    }
  }

  lemma StartsWithIntegrity(cfg: Config, states: seq<System>, acts: seq<Act>)
    requires cfg.Valid() && IsSystemRun(cfg, states, acts)
    ensures IntegrityInv(states[0])
  {
  }

  lemma RunKeepsIntegrity(cfg: Config, states: seq<System>, acts: seq<Act>, i: nat)
    requires cfg.Valid() && IsSystemRun(cfg, states, acts) && i < |acts|
    requires VoteInv(cfg, states[i]) && IntegrityInv(states[i])
    ensures IntegrityInv(states[i + 1])
  {
    StepKeepsIntegrity(cfg, states[i], acts[i], states[i + 1]);
  }

  // ----- Who proposed what -----

  /** The act at `j` is the proposal of this block by its proposer, then the primary of its view. */
  ghost predicate ProposedBy(cfg: Config, s: System, a: Act, seqNum: nat, b: Block)
    requires cfg.Valid()
  {
    && a.id in s.nodes && a.id == b.proposer
    && ProposedIt(For(cfg, a.id), s.nodes[a.id].engine, a.turn, seqNum, b)
  }

  ghost predicate WasProposed(cfg: Config, states: seq<System>, acts: seq<Act>, i: nat, seqNum: nat, b: Block)
    requires cfg.Valid() && |states| == |acts| + 1 && i <= |acts|
  {
    exists j {:trigger acts[j]} | 0 <= j < i :: ProposedBy(cfg, states[j], acts[j], seqNum, b)
  }

  lemma SentIsProposed(cfg: Config, s: System, a: Act, s': System, m: Message)
    requires cfg.Valid() && IntegrityInv(s) && Step(cfg, s, a, s') && m in a.turn.out.sent && m.PrePrepareNet?
    ensures m.prePrepare.block.Some? && ProposedBy(cfg, s, a, m.seqNum, m.prePrepare.block.value)
  {
    assert NodeOffered(s.net, s.nodes[a.id]);
    var me, e := For(cfg, a.id), s.nodes[a.id].engine;
    ProposalsFromRequests(me, e, a.turn, m);
    ProposalIsOwn(me, e, a.turn);
  }

  lemma ProposalsFromRequests(cfg: Config, e: Engine, t: Turn, m: Message)
    requires cfg.Valid() && Next(cfg, e, t.ev, t.out) && m in t.out.sent && m.PrePrepareNet?
    ensures t.ev.Request?
  {
  }

  lemma {:induction false} OfferedWasProposed(cfg: Config, states: seq<System>, acts: seq<Act>, i: nat, m: Message)
    requires cfg.Valid() && IsSystemRun(cfg, states, acts) && i < |states| && m in states[i].net && m.PrePrepareNet?
    ensures m.prePrepare.block.Some? && WasProposed(cfg, states, acts, i, m.seqNum, m.prePrepare.block.value)
  {
    if i > 0 {
      assert Step(cfg, states[i - 1], acts[i - 1], states[i]);
      if m in states[i - 1].net {
        OfferedWasProposed(cfg, states, acts, i - 1, m);
      } else {
        IntegrityInvHolds(cfg, states, acts, i - 1);
        SentIsProposed(cfg, states[i - 1], acts[i - 1], states[i], m);
      }
    }
  }

  /** Integrity, in every run and every view: whatever block a node executed, its proposer, then the primary of the view
      the block names, had built it of exactly what PrepareProposal answered, for that very number. */
  lemma ExecutedWasProposed(cfg: Config, states: seq<System>, acts: seq<Act>, i: nat, id: NodeId, x: Execution)
    requires cfg.Valid() && IsSystemRun(cfg, states, acts) && i < |states|
    requires id in states[i].nodes && x in states[i].nodes[id].history
    ensures WasProposed(cfg, states, acts, i, x.seqNum, x.block)
  {
    IntegrityInvHolds(cfg, states, acts, i);
    assert NodeOffered(states[i].net, states[i].nodes[id]);
    var m :| m in states[i].net && m.PrePrepareNet? && m.seqNum == x.seqNum && m.prePrepare.block == Some(x.block);
    OfferedWasProposed(cfg, states, acts, i, m);
  }

  lemma {:induction false} View0Throughout(cfg: Config, states: seq<System>, acts: seq<Act>, i: nat, j: nat)
    requires cfg.Valid() && IsSystemRun(cfg, states, acts) && j <= i < |states| && AllInView0(states[i])
    ensures AllInView0(states[j])
  {
    if j < i {
      RunView0Before(cfg, states, acts, i - 1);
      View0Throughout(cfg, states, acts, i - 1, j);
    }
  }

  /** While the initial view is in force, all nodes execute under a number what PrepareProposal answered in one turn of
      the primary. */
  lemma AgreedAsArranged(cfg: Config, states: seq<System>, acts: seq<Act>, i: nat, id: NodeId, x: Execution)
    returns (j: nat)
    requires ValidConfig(cfg) && IsSystemRun(cfg, states, acts) && i < |states| && AllInView0(states[i])
    requires id in states[i].nodes && x in states[i].nodes[id].history
    ensures j < i && acts[j].id == cfg.Primary(0)
    ensures ProposedBy(cfg, states[j], acts[j], x.seqNum, x.block)
    ensures forall p <- states[i].nodes, y <- states[i].nodes[p].history :: y.seqNum == x.seqNum ==> y.block == x.block
  {
    Agreement(cfg, states, acts, i);
    ExecutedWasProposed(cfg, states, acts, i, id, x);
    j :| 0 <= j < i && ProposedBy(cfg, states[j], acts[j], x.seqNum, x.block);
    View0Throughout(cfg, states, acts, i, j);
  }

  // ----- In whose name, and in which view -----

  ghost predicate OfNormalCase(m: Message) {
    m.PrePrepareNet? || m.PrepareNet? || m.CommitNet?
  }

  /** Whatever proposal or vote a turn broadcasts names the view its sender is in after the turn, and the sender. */
  lemma BroadcastInOwnView(cfg: Config, states: seq<System>, acts: seq<Act>, i: nat, m: Message)
    requires cfg.Valid() && IsSystemRun(cfg, states, acts) && i < |acts|
    requires m in acts[i].turn.out.sent && OfNormalCase(m)
    ensures m.nodeId == acts[i].id && m.nodeId in states[i + 1].nodes
    ensures m.view == states[i + 1].nodes[m.nodeId].engine.view
  {
    StepSends(cfg, states[i], acts[i], states[i + 1], m);
  }

  lemma StepSends(cfg: Config, s: System, a: Act, s': System, m: Message)
    requires cfg.Valid() && Step(cfg, s, a, s') && m in a.turn.out.sent && OfNormalCase(m)
    ensures m.nodeId == a.id && m.nodeId in s'.nodes && m.view == s'.nodes[m.nodeId].engine.view
  {
    SentInOwnView(For(cfg, a.id), s.nodes[a.id].engine, a.turn.ev, a.turn.out);
  }

  /** Every proposal and vote in the network is for a view its sender has reached. */
  ghost predicate NoneAhead(s: System) {
    forall m <- s.net :: OfNormalCase(m) ==> m.nodeId in s.nodes && m.view <= s.nodes[m.nodeId].engine.view
  }

  lemma StepKeepsNoneAhead(cfg: Config, s: System, a: Act, s': System)
    requires cfg.Valid() && Step(cfg, s, a, s') && NoneAhead(s)
    ensures NoneAhead(s')
  {
    ViewNeverDrops(For(cfg, a.id), s.nodes[a.id].engine, a.turn.ev, a.turn.out);
    forall m <- s'.net | OfNormalCase(m)
      ensures m.nodeId in s'.nodes && m.view <= s'.nodes[m.nodeId].engine.view
    {
      if m !in s.net {
        StepSends(cfg, s, a, s', m);
      }
    }
  }

  lemma RunKeepsNoneAhead(cfg: Config, states: seq<System>, acts: seq<Act>, i: nat)
    requires cfg.Valid() && IsSystemRun(cfg, states, acts) && i < |acts| && NoneAhead(states[i])
    ensures NoneAhead(states[i + 1])
  {
    StepKeepsNoneAhead(cfg, states[i], acts[i], states[i + 1]);
  }

  /** No proposal or vote was ever broadcast for a view its sender had not reached. */
  lemma {:induction false} NoneAheadHolds(cfg: Config, states: seq<System>, acts: seq<Act>, i: nat)
    requires cfg.Valid() && IsSystemRun(cfg, states, acts) && i < |states|
    ensures NoneAhead(states[i])
  {
    if i > 0 {
      NoneAheadHolds(cfg, states, acts, i - 1);
      RunKeepsNoneAhead(cfg, states, acts, i - 1);
    }
  }

  /** A proposal or vote of another view than the receiver's changes nothing in the receiver, and nothing is sent. */
  lemma LateVotesIgnored(cfg: Config, states: seq<System>, acts: seq<Act>, i: nat)
    requires cfg.Valid() && IsSystemRun(cfg, states, acts) && i < |acts|
    requires acts[i].turn.ev.Deliver? && OfNormalCase(acts[i].turn.ev.msg)
    requires acts[i].id in states[i].nodes
    requires acts[i].turn.ev.msg.view != states[i].nodes[acts[i].id].engine.view
    ensures states[i + 1] == states[i]
  {
    var a, s, s' := acts[i], states[i], states[i + 1];
    assert Step(cfg, s, a, s');
    OtherViewsIgnored(For(cfg, a.id), s.nodes[a.id].engine, a.turn.ev, a.turn.out);
    assert s.nodes[a.id].history + [] == s.nodes[a.id].history;
    assert s'.nodes == s.nodes && Sent(a.turn) == {};
  }
}
