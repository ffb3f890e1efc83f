/** How a node comes to a later view, and what its log then holds of the NEW-VIEW for it. */
module Adoption {
  import opened Types
  import opened Messages
  import opened StateLogs
  import opened EngineRules
  import opened NodeRuns
  import opened Network
  import opened Preservation

  /** No recorded pre-prepare names a later view than the node's own. */
  ghost predicate Dated(e: Engine) {
    forall s <- e.log.states :: e.log.states[s].prePrepare.Some? ==> e.log.states[s].prePrepare.value.view <= e.view
  }

  ghost predicate ProposalDated(m: Message) {
    m.PrePrepareNet? ==> m.prePrepare.view == m.view
  }

  ghost predicate DatedInv(s: System) {
    && (forall m <- s.net :: ProposalDated(m))
    && (forall id <- s.nodes :: Dated(s.nodes[id].engine) && Keyed(s.nodes[id].engine.log))
  }

  /** A state that enters the log keeps it dated. */
  lemma PutDated(e: Engine, e': Engine, st: SeqState)
    requires Dated(e) && e'.view >= e.view && e'.log.states == e.log.states[st.seqNum := st]
    requires st.prePrepare.Some? ==> st.prePrepare.value.view <= e.view
    ensures Dated(e')
  {
  }

  lemma RequestDated(cfg: Config, e: Engine, op: Option<Bytes>, reaped: Option<seq<Bytes>>,
                     arrange: Arrange)
    requires Dated(e) && Keyed(e.log)
    ensures var out := ProposeBlock(cfg, e, op, reaped, arrange);
            Dated(out.engine) && forall m <- out.sent :: ProposalDated(m)
  {
  }

  lemma PrePrepareDated(cfg: Config, e: Engine, msg: Message, verdict: Verdict)
    requires cfg.Valid() && Dated(e) && Keyed(e.log) && msg.PrePrepareNet? && ProposalDated(msg)
    ensures Dated(HandlePrePrepare(cfg, e, msg, verdict).engine)
  {
  }

  lemma PrepareDated(cfg: Config, e: Engine, msg: Message)
    requires Dated(e) && Keyed(e.log) && msg.PrepareNet?
    ensures Dated(HandlePrepare(cfg, e, msg).engine)
  {
    if msg.view == e.view && msg.seqNum in e.log.states {
      var out := HandlePrepare(cfg, e, msg);
      PutDated(e, out.engine, out.engine.log.states[msg.seqNum]);
    }
  }

  lemma CommitDated(cfg: Config, e: Engine, msg: Message, reply: Reply)
    requires cfg.Valid() && Dated(e) && Keyed(e.log) && msg.CommitNet?
    ensures Dated(HandleCommit(cfg, e, msg, reply).engine)
  {
  }

  lemma NewViewDated(cfg: Config, e: Engine, msg: Message)
    requires cfg.Valid() && Dated(e) && Keyed(e.log) && msg.NewViewNet?
    ensures Dated(HandleNewView(cfg, e, msg).engine)
  {
    var nv, out := msg.newView, HandleNewView(cfg, e, msg);
    forall s <- out.engine.log.states | out.engine.log.states[s].prePrepare.Some?
      ensures out.engine.log.states[s].prePrepare.value.view <= out.engine.view
    {
      ReprocessAt(e.log, nv.prePrepares, nv.view, s);
    }
  }

  lemma VoteDated(cfg: Config, e: Engine, ev: Event, out: Outcome)
    requires cfg.Valid() && Dated(e) && Next(cfg, e, ev, out)
    requires ev.Timeout? || (ev.Deliver? && ev.msg.ViewChangeNet?)
    ensures out.engine.log == e.log && Dated(out.engine)
    ensures out.engine.view >= e.view && (ev.Timeout? ==> out.engine.view == e.view)
    ensures forall m <- out.sent :: !m.PrePrepareNet?
  {
  }

  lemma TurnDated(cfg: Config, e: Engine, ev: Event, out: Outcome)
    requires cfg.Valid() && Dated(e) && Keyed(e.log) && Next(cfg, e, ev, out)
    requires ev.Deliver? ==> ProposalDated(ev.msg)
    ensures Dated(out.engine)
    ensures forall m <- out.sent :: ProposalDated(m)
  {
    match ev
    case Request(op, reaped, arrange) => RequestDated(cfg, e, op, reaped, arrange);
    case Timeout => VoteDated(cfg, e, ev, out);
    case Deliver(msg, verdict, reply) =>
      match msg
      case PrePrepareNet(_, _, _, _, _) => PrePrepareDated(cfg, e, msg, verdict);
      case PrepareNet(_, _, _, _, _) => PrepareDated(cfg, e, msg);
      case CommitNet(_, _, _, _, _) => CommitDated(cfg, e, msg, reply);
      case ViewChangeNet(_, _, _, _) => VoteDated(cfg, e, ev, out);
      case NewViewNet(_, _, _, _) => NewViewDated(cfg, e, msg);
  }

  lemma {:induction false} DatedInvHolds(cfg: Config, states: seq<System>, acts: seq<Act>, i: nat)
    requires cfg.Valid() && IsSystemRun(cfg, states, acts) && i < |states|
    ensures DatedInv(states[i])
  {
    if i > 0 {
      DatedInvHolds(cfg, states, acts, i - 1);
      VoteInvHolds(cfg, states, acts, i);
      RunDated(cfg, states, acts, i - 1);
    }
  }

  lemma RunDated(cfg: Config, states: seq<System>, acts: seq<Act>, i: nat)
    requires cfg.Valid() && IsSystemRun(cfg, states, acts) && i < |acts| && DatedInv(states[i])
    requires VoteInv(cfg, states[i + 1])
    ensures DatedInv(states[i + 1])
  {
    StepDated(cfg, states[i], acts[i], states[i + 1]);
  }

  lemma StepDated(cfg: Config, s: System, a: Act, s': System)
    requires cfg.Valid() && Step(cfg, s, a, s') && DatedInv(s) && VoteInv(cfg, s')
    ensures DatedInv(s')
  {
    TurnDated(For(cfg, a.id), s.nodes[a.id].engine, a.turn.ev, a.turn.out);
    forall id <- s'.nodes ensures Dated(s'.nodes[id].engine) && Keyed(s'.nodes[id].engine.log) {
      assert TableTraced(cfg, s'.net, id, s'.nodes[id].engine);
    }
  }

  /** A node moves to a later view in one of two ways: it adopts a NEW-VIEW delivered to it, or it is the primary
      of the view and the delivered vote completes its quorum. In the second case its log stays as it was, so none
      of the numbers it re-proposes is pre-prepared at itself in the new view. */
  lemma NewPrimaryInstallsNothing(cfg: Config, states: seq<System>, acts: seq<Act>, i: nat)
    requires cfg.Valid() && IsSystemRun(cfg, states, acts) && i < |acts|
    requires acts[i].id in states[i].nodes && acts[i].id in states[i + 1].nodes
    ensures var n, e' := states[i].nodes[acts[i].id], states[i + 1].nodes[acts[i].id].engine;
            e'.view != n.engine.view && !Installs(For(cfg, acts[i].id), n, acts[i].turn) ==>
              && acts[i].turn.ev.Deliver? && acts[i].turn.ev.msg.ViewChangeNet?
              && cfg.Primary(e'.view) == acts[i].id
              && e'.log == n.engine.log
              && forall seqNum: nat, digest: Bytes :: !Installed(e', e'.view, seqNum, digest)
  {
    var a := acts[i];
    assert Step(cfg, states[i], a, states[i + 1]);
    DatedInvHolds(cfg, states, acts, i);
    var n, n' := states[i].nodes[a.id], states[i + 1].nodes[a.id];
    if n'.engine.view != n.engine.view && !Installs(For(cfg, a.id), n, a.turn) {
      NotInstalled(For(cfg, a.id), n, a.turn, n');
    }
  }

  lemma NotInstalled(cfg: Config, n: Node, t: Turn, n': Node)
    requires cfg.Valid() && TakesTurn(cfg, n, t, n') && Dated(n.engine)
    requires n'.engine.view != n.engine.view && !Installs(cfg, n, t)
    ensures t.ev.Deliver? && t.ev.msg.ViewChangeNet? && cfg.Primary(n'.engine.view) == cfg.nodeId
    ensures n'.engine.log == n.engine.log
    ensures forall seqNum: nat, digest: Bytes :: !Installed(n'.engine, n'.engine.view, seqNum, digest)
  {
    if t.ev.Request? || (t.ev.Deliver? && !t.ev.msg.ViewChangeNet? && !t.ev.msg.NewViewNet?) {
      NormalCaseKeepsManager(cfg, n.engine, t.ev, t.out);
      assert false;
    } else if t.ev.Deliver? && t.ev.msg.NewViewNet? {
      assert false;
    } else {
      VoteDated(cfg, n.engine, t.ev, t.out);
    }
  }
}
