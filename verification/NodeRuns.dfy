/** What every run of one node keeps, whatever messages reach it. */
module NodeRuns {
  import opened Messages
  import opened StateLogs
  import opened ViewChangeRules
  import opened EngineRules

  /** An engine together with the blocks it has executed, in order. */
  datatype Node = Node(engine: Engine, history: seq<Execution>)

  /** An event and what the engine did about it. */
  datatype Turn = Turn(ev: Event, out: Outcome)

  ghost function NewNode(cfg: Config): Node {
    Node(NewEngine(cfg), [])
  }

  ghost predicate TakesTurn(cfg: Config, n: Node, t: Turn, n': Node)
    requires cfg.Valid()
  {
    && Next(cfg, n.engine, t.ev, t.out)
    && n' == Node(t.out.engine, n.history + t.out.executed)
  }

  /** The turn delivers a NEW-VIEW that the node adopts, and with it the re-proposals. */
  ghost predicate Installs(cfg: Config, n: Node, t: Turn)
    requires cfg.Valid()
  {
    t.ev.Deliver? && t.ev.msg.NewViewNet? && Adopts(cfg, n.engine, t.ev.msg.newView)
  }

  /** nodes[i] takes turns[i] and becomes nodes[i+1], starting from `n`. */
  ghost predicate Continues(cfg: Config, n: Node, nodes: seq<Node>, turns: seq<Turn>)
    requires cfg.Valid()
  {
    && |nodes| == |turns| + 1
    && nodes[0] == n
    && forall i {:trigger turns[i]} | 0 <= i < |turns| :: TakesTurn(cfg, nodes[i], turns[i], nodes[i + 1])
  }

  /** A run from NewEngineV2. */
  ghost predicate IsRun(cfg: Config, nodes: seq<Node>, turns: seq<Turn>)
    requires cfg.Valid()
  {
    Continues(cfg, NewNode(cfg), nodes, turns)
  }

  // ----- Views -----

  /** A NEW-VIEW message that justifies being in view v. */
  ghost predicate Justifies(cfg: Config, v: nat, msg: NewViewMsg)
    requires cfg.Valid()
  {
    && msg.view == v
    && Acceptable(msg, cfg.QuorumSize())
    && msg.newPrimaryId == cfg.Primary(v)
  }

  ghost predicate ViewInv(cfg: Config, e: Engine)
    requires cfg.Valid()
  {
    && e.manager.quorum == cfg.QuorumSize() && e.manager.nodeId == cfg.nodeId
    && e.view == e.manager.currentView
    && e.manager.VotesFiled()
    && (forall v <- e.manager.votes :: v > e.view)
    && (forall v <- e.manager.newViews :: 0 < v <= e.view && Justifies(cfg, v, e.manager.newViews[v]))
    && (e.view == 0 || e.view in e.manager.newViews)
  }

  /** Either the view stays, or it grows to one that a stored NEW-VIEW justifies. */
  ghost predicate ViewMove(cfg: Config, e: Engine, e': Engine)
    requires cfg.Valid()
  {
    || e'.view == e.view
    || (e'.view > e.view && e'.view in e'.manager.newViews && Justifies(cfg, e'.view, e'.manager.newViews[e'.view]))
  }

  lemma NormalCaseKeepsManager(cfg: Config, e: Engine, ev: Event, out: Outcome)
    requires cfg.Valid() && Next(cfg, e, ev, out)
    requires ev.Request? || (ev.Deliver? && !ev.msg.ViewChangeNet? && !ev.msg.NewViewNet?)
    ensures out.engine.view == e.view && out.engine.manager == e.manager
  {
  }

  lemma RecordKeepsViewInv(cfg: Config, e: Engine, vote: ViewChangeMsg, inProgress: bool)
    requires cfg.Valid() && ViewInv(cfg, e) && vote.newView > e.view
    ensures ViewInv(cfg, e.(manager := e.manager.(inProgress := inProgress).Record(vote)))
  {
  }

  lemma AdoptKeepsViewInv(cfg: Config, e: Engine, msg: NewViewMsg, log: Log)
    requires cfg.Valid() && ViewInv(cfg, e)
    requires msg.view > e.view && Justifies(cfg, msg.view, msg)
    ensures ViewInv(cfg, e.(manager := e.manager.Adopt(msg), view := msg.view, log := log))
  {
  }

  lemma TurnKeepsViewInv(cfg: Config, e: Engine, ev: Event, out: Outcome)
    requires cfg.Valid() && ViewInv(cfg, e) && Next(cfg, e, ev, out)
    ensures ViewInv(cfg, out.engine) && ViewMove(cfg, e, out.engine)
  {
    match ev
    case Request(_, _, _) => NormalCaseKeepsManager(cfg, e, ev, out);
    case Timeout => RecordKeepsViewInv(cfg, e, out.sent[0].viewChange, true);
    case Deliver(msg, _, _) =>
      if msg.ViewChangeNet? {
        if msg.viewChange.newView > e.view {
          DeliveredVoteKeepsViewInv(cfg, e, msg, out);
        }
      } else if msg.NewViewNet? {
        var nv := msg.newView;
        if nv.view > e.view && nv.newPrimaryId == cfg.Primary(nv.view) && Acceptable(nv, e.manager.quorum) {
          AdoptKeepsViewInv(cfg, e, nv, out.engine.log);
        }
      } else {
        NormalCaseKeepsManager(cfg, e, ev, out);
      }
  }

  lemma DeliveredVoteKeepsViewInv(cfg: Config, e: Engine, msg: Message, out: Outcome)
    requires cfg.Valid() && ViewInv(cfg, e) && msg.ViewChangeNet? && msg.viewChange.newView > e.view
    requires HandleViewChange(cfg, e, msg, out)
    ensures ViewInv(cfg, out.engine) && ViewMove(cfg, e, out.engine)
  {
    var vote := msg.viewChange;
    RecordKeepsViewInv(cfg, e, vote, e.manager.inProgress);
    var recorded := e.(manager := e.manager.Record(vote));
    assert e.manager.(inProgress := e.manager.inProgress) == e.manager;
    if |recorded.manager.Table(vote.newView)| >= recorded.manager.quorum && cfg.Primary(vote.newView) == cfg.nodeId {
      var nv := out.sent[0].newView;
      if Acceptable(nv, recorded.manager.quorum) {
        AdoptKeepsViewInv(cfg, recorded, nv, recorded.log);
      }
    }
  }

  lemma StepKeepsViewInv(cfg: Config, nodes: seq<Node>, turns: seq<Turn>, i: nat)
    requires cfg.Valid() && IsRun(cfg, nodes, turns) && i < |turns| && ViewInv(cfg, nodes[i].engine)
    ensures ViewInv(cfg, nodes[i + 1].engine) && ViewMove(cfg, nodes[i].engine, nodes[i + 1].engine)
  {
    TurnKeepsViewInv(cfg, nodes[i].engine, turns[i].ev, turns[i].out);
  }

  /** View invariant: at every point of every run the two copies of the view agree, votes are kept only for
      later views and under their own view and sender, and past views are justified by stored messages. */
  lemma {:induction false} ViewsInEveryRun(cfg: Config, nodes: seq<Node>, turns: seq<Turn>, i: nat)
    requires cfg.Valid() && IsRun(cfg, nodes, turns) && i < |nodes|
    ensures ViewInv(cfg, nodes[i].engine)
  {
    if i > 0 {
      ViewsInEveryRun(cfg, nodes, turns, i - 1);
      StepKeepsViewInv(cfg, nodes, turns, i - 1);
    }
  }

  /** A turn changes the view only to a later one whose stored NEW-VIEW holds a quorum of votes for it and names its
      primary. */
  lemma ViewsMove(cfg: Config, nodes: seq<Node>, turns: seq<Turn>, i: nat)
    requires cfg.Valid() && IsRun(cfg, nodes, turns) && i < |turns|
    ensures ViewMove(cfg, nodes[i].engine, nodes[i + 1].engine)
  {
    ViewsInEveryRun(cfg, nodes, turns, i);
    StepKeepsViewInv(cfg, nodes, turns, i);
  }

  /** The view never decreases. */
  lemma {:induction false} ViewsOnlyGrow(cfg: Config, nodes: seq<Node>, turns: seq<Turn>, i: nat, j: nat)
    requires cfg.Valid() && IsRun(cfg, nodes, turns) && i <= j < |nodes|
    ensures nodes[i].engine.view <= nodes[j].engine.view
  {
    if i < j {
      ViewsOnlyGrow(cfg, nodes, turns, i, j - 1);
      ViewsMove(cfg, nodes, turns, j - 1);
    }
  }
}
