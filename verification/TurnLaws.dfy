/** What one turn of the engine's loop does, event by event, said of the turn alone: every field afterwards, every
    message sent and every block executed, in terms of the fields before and of the event. */
module TurnLaws {
  import opened Types
  import opened Messages
  import opened StateLogs
  import opened ViewChangeRules
  import opened ViewChange
  import opened EngineRules

  // ----- What is hashed -----

  /** Flatten joins its parts in order: these three facts leave no other function. */
  lemma {:induction false} FlattenJoins(a: seq<Bytes>, b: seq<Bytes>, x: Bytes)
    ensures Flatten([]) == [] && Flatten([x]) == x
    ensures Flatten(a + b) == Flatten(a) + Flatten(b)
  {
    if a == [] {
      assert a + b == b;
    } else {
      FlattenJoins(a[1..], b, x);
      assert (a + b)[1..] == a[1..] + b;
    }
  }

  // ----- Requests -----

  /** Who proposes, when, and how the counter moves. */
  lemma RequestTurn(cfg: Config, e: Engine, ev: Event, out: Outcome, txs: seq<Bytes>)
    requires cfg.Valid() && Next(cfg, e, ev, out) && ev.Request? && HandsOver(ev.op, ev.reaped, txs)
    ensures var primary := cfg.validators[e.view % |cfg.validators|] == cfg.nodeId;
            var inWindow := e.log.low < e.sequenceNum + 1 <= e.log.high;
            && out.executed == [] && |out.sent| <= 1
            && (out.sent != [] <==> primary && inWindow && txs != [] && ev.arrange(txs).Some?)
            && (out.sent == [] ==> out.engine == e.(sequenceNum := out.engine.sequenceNum))
            && out.engine.sequenceNum ==
               if primary && (txs != [] || !inWindow) then e.sequenceNum + 1 else e.sequenceNum
  {
  }

  /** What a primary proposes: the block holds exactly what PrepareProposal answered to the transactions handed over;
      it is recorded with the primary's own prepare, and nothing else changes but the counter. */
  lemma ProposalTurn(cfg: Config, e: Engine, ev: Event, out: Outcome, txs: seq<Bytes>)
    requires cfg.Valid() && Keyed(e.log) && Next(cfg, e, ev, out) && ev.Request? && out.sent != []
    requires HandsOver(ev.op, ev.reaped, txs)
    ensures out.sent[0].PrePrepareNet? && out.sent[0].prePrepare.block.Some? && ev.arrange(txs).Some?
    ensures var b, s := out.sent[0].prePrepare.block.value, e.sequenceNum + 1;
            && IsNextBlock(cfg, e, ev.arrange(txs).value, b)
            && out.sent == [PrePrepareNet(e.view, s, b.hash, cfg.nodeId,
                                          PrePrepareMsg(e.view, s, b.hash, Some(b), cfg.nodeId))]
            && var was := if s in e.log.states then e.log.states[s]
                          else SeqState(e.view, s, Phase.Idle, None, None, map[], map[], false);
               out.engine == e.(sequenceNum := s, log := e.log.(states := e.log.states[s := was.(
                 phase := PrePrepared, block := Some(b), prePrepare := Some(out.sent[0].prePrepare),
                 prepares := was.prepares[cfg.nodeId := PrepareMsg(e.view, s, b.hash, cfg.nodeId)])]))
  {
  }

  // ----- The three phases -----

  /** A PRE-PREPARE counts only from the primary of the view, for the view and a number in the window, and only if
      the application accepted it; in every other case nothing happens. */
  lemma PrePrepareTurn(cfg: Config, e: Engine, ev: Event, out: Outcome)
    requires cfg.Valid() && Keyed(e.log) && Next(cfg, e, ev, out) && ev.Deliver? && ev.msg.PrePrepareNet?
    ensures out.executed == []
    ensures var s, primary := ev.msg.seqNum, cfg.validators[e.view % |cfg.validators|];
            if ev.verdict == Accepted && ev.msg.nodeId == primary && ev.msg.view == e.view
               && e.log.low < s <= e.log.high
            then
              var own := PrepareMsg(e.view, s, ev.msg.digest, cfg.nodeId);
              var was := if s in e.log.states then e.log.states[s]
                         else SeqState(e.view, s, Phase.Idle, None, None, map[], map[], false);
              && ev.msg.prePrepare.block.Some?
              && out.sent == [PrepareNet(e.view, s, ev.msg.digest, cfg.nodeId, own)]
              && out.engine == e.(log := e.log.(states := e.log.states[s := was.(
                   phase := PrePrepared, block := ev.msg.prePrepare.block, prePrepare := Some(ev.msg.prePrepare),
                   prepares := was.prepares[cfg.nodeId := own])]))
            else out.engine == e && out.sent == []
  {
  }

  /** The program stops, so that there is no turn, exactly at a PRE-PREPARE without a block that gets past the checks
      on sender, view and number, whatever the application would have answered. */
  lemma StopsExactly(cfg: Config, e: Engine, ev: Event)
    requires cfg.Valid() && ev.Deliver? && ev.msg.PrePrepareNet?
    ensures (exists out :: Next(cfg, e, ev, out)) <==>
            !(&& ev.msg.prePrepare.block.None? && ev.msg.view == e.view && e.log.low < ev.msg.seqNum <= e.log.high
              && ev.msg.nodeId == cfg.validators[e.view % |cfg.validators|])
  {
    if !Crashes(cfg, e, ev.msg) {
      assert Next(cfg, e, ev, HandlePrePrepare(cfg, e, ev.msg, ev.verdict));
    }
  }

  /** A PREPARE counts only for the view and a tracked number. The first one that makes a quorum of senders while the
      state is pre-prepared moves it to Prepared and is answered with a COMMIT. */
  lemma PrepareTurn(cfg: Config, e: Engine, ev: Event, out: Outcome)
    requires cfg.Valid() && Keyed(e.log) && Next(cfg, e, ev, out) && ev.Deliver? && ev.msg.PrepareNet?
    ensures out.executed == []
    ensures var s := ev.msg.seqNum;
            if ev.msg.view != e.view || s !in e.log.states then out.engine == e && out.sent == []
            else
              var was := e.log.states[s];
              var voted := was.(prepares := was.prepares[ev.msg.prepare.nodeId := ev.msg.prepare]);
              if |voted.prepares| >= 2 * ((|cfg.validators| - 1) / 3) + 1 && was.phase == PrePrepared then
                var own := CommitMsg(e.view, s, ev.msg.digest, cfg.nodeId);
                && out.sent == [CommitNet(e.view, s, ev.msg.digest, cfg.nodeId, own)]
                && out.engine == e.(log := e.log.(states := e.log.states[s := voted.(
                     phase := Prepared, commits := was.commits[cfg.nodeId := own])]))
              else
                && out.sent == []
                && out.engine == e.(log := e.log.(states := e.log.states[s := voted]))
  {
  }

  /** The block of this state is executed: a quorum of commits for a prepared state, a block that was not executed
      before, and an application that both finalised and committed it. */
  ghost predicate Executes(cfg: Config, e: Engine, ev: Event)
    requires cfg.Valid() && ev.Deliver? && ev.msg.CommitNet?
  {
    && ev.msg.view == e.view && ev.msg.seqNum in e.log.states
    && var was := e.log.states[ev.msg.seqNum];
    && |was.commits[ev.msg.commit.nodeId := ev.msg.commit]| >= 2 * ((|cfg.validators| - 1) / 3) + 1
    && was.phase == Prepared && !was.executed && was.block.Some? && ev.reply.Done?
  }

  /** A COMMIT counts only for the view and a tracked number. A quorum moves a prepared state to Committed, whatever
      the application then answers; without execution nothing else changes. */
  lemma CommitTurn(cfg: Config, e: Engine, ev: Event, out: Outcome)
    requires cfg.Valid() && Keyed(e.log) && Next(cfg, e, ev, out) && ev.Deliver? && ev.msg.CommitNet?
    ensures out.sent == [] && (out.executed != [] <==> Executes(cfg, e, ev))
    ensures var s := ev.msg.seqNum;
            if ev.msg.view != e.view || s !in e.log.states then out.engine == e
            else
              var was := e.log.states[s];
              var voted := was.(commits := was.commits[ev.msg.commit.nodeId := ev.msg.commit]);
              var quorum := |voted.commits| >= 2 * ((|cfg.validators| - 1) / 3) + 1;
              !Executes(cfg, e, ev) ==>
                out.engine == e.(log := e.log.(states := e.log.states[s := voted.(
                  phase := if quorum && was.phase == Prepared then Committed else was.phase)]))
  {
  }

  /** `m` drops the smallest key of `grown` if there are more than three. */
  ghost predicate KeepsThree(grown: map<nat, Bytes>, m: map<nat, Bytes>) {
    if |grown| <= 3 then m == grown
    else exists oldest <- grown :: (forall k <- grown :: oldest <= k) && m == grown - {oldest}
  }

  /** The log after a checkpoint at `s`: a higher one moves the window and drops what lies at or below it. */
  ghost predicate Checkpointed(log: Log, s: nat, log': Log) {
    log' == if s <= log.low then log
            else Log(map k | k in log.states && k > s :: log.states[k], s, s + log.window, log.window)
  }

  /** What an execution changes. */
  lemma ExecutionTurn(cfg: Config, e: Engine, ev: Event, out: Outcome)
    requires cfg.Valid() && Keyed(e.log) && Next(cfg, e, ev, out)
    requires ev.Deliver? && ev.msg.CommitNet? && Executes(cfg, e, ev)
    ensures var s := ev.msg.seqNum;
            var was := e.log.states[s];
            var marked := e.log.(states := e.log.states[s := was.(phase := Committed, executed := true,
                            commits := was.commits[ev.msg.commit.nodeId := ev.msg.commit])]);
            && out.executed == [Execution(s, was.block.value)]
            && out.engine == e.(committed := e.committed + [was.block.value], lastAppHash := ev.reply.appHash,
                                log := out.engine.log, checkpoints := out.engine.checkpoints)
            && if s % cfg.checkpointInterval != 0
               then out.engine.log == marked && out.engine.checkpoints == e.checkpoints
               else Checkpointed(marked, s, out.engine.log)
                    && KeepsThree(e.checkpoints[s := was.block.value.hash], out.engine.checkpoints)
  {
    var s := ev.msg.seqNum;
    var grown := e.checkpoints[s := e.log.states[s].block.value.hash];
    assert {s} + grown.Keys == grown.Keys;
  }

  // ----- View changes -----

  /** A state that a vote must report: in the window, with a quorum of prepares, not executed. */
  ghost predicate MustReport(cfg: Config, log: Log, s: nat)
    requires cfg.Valid()
  {
    && log.low < s <= log.high && s in log.states
    && |log.states[s].prepares| >= 2 * ((|cfg.validators| - 1) / 3) + 1
    && log.states[s].phase != Phase.Idle && !log.states[s].executed && log.states[s].prePrepare.Some?
  }

  ghost predicate ReportsAll(cfg: Config, log: Log, certs: seq<PreparedCert>)
    requires cfg.Valid()
  {
    && (forall c <- certs :: MustReport(cfg, log, c.prePrepare.seqNum))
    && (forall s <- log.states :: MustReport(cfg, log, s) ==> exists c <- certs :: c.prePrepare.seqNum == s)
  }

  lemma VoteReportsAll(cfg: Config, e: Engine, vote: ViewChangeMsg)
    requires cfg.Valid() && IsVote(cfg, e, vote)
    ensures ReportsAll(cfg, e.log, vote.preparedSet)
  {
    forall s <- e.log.states | MustReport(cfg, e.log, s)
      ensures exists c <- vote.preparedSet :: c.prePrepare.seqNum == s
    {
      assert Reportable(e.log, cfg.QuorumSize(), s);
    }
  }

  /** The certificate carries the recorded digest, block and primary, under the sender's present view, and every
      prepare on record. */
  ghost predicate CertifiesState(view: nat, st: SeqState, c: PreparedCert) {
    && st.prePrepare.Some?
    && c.prePrepare == PrePrepareMsg(view, c.prePrepare.seqNum, st.prePrepare.value.digest, st.block,
                                     st.prePrepare.value.primaryId)
    && |c.prepares| == |st.prepares|
    && (forall p <- c.prepares :: exists id <- st.prepares :: st.prepares[id] == p)
    && (forall id <- st.prepares :: st.prepares[id] in c.prepares)
  }

  /** A timeout makes the node vote for the next view, unless it is there already. */
  lemma TimeoutTurn(cfg: Config, e: Engine, ev: Event, out: Outcome)
    requires cfg.Valid() && Next(cfg, e, ev, out) && ev.Timeout?
    ensures out.executed == []
    ensures e.view + 1 <= e.manager.currentView ==> out.engine == e && out.sent == []
    ensures e.view + 1 > e.manager.currentView ==>
              && |out.sent| == 1 && out.sent[0].ViewChangeNet?
              && var vote := out.sent[0].viewChange;
              && vote == ViewChangeMsg(e.view + 1, e.sequenceNum, vote.checkpoints, vote.preparedSet, e.manager.nodeId)
              && out.sent == [ViewChangeNet(e.view + 1, e.sequenceNum, e.manager.nodeId, vote)]
              && var table := if e.view + 1 in e.manager.votes then e.manager.votes[e.view + 1] else map[];
                 out.engine == e.(manager := e.manager.(inProgress := true,
                   votes := e.manager.votes[e.view + 1 := table[e.manager.nodeId := vote]]))
  {
  }

  /** What the vote reports: every checkpoint held, once, and in ascending order a certificate for exactly the numbers
      of the window that are prepared and not executed. */
  lemma VoteContents(cfg: Config, e: Engine, ev: Event, out: Outcome, vote: ViewChangeMsg)
    requires cfg.Valid() && Next(cfg, e, ev, out) && ev.Timeout?
    requires |out.sent| == 1 && out.sent[0].ViewChangeNet? && vote == out.sent[0].viewChange
    ensures |vote.checkpoints| == |e.checkpoints|
    ensures forall i, j | 0 <= i < j < |vote.checkpoints| :: vote.checkpoints[i].seqNum != vote.checkpoints[j].seqNum
    ensures forall c <- vote.checkpoints :: c.seqNum in e.checkpoints
                                            && c == Checkpoint(c.seqNum, e.checkpoints[c.seqNum], cfg.nodeId)
    ensures ReportsAll(cfg, e.log, vote.preparedSet)
    ensures forall i, j | 0 <= i < j < |vote.preparedSet| ::
              vote.preparedSet[i].prePrepare.seqNum < vote.preparedSet[j].prePrepare.seqNum
    ensures forall c <- vote.preparedSet :: c.prePrepare.seqNum in e.log.states
                                            && CertifiesState(e.view, e.log.states[c.prePrepare.seqNum], c)
  {
    VoteReportsAll(cfg, e, vote);
  }

  /** A vote for a later view is filed. If it completes a quorum, or finds one, the primary of that view sends the
      NEW-VIEW it builds from the filed votes, and moves to the view if that message passes its own check. */
  lemma ViewChangeTurn(cfg: Config, e: Engine, ev: Event, out: Outcome)
    requires cfg.Valid() && Next(cfg, e, ev, out) && ev.Deliver? && ev.msg.ViewChangeNet?
    ensures out.executed == []
    ensures var vote := ev.msg.viewChange;
            if vote.newView <= e.view then out.engine == e && out.sent == []
            else
              var v := vote.newView;
              var table := (if v in e.manager.votes then e.manager.votes[v] else map[])[vote.nodeId := vote];
              var filed := e.manager.(votes := e.manager.votes[v := table]);
              if |table| < e.manager.quorum || cfg.validators[v % |cfg.validators|] != cfg.nodeId
              then out.engine == e.(manager := filed) && out.sent == []
              else
                && |out.sent| == 1 && out.sent[0].NewViewNet?
                && var nv := out.sent[0].newView;
                && out.sent == [NewViewNet(v, e.sequenceNum, cfg.nodeId, nv)]
                && nv == NewViewMsg(v, nv.votes, PrePrepareSet(nv.votes), e.manager.nodeId)
                && |nv.votes| == |table|
                && (forall i, j | 0 <= i < j < |nv.votes| :: nv.votes[i].nodeId != nv.votes[j].nodeId)
                && (forall w <- nv.votes :: w.nodeId in table && table[w.nodeId] == w)
                && out.engine ==
                   if !Acceptable(nv, e.manager.quorum) then e.(manager := filed)
                   else e.(view := v, manager := MovedTo(filed, v, nv))
  {
  }

  /** The manager in its new view: the message is kept, older votes are not. */
  ghost function MovedTo(m: Manager, view: nat, nv: NewViewMsg): Manager {
    Manager(view, map v | v in m.votes && v > view :: m.votes[v], m.newViews[view := nv], false, m.quorum, m.nodeId)
  }

  /** Some re-proposal is for `s`, and this is the last one. */
  ghost predicate LastFor(pps: seq<PrePrepareMsg>, s: nat, k: nat) {
    k < |pps| && pps[k].seqNum == s && forall j | k < j < |pps| :: pps[j].seqNum != s
  }

  lemma {:induction false} LastForIs(pps: seq<PrePrepareMsg>, s: nat, k: nat)
    requires LastFor(pps, s, k)
    ensures LastProposal(pps, s) == Some(pps[k])
  {
    if k < |pps| - 1 {
      assert pps[|pps| - 1].seqNum != s;
      LastForIs(pps[..|pps| - 1], s, k);
    }
  }

  /** A NEW-VIEW moves its receiver exactly if it is for a later view, names the primary of that view and is acceptable.
      Then the receiver answers every re-proposal, in order, with a prepare in the new view. */
  lemma NewViewTurn(cfg: Config, e: Engine, ev: Event, out: Outcome)
    requires cfg.Valid() && Keyed(e.log) && Next(cfg, e, ev, out) && ev.Deliver? && ev.msg.NewViewNet?
    ensures out.executed == []
    ensures var nv := ev.msg.newView;
            if nv.view <= e.view || nv.newPrimaryId != cfg.validators[nv.view % |cfg.validators|]
               || !Acceptable(nv, e.manager.quorum)
            then out.engine == e && out.sent == []
            else
              && out.engine == e.(view := nv.view, manager := MovedTo(e.manager, nv.view, nv), log := out.engine.log)
              && out.engine.log == e.log.(states := out.engine.log.states)
              && |out.sent| == |nv.prePrepares|
              && forall i | 0 <= i < |out.sent| ::
                   var own := PrepareMsg(nv.view, nv.prePrepares[i].seqNum, nv.prePrepares[i].digest, cfg.nodeId);
                   out.sent[i] == PrepareNet(nv.view, own.seqNum, own.digest, cfg.nodeId, own)
  {
    ReprocessAt(e.log, ev.msg.newView.prePrepares, ev.msg.newView.view, 0);
  }

  /** What a NEW-VIEW that moves its receiver makes of the log: numbers it does not name stay as they were; for the
      others the last re-proposal counts, in the new view, while votes and the executed flag stay. */
  lemma InstalledAt(cfg: Config, e: Engine, ev: Event, out: Outcome, s: nat)
    requires cfg.Valid() && Keyed(e.log) && Next(cfg, e, ev, out) && ev.Deliver? && ev.msg.NewViewNet?
    requires out.engine.view > e.view
    ensures var pps, log, log' := ev.msg.newView.prePrepares, e.log.states, out.engine.log.states;
            && ((forall pp <- pps :: pp.seqNum != s) ==>
                  (s in log' <==> s in log) && (s in log ==> log'[s] == log[s]))
            && forall k: nat | LastFor(pps, s, k) ::
                 && s in log'
                 && var was := if s in log then log[s]
                               else SeqState(out.engine.view, s, Phase.Idle, None, None, map[], map[], false);
                    log'[s] == was.(phase := PrePrepared, block := pps[k].block,
                                    prePrepare := Some(pps[k].(view := out.engine.view)))
  {
    var pps := ev.msg.newView.prePrepares;
    ReprocessAt(e.log, pps, ev.msg.newView.view, s);
    forall k: nat | LastFor(pps, s, k) ensures LastProposal(pps, s) == Some(pps[k]) {
      LastForIs(pps, s, k);
    }
  }

  // ----- Across events -----

  /** Proposals and votes of another view than the receiver's change nothing. */
  lemma OtherViewsIgnored(cfg: Config, e: Engine, ev: Event, out: Outcome)
    requires cfg.Valid() && Next(cfg, e, ev, out) && ev.Deliver? && ev.msg.view != e.view
    requires ev.msg.PrePrepareNet? || ev.msg.PrepareNet? || ev.msg.CommitNet?
    ensures out.engine == e && out.sent == [] && out.executed == []
  {
  }

  /** Proposals and votes are sent in the sender's name and in the view it is in after the turn, envelope and payload
      alike. */
  lemma SentInOwnView(cfg: Config, e: Engine, ev: Event, out: Outcome)
    requires cfg.Valid() && Next(cfg, e, ev, out)
    ensures forall m <- out.sent :: m.PrePrepareNet? || m.PrepareNet? || m.CommitNet? ==>
              m.nodeId == cfg.nodeId && m.view == out.engine.view
    ensures forall m <- out.sent ::
              && (m.PrePrepareNet? ==>
                    m.prePrepare == PrePrepareMsg(m.view, m.seqNum, m.digest, m.prePrepare.block, m.nodeId))
              && (m.PrepareNet? ==> m.prepare == PrepareMsg(m.view, m.seqNum, m.digest, m.nodeId))
              && (m.CommitNet? ==> m.commit == CommitMsg(m.view, m.seqNum, m.digest, m.nodeId))
  {
  }

  /** Only a COMMIT that the application answered with a hash executes, and only one block; a turn without execution
      leaves the chain, the checkpoints and the application hash alone. */
  lemma OnlyDoneExecutes(cfg: Config, e: Engine, ev: Event, out: Outcome)
    requires cfg.Valid() && Next(cfg, e, ev, out)
    ensures out.executed == [] ==>
              && out.engine.committed == e.committed && out.engine.checkpoints == e.checkpoints
              && out.engine.lastAppHash == e.lastAppHash
    ensures out.executed != [] ==>
              && ev.Deliver? && ev.msg.CommitNet? && ev.reply.Done? && |out.executed| == 1
              && out.engine.lastAppHash == ev.reply.appHash
              && out.engine.committed == e.committed + [out.executed[0].block]
  {
  }
}
