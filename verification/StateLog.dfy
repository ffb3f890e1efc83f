/** The per-sequence phase machine and its sliding window (consensus/pbft/state.go). */
module StateLogs {
  import opened Types
  import opened Messages

  datatype Phase = Idle | PrePrepared | Prepared | Committed {
    function Rank(): nat {
      match this
      case Idle => 0
      case PrePrepared => 1
      case Prepared => 2
      case Committed => 3
    }
  }

  /** The value a State object holds. */
  datatype SeqState = SeqState(
    view: nat,
    seqNum: nat,
    phase: Phase,
    block: Option<Block>,
    prePrepare: Option<PrePrepareMsg>,
    prepares: map<NodeId, PrepareMsg>,
    commits: map<NodeId, CommitMsg>,
    executed: bool
  ) {
    predicate IsPrepared(quorum: nat) {
      |prepares| >= quorum && phase.Rank() >= PrePrepared.Rank()
    }

    predicate IsCommitted(quorum: nat) {
      |commits| >= quorum && phase.Rank() >= Prepared.Rank()
    }

    function WithPrePrepare(msg: PrePrepareMsg): SeqState {
      this.(prePrepare := Some(msg), block := msg.block, phase := PrePrepared)
    }

    function WithPrepare(msg: PrepareMsg): SeqState {
      this.(prepares := prepares[msg.nodeId := msg])
    }

    function WithCommit(msg: CommitMsg): SeqState {
      this.(commits := commits[msg.nodeId := msg])
    }
  }

  function NewSeqState(view: nat, seqNum: nat): SeqState {
    SeqState(view, seqNum, Idle, None, None, map[], map[], false)
  }

  /** The value a StateLog object holds. */
  datatype Log = Log(states: map<nat, SeqState>, low: nat, high: nat, window: nat) {
    predicate InWindow(seqNum: nat) {
      low < seqNum <= high
    }

    /** The state GetState returns: the tracked one, or a new one made for `view`. */
    function Fetch(view: nat, seqNum: nat): SeqState {
      if seqNum in states then states[seqNum] else NewSeqState(view, seqNum)
    }

    function Put(st: SeqState): Log {
      this.(states := states[st.seqNum := st])
    }

    ghost function Advance(checkpoint: nat): Log {
      if checkpoint > low then
        Log(map s | s in states && s > checkpoint :: states[s], checkpoint, checkpoint + window, window)
      else this
    }
  }

  lemma PutTwice(log: Log, first: SeqState, second: SeqState)
    requires first.seqNum == second.seqNum
    ensures log.Put(first).Put(second) == log.Put(second)
  {
  }

  lemma PutBack(log: Log, seqNum: nat)
    requires seqNum in log.states && log.states[seqNum].seqNum == seqNum
    ensures log.Put(log.states[seqNum]) == log
  {
  }

  class State {
    const view: nat
    const sequenceNum: nat
    var phase: Phase
    var block: Option<Block>
    var prePrepareMsg: Option<PrePrepareMsg>
    var prepareMsgs: map<NodeId, PrepareMsg>
    var commitMsgs: map<NodeId, CommitMsg>
    var executed: bool

    ghost function Model(): SeqState
      reads this
    {
      SeqState(view, sequenceNum, phase, block, prePrepareMsg, prepareMsgs, commitMsgs, executed)
    }

    constructor (view: nat, seqNum: nat)
      ensures Model() == NewSeqState(view, seqNum)
    {
      this.view, this.sequenceNum := view, seqNum;
      phase, block, prePrepareMsg := Idle, None, None;
      prepareMsgs, commitMsgs, executed := map[], map[], false;
    }

    method SetPrePrepare(msg: PrePrepareMsg, block: Option<Block>)
      modifies this
      ensures Model() == old(Model()).(prePrepare := Some(msg), block := block, phase := PrePrepared)
    {
      prePrepareMsg := Some(msg);
      this.block := block;
      phase := PrePrepared;
    }

    method AddPrepare(msg: PrepareMsg)
      modifies this
      ensures Model() == old(Model()).WithPrepare(msg)
    {
      prepareMsgs := prepareMsgs[msg.nodeId := msg];
    }

    method AddCommit(msg: CommitMsg)
      modifies this
      ensures Model() == old(Model()).WithCommit(msg)
    {
      commitMsgs := commitMsgs[msg.nodeId := msg];
    }

    method IsPrepared(quorum: nat) returns (r: bool)
      ensures r == Model().IsPrepared(quorum)
    {
      r := |prepareMsgs| >= quorum && phase.Rank() >= PrePrepared.Rank();
    }

    method IsCommitted(quorum: nat) returns (r: bool)
      ensures r == Model().IsCommitted(quorum)
    {
      r := |commitMsgs| >= quorum && phase.Rank() >= Prepared.Rank();
    }

    method TransitionToPrepared()
      modifies this
      ensures Model() == old(Model()).(phase := if old(phase) == PrePrepared then Prepared else old(phase))
    {
      if phase == PrePrepared {
        phase := Prepared;
      }
    }

    method TransitionToCommitted()
      modifies this
      ensures Model() == old(Model()).(phase := if old(phase) == Prepared then Committed else old(phase))
    {
      if phase == Prepared {
        phase := Committed;
      }
    }

    method MarkExecuted()
      modifies this
      ensures Model() == old(Model()).(executed := true)
    {
      executed := true;
    }
  }

  class StateLog {
    var states: map<nat, State>
    var lowWaterMark: nat
    var highWaterMark: nat
    const windowSize: nat
    ghost var contents: map<nat, SeqState>  // the values of the tracked states

    /** Each tracked state is filed under its own number, so no two entries share an object. */
    ghost predicate Valid()
      reads this, states.Values
    {
      && contents.Keys == states.Keys
      && forall s <- states :: states[s].sequenceNum == s && states[s].Model() == contents[s]
    }

    /** Valid, except that the object of `seqNum` may have changed since `contents` was last brought up to date. */
    ghost predicate ValidExcept(seqNum: nat)
      reads this, states.Values
    {
      && contents.Keys == states.Keys
      && forall s <- states :: states[s].sequenceNum == s && (s != seqNum ==> states[s].Model() == contents[s])
    }

    ghost function Model(): Log
      reads this
    {
      Log(contents, lowWaterMark, highWaterMark, windowSize)
    }

    constructor (windowSize: nat)
      ensures Valid() && Model() == Log(map[], 0, windowSize, windowSize)
      ensures states == map[]
    {
      states, lowWaterMark, highWaterMark := map[], 0, windowSize;
      this.windowSize := windowSize;
      contents := map[];
    }

    /** Bring `contents` up to date after `state` was changed. */
    ghost method Track(state: State)
      requires ValidExcept(state.sequenceNum)
      requires state.sequenceNum in states && states[state.sequenceNum] == state
      modifies `contents
      ensures Valid()
      ensures Model() == old(Model()).Put(state.Model())
    {
      contents := contents[state.sequenceNum := state.Model()];
    }

    method GetState(view: nat, seqNum: nat) returns (state: State)
      requires Valid()
      modifies `states, `contents
      ensures Valid()
      ensures seqNum in states && states[seqNum] == state && state.sequenceNum == seqNum
      ensures state.Model() == old(Model()).Fetch(view, seqNum)
      ensures Model() == old(Model()).Put(state.Model())
      ensures states.Values <= old(states.Values) + {state}
      ensures state in old(states.Values) || fresh(state)
    {
      if seqNum in states {
        state := states[seqNum];
        assert contents == contents[seqNum := state.Model()];
      } else {
        state := new State(view, seqNum);
        states := states[seqNum := state];
        contents := contents[seqNum := state.Model()];
      }
    }

    method GetExistingState(seqNum: nat) returns (state: State?)
      ensures state == null <==> seqNum !in states
      ensures state != null ==> states[seqNum] == state
    {
      state := if seqNum in states then states[seqNum] else null;
    }

    method IsInWindow(seqNum: nat) returns (r: bool)
      ensures r == Model().InWindow(seqNum)
    {
      r := seqNum > lowWaterMark && seqNum <= highWaterMark;
    }

    method AdvanceWatermarks(checkpoint: nat)
      requires Valid()
      modifies this
      ensures Valid()
      ensures Model() == old(Model()).Advance(checkpoint)
      ensures states.Values <= old(states.Values)
    {
      if checkpoint > lowWaterMark {
        lowWaterMark := checkpoint;
        highWaterMark := checkpoint + windowSize;
        CollectGarbage();
        contents := map s | s in contents && s > checkpoint :: contents[s];
      }
    }

    /** The deletion loop of AdvanceWatermarks. */
    method CollectGarbage()
      modifies `states
      ensures states == map s | s in old(states) && s > lowWaterMark :: old(states)[s]
    {
      ghost var was := states;
      var pending := states.Keys;
      while pending != {}
        invariant pending <= was.Keys
        invariant states == map s | s in was && (s > lowWaterMark || s in pending) :: was[s]
      {
        var seqNum :| seqNum in pending;
        if seqNum <= lowWaterMark {
          states := states - {seqNum};
        }
        pending := pending - {seqNum};
      }
    }
  }
}
