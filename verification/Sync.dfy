/** Catching up with the network in batches of blocks (persistence/sync.go). The provider's answers, the callback
    and the moment at which the context ends are arguments. */
module StateSync {
  import opened Types
  import opened Persistence

  // ----- The batches, in uint64 arithmetic -----

  const BATCH_SIZE: nat := 100

  /** Addition of uint64 values. */
  function Add(a: U64, b: U64): U64 {
    if a + b < U64_LIMIT then a + b else a + b - U64_LIMIT
  }

  function BatchEnd(height: U64, target: U64): U64 {
    var endHeight := Add(height, BATCH_SIZE - 1);
    if endHeight > target then target else endHeight
  }

  /** The height with which round k of the loop starts, while the loop runs. */
  function Start(local: U64, target: U64, k: nat): U64
    decreases k, 0
  {
    if k == 0 then Add(local, 1) else Add(End(local, target, k - 1), 1)
  }

  function End(local: U64, target: U64, k: nat): U64
    decreases k, 1
  {
    BatchEnd(Start(local, target, k), target)
  }

  /** The first n batches cut the heights from local + 1 to target into consecutive, non-empty pieces. */
  ghost predicate Partition(local: U64, target: U64, n: nat) {
    && n > 0
    && Start(local, target, 0) == local + 1 && End(local, target, n - 1) == target
    && (forall k | 0 <= k < n :: NonEmpty(local, target, k))
    && (forall k | 0 < k < n :: Adjacent(local, target, k))
  }

  ghost predicate NonEmpty(local: U64, target: U64, k: nat) {
    Start(local, target, k) <= End(local, target, k)
  }

  ghost predicate Adjacent(local: U64, target: U64, k: nat)
    requires k > 0
  {
    Start(local, target, k) == End(local, target, k - 1) + 1
  }

  /** How many batches the gap takes. */
  function Rounds(local: U64, target: U64): (n: nat)
    requires local < target
    ensures n > 0 && BATCH_SIZE * (n - 1) < target - local <= BATCH_SIZE * n
  {
    (target - local - 1) / BATCH_SIZE + 1
  }

  /** Neither the end of the last batch nor the height after it passes 2^64 - 1. */
  predicate Reachable(local: U64, target: U64)
    requires local < target
  {
    target < U64_LIMIT - 1 && local + BATCH_SIZE * Rounds(local, target) < U64_LIMIT
  }

  lemma {:induction false} StartsInStep(local: U64, target: U64, k: nat)
    requires local < target && k < Rounds(local, target)
    ensures Start(local, target, k) == local + 1 + BATCH_SIZE * k <= target
  {
    if k > 0 {
      StartsInStep(local, target, k - 1);
    }
  }

  /** A partition has batches of full size but for the last, so it has Rounds of them. */
  lemma {:induction false} PartitionInStep(local: U64, target: U64, n: nat, k: nat)
    requires local < target && Partition(local, target, n) && k < n
    ensures Start(local, target, k) == local + 1 + BATCH_SIZE * k <= target
  {
    if k > 0 {
      PartitionInStep(local, target, n, k - 1);
      assert NonEmpty(local, target, k - 1) && NonEmpty(local, target, k) && Adjacent(local, target, k);
    }
  }

  lemma ReachableIsCovered(local: U64, target: U64)
    requires local < target && Reachable(local, target)
    ensures var n := Rounds(local, target); Partition(local, target, n) && Start(local, target, n) > target
  {
    var n := Rounds(local, target);
    forall k | 0 <= k < n
      ensures NonEmpty(local, target, k) && (k > 0 ==> Adjacent(local, target, k))
    {
      StartsInStep(local, target, k);
      if k > 0 {
        StartsInStep(local, target, k - 1);
      }
    }
    StartsInStep(local, target, n - 1);
  }

  lemma CoveredIsReachable(local: U64, target: U64, n: nat)
    requires local < target && Partition(local, target, n) && Start(local, target, n) > target
    ensures Reachable(local, target) && n == Rounds(local, target)
  {
    PartitionInStep(local, target, n, n - 1);
    assert NonEmpty(local, target, n - 1);
    var start := local + 1 + BATCH_SIZE * (n - 1);
    assert start <= BatchEnd(start, target) == target;
    assert start + BATCH_SIZE - 1 < U64_LIMIT;
  }

  /** The loop cuts the gap into batches and ends after the last exactly when the target is reachable. */
  lemma BatchesCoverExactly(local: U64, target: U64)
    requires local < target
    ensures Reachable(local, target) <==>
            exists n: nat :: Partition(local, target, n) && Start(local, target, n) > target
  {
    if Reachable(local, target) {
      ReachableIsCovered(local, target);
    }
    if n: nat :| Partition(local, target, n) && Start(local, target, n) > target {
      CoveredIsReachable(local, target, n);
    }
  }

  /** When it is not, the round after the last full batch starts at a height already passed, and the loop goes on. */
  lemma OtherwiseGoesBack(local: U64, target: U64)
    requires local < target && !Reachable(local, target)
    ensures var n := Rounds(local, target);
            Start(local, target, n) <= target && Start(local, target, n) < Start(local, target, n - 1)
  {
    StartsInStep(local, target, Rounds(local, target) - 1);
  }

  /** Targets that leave room for one more batch are reachable from everywhere. */
  lemma SmallTargetsReachable(local: U64, target: U64)
    requires local < target <= U64_LIMIT - BATCH_SIZE
    ensures Reachable(local, target)
  {
    StartsInStep(local, target, Rounds(local, target) - 1);
  }

  /** No request spans more than 100 heights or passes the target, and it spans 100 unless the target is nearer or the
      sum wraps around. */
  lemma RequestSpan(local: U64, target: U64, k: nat)
    requires local < target && Start(local, target, k) <= target
    ensures var start, end := Start(local, target, k), End(local, target, k);
            && end <= target && end - start <= 99
            && (start + 99 <= target ==> end == start + 99)
            && (target < start + 99 < 0x1_0000_0000_0000_0000 ==> end == target)
            && (start + 99 >= 0x1_0000_0000_0000_0000 ==> end == start + 99 - 0x1_0000_0000_0000_0000 < start)
            && Start(local, target, k + 1) == (if end == 0xffff_ffff_ffff_ffff then 0 else end + 1)
  {
  }

  /** The requests towards a reachable target, in numbers, and which targets are reachable. */
  lemma RequestsExactly(local: U64, target: U64)
    requires local < target
    ensures Reachable(local, target) <==>
            target < 0xffff_ffff_ffff_ffff && local + 100 * ((target - local + 99) / 100) <= 0xffff_ffff_ffff_ffff
    ensures Reachable(local, target) ==> forall k: nat | 100 * k < target - local ::
              && Start(local, target, k) == local + 100 * k + 1
              && End(local, target, k) == if local + 100 * k + 100 <= target then local + 100 * k + 100 else target
  {
    assert (target - local + 99) / 100 == Rounds(local, target);
    if Reachable(local, target) {
      forall k: nat | 100 * k < target - local
        ensures Start(local, target, k) == local + 100 * k + 1
        ensures End(local, target, k) == if local + 100 * k + 100 <= target then local + 100 * k + 100 else target
      {
        assert k < Rounds(local, target);
        StartsInStep(local, target, k);
      }
    }
  }

  // ----- What the provider sends -----

  /** Nil blocks are None. */
  type Sent = seq<Option<StoredBlock>>

  /** GetBlocks in round k, for a range of heights; None is an error. */
  type GetBlocks = (nat, U64, U64) -> Option<Sent>

  /** The callback for the j-th block received; false is an error. No callback is None. */
  type OnBlock = Option<(nat, StoredBlock) -> bool>

  predicate Accepts(onBlock: OnBlock, j: nat, block: StoredBlock) {
    onBlock.None? || onBlock.value(j, block)
  }

  ghost function Answer(getBlocks: GetBlocks, local: U64, target: U64, k: nat): Option<Sent> {
    getBlocks(k, Start(local, target, k), End(local, target, k))
  }

  /** Everything sent in the first n rounds. */
  ghost function AllSent(getBlocks: GetBlocks, local: U64, target: U64, n: nat): Sent {
    if n == 0 then []
    else
      AllSent(getBlocks, local, target, n - 1) +
      match Answer(getBlocks, local, target, n - 1)
      case None => []
      case Some(blocks) => blocks
  }

  ghost predicate Received(seen: seq<StoredBlock>, sent: Sent) {
    |seen| <= |sent| && forall j | 0 <= j < |seen| :: sent[j] == Some(seen[j])
  }

  /** An answer that holds exactly the heights asked for, in order. */
  ghost predicate Exact(blocks: Sent, fromHeight: U64, toHeight: U64) {
    && fromHeight + |blocks| == toHeight + 1
    && forall i | 0 <= i < |blocks| :: blocks[i].Some? && blocks[i].value.height == fromHeight + i
  }

  ghost predicate Faithful(getBlocks: GetBlocks) {
    forall k: nat, fromHeight: U64, toHeight: U64 | fromHeight <= toHeight ::
      getBlocks(k, fromHeight, toHeight).Some? ==> Exact(getBlocks(k, fromHeight, toHeight).value, fromHeight, toHeight)
  }

  /** The blocks of the gap, each height once, in ascending order. */
  ghost predicate IsGap(seen: seq<StoredBlock>, local: U64, target: U64) {
    && |seen| == target - local
    && forall i | 0 <= i < |seen| :: seen[i].height == local + 1 + i
  }

  lemma ExactAppend(a: Sent, b: Sent, lo: U64, mid: U64, next: U64, hi: U64)
    requires Exact(a, lo, mid) && Exact(b, next, hi) && next == mid + 1
    ensures Exact(a + b, lo, hi)
  {
  }

  lemma ExactAnswer(getBlocks: GetBlocks, local: U64, target: U64, k: nat)
    requires local < target && Reachable(local, target) && Faithful(getBlocks)
    requires k < Rounds(local, target) && Answer(getBlocks, local, target, k).Some?
    ensures Exact(Answer(getBlocks, local, target, k).value, Start(local, target, k), End(local, target, k))
    ensures k > 0 ==> Start(local, target, k) == End(local, target, k - 1) + 1
  {
    ReachableIsCovered(local, target);
    assert NonEmpty(local, target, k) && (k > 0 ==> Adjacent(local, target, k));
  }

  lemma {:induction false} SentInOrder(getBlocks: GetBlocks, local: U64, target: U64, n: nat)
    requires local < target && Reachable(local, target) && Faithful(getBlocks)
    requires 0 < n <= Rounds(local, target) && AllAnswered(getBlocks, local, target, n)
    ensures Exact(AllSent(getBlocks, local, target, n), Start(local, target, 0), End(local, target, n - 1))
  {
    assert Answered(getBlocks, local, target, n - 1);
    ExactAnswer(getBlocks, local, target, n - 1);
    var blocks := Answer(getBlocks, local, target, n - 1).value;
    if n > 1 {
      SentInOrder(getBlocks, local, target, n - 1);
      ExactAppend(AllSent(getBlocks, local, target, n - 1), blocks, Start(local, target, 0),
                  End(local, target, n - 2), Start(local, target, n - 1), End(local, target, n - 1));
    } else {
      assert AllSent(getBlocks, local, target, 1) == [] + blocks == blocks;
    }
  }

  /** What a completed loop received from a faithful provider is the gap. */
  lemma {:induction false} CompletedIsGap(getBlocks: GetBlocks, onBlock: OnBlock, local: U64, target: U64, n: nat,
                       seen: seq<StoredBlock>)
    requires local < target && Reachable(local, target) && Faithful(getBlocks)
    requires Ran(getBlocks, onBlock, local, target, n, seen) && Start(local, target, n) > target
    ensures n == Rounds(local, target) && IsGap(seen, local, target)
  {
    ReachableIsCovered(local, target);
    StartsInStep(local, target, 0);
    if n < Rounds(local, target) {
      StartsInStep(local, target, n);
    }
    NoMoreRounds(getBlocks, local, target, n);
    SentInOrder(getBlocks, local, target, n);
  }

  /** After a completed loop the store holds the gap, as sent, and what it held elsewhere. */
  lemma StoreHoldsGap(blocks: Blocks, local: U64, target: U64, seen: seq<StoredBlock>, h: U64)
    requires local < target && IsGap(seen, local, target)
    ensures local < h <= target ==> h in Saved(blocks, seen) && Saved(blocks, seen)[h] == seen[h - local - 1]
    ensures !(local < h <= target) ==>
              (h in Saved(blocks, seen) <==> h in blocks) && (h in blocks ==> Saved(blocks, seen)[h] == blocks[h])
  {
    if local < h <= target {
      SavedLast(blocks, seen, h - local - 1);
    } else {
      SavedElsewhere(blocks, seen, h);
    }
  }

  /** Loading the gap gives back what was received. */
  lemma {:induction false} GapReadsBack(blocks: Blocks, local: U64, target: U64, seen: seq<StoredBlock>)
    requires local < target && IsGap(seen, local, target) && Filed(blocks)
    ensures InRange(Saved(blocks, seen), local + 1, target + 1) == seen
  {
    var saved := Saved(blocks, seen);
    forall h: U64 | local < h <= target ensures h in saved {
      StoreHoldsGap(blocks, local, target, seen, h);
    }
    FullRange(saved, local + 1, target + 1);
    forall i | 0 <= i < |seen| ensures InRange(saved, local + 1, target + 1)[i] == seen[i] {
      StoreHoldsGap(blocks, local, target, seen, local + 1 + i);
    }
  }

  // ----- The loop -----

  datatype Processed = Stored | NilBlock | Refused

  datatype LoopEnd = Finished | ContextDone | NoAnswer | BadBlock(why: Processed)

  ghost predicate Answered(getBlocks: GetBlocks, local: U64, target: U64, k: nat) {
    Start(local, target, k) <= target && Answer(getBlocks, local, target, k).Some?
  }

  ghost predicate AllAnswered(getBlocks: GetBlocks, local: U64, target: U64, n: nat) {
    forall k | 0 <= k < n :: Answered(getBlocks, local, target, k)
  }

  lemma PastTarget(local: U64, target: U64)
    requires local < target && Reachable(local, target)
    ensures Start(local, target, Rounds(local, target)) > target == End(local, target, Rounds(local, target) - 1)
  {
    ReachableIsCovered(local, target);
  }

  lemma NoMoreRounds(getBlocks: GetBlocks, local: U64, target: U64, n: nat)
    requires local < target && Reachable(local, target) && AllAnswered(getBlocks, local, target, n)
    ensures n <= Rounds(local, target)
  {
    PastTarget(local, target);
    assert n > Rounds(local, target) ==> Answered(getBlocks, local, target, Rounds(local, target));
  }

  lemma AnsweredNext(getBlocks: GetBlocks, local: U64, target: U64, n: nat)
    requires AllAnswered(getBlocks, local, target, n) && Answered(getBlocks, local, target, n)
    ensures AllAnswered(getBlocks, local, target, n + 1)
  {
  }

  /** The first n rounds: each was begun because the target was not passed, and all that was asked for in them was
      sent, received and accepted by the callback. */
  ghost predicate Ran(getBlocks: GetBlocks, onBlock: OnBlock, local: U64, target: U64, n: nat, seen: seq<StoredBlock>)
  {
    && AllAnswered(getBlocks, local, target, n)
    && Received(seen, AllSent(getBlocks, local, target, n))
    && |seen| == |AllSent(getBlocks, local, target, n)|
    && (forall j | 0 <= j < |seen| :: Accepts(onBlock, j, seen[j]))
  }

  /** How far one answer got, after the blocks received before it. */
  ghost predicate GotThrough(onBlock: OnBlock, prior: seq<StoredBlock>, seen: seq<StoredBlock>, blocks: Sent,
                             r: Processed)
  {
    && prior <= seen && |seen| <= |prior| + |blocks|
    && (forall j | |prior| <= j < |seen| :: blocks[j - |prior|] == Some(seen[j]))
    && (forall j | |prior| <= j < |seen| - (if r == Refused then 1 else 0) :: Accepts(onBlock, j, seen[j]))
    && match r
       case Stored => |seen| == |prior| + |blocks|
       case NilBlock => |seen| < |prior| + |blocks| && blocks[|seen| - |prior|].None?
       case Refused => |seen| > |prior| && !Accepts(onBlock, |seen| - 1, seen[|seen| - 1])
  }

  /** One more block. */
  lemma GotFurther(onBlock: OnBlock, prior: seq<StoredBlock>, seen: seq<StoredBlock>, blocks: Sent, i: nat,
                   r: Processed)
    requires i < |blocks| && GotThrough(onBlock, prior, seen, blocks[..i], Stored)
    requires r == if blocks[i].None? then NilBlock else if Accepts(onBlock, |seen|, blocks[i].value) then Stored
                  else Refused
    ensures match r
            case Stored => GotThrough(onBlock, prior, seen + [blocks[i].value], blocks[..i + 1], Stored)
            case Refused => GotThrough(onBlock, prior, seen + [blocks[i].value], blocks, Refused)
            case NilBlock => GotThrough(onBlock, prior, seen, blocks, NilBlock)
  {
    assert blocks[..i + 1] == blocks[..i] + [blocks[i]];
    assert forall k | 0 <= k < i :: blocks[k] == blocks[..i][k];
  }

  /** How the loop ran when it ended with `end` after beginning n rounds. The context ends once `patience` rounds
      were begun. */
  ghost predicate LoopRan(getBlocks: GetBlocks, onBlock: OnBlock, patience: nat, local: U64, target: U64,
                          end: LoopEnd, n: nat, seen: seq<StoredBlock>)
  {
    && n <= patience
    && match end
       case Finished => Ran(getBlocks, onBlock, local, target, n, seen) && Start(local, target, n) > target
       case ContextDone =>
         Ran(getBlocks, onBlock, local, target, n, seen) && Start(local, target, n) <= target && n == patience
       case NoAnswer =>
         && n > 0 && Ran(getBlocks, onBlock, local, target, n - 1, seen)
         && Start(local, target, n - 1) <= target && Answer(getBlocks, local, target, n - 1).None?
       case BadBlock(r) =>
         && n > 0 && Start(local, target, n - 1) <= target && Answer(getBlocks, local, target, n - 1).Some?
         && r != Stored
         && var before := |AllSent(getBlocks, local, target, n - 1)|;
         && before <= |seen| && Ran(getBlocks, onBlock, local, target, n - 1, seen[..before])
         && GotThrough(onBlock, seen[..before], seen, Answer(getBlocks, local, target, n - 1).value, r)
  }

  /** One more round. */
  lemma RoundRan(getBlocks: GetBlocks, onBlock: OnBlock, local: U64, target: U64, n: nat,
                 prior: seq<StoredBlock>, seen: seq<StoredBlock>)
    requires Ran(getBlocks, onBlock, local, target, n, prior) && Start(local, target, n) <= target
    requires Answer(getBlocks, local, target, n).Some?
    requires GotThrough(onBlock, prior, seen, Answer(getBlocks, local, target, n).value, Stored)
    ensures Ran(getBlocks, onBlock, local, target, n + 1, seen)
  {
    var sent, blocks := AllSent(getBlocks, local, target, n), Answer(getBlocks, local, target, n).value;
    AnsweredNext(getBlocks, local, target, n);
    assert AllSent(getBlocks, local, target, n + 1) == sent + blocks;
    AppendReceived(onBlock, sent, blocks, prior, seen);
  }

  lemma AppendReceived(onBlock: OnBlock, sent: Sent, blocks: Sent, prior: seq<StoredBlock>, seen: seq<StoredBlock>)
    requires Received(prior, sent) && |prior| == |sent| && GotThrough(onBlock, prior, seen, blocks, Stored)
    requires forall j | 0 <= j < |prior| :: Accepts(onBlock, j, prior[j])
    ensures Received(seen, sent + blocks)
    ensures forall j | 0 <= j < |seen| :: Accepts(onBlock, j, seen[j])
  {
    forall j | 0 <= j < |seen|
      ensures (sent + blocks)[j] == Some(seen[j])
      ensures Accepts(onBlock, j, seen[j])
    {
      if j < |prior| {
        assert seen[j] == prior[j];
      } else {
        assert blocks[j - |prior|] == Some(seen[j]);
      }
    }
  }

  lemma BadRound(getBlocks: GetBlocks, onBlock: OnBlock, patience: nat, local: U64, target: U64, n: nat,
                 prior: seq<StoredBlock>, seen: seq<StoredBlock>, r: Processed)
    requires n < patience && Ran(getBlocks, onBlock, local, target, n, prior) && Start(local, target, n) <= target
    requires Answer(getBlocks, local, target, n).Some? && r != Stored
    requires GotThrough(onBlock, prior, seen, Answer(getBlocks, local, target, n).value, r)
    ensures LoopRan(getBlocks, onBlock, patience, local, target, BadBlock(r), n + 1, seen)
  {
    assert seen[..|AllSent(getBlocks, local, target, n)|] == prior;
  }

  /** Rounds that ran to their end. */
  ghost function WholeRounds(end: LoopEnd, n: nat): int {
    if end.Finished? || end.ContextDone? then n else n - 1
  }

  /** The current height, when m rounds have run to their end. */
  ghost function Progress(before: U64, local: U64, target: U64, m: int): U64 {
    if m <= 0 then before else End(local, target, m - 1)
  }

  /** A loop towards a reachable target ends by itself, if the context lets it. */
  lemma EndsByItself(getBlocks: GetBlocks, onBlock: OnBlock, patience: nat, local: U64, target: U64,
                     end: LoopEnd, n: nat, seen: seq<StoredBlock>)
    requires local < target && Reachable(local, target) && patience >= Rounds(local, target)
    requires LoopRan(getBlocks, onBlock, patience, local, target, end, n, seen)
    ensures end != ContextDone
  {
    PastTarget(local, target);
    if end == ContextDone {
      NoMoreRounds(getBlocks, local, target, n);
    }
  }

  lemma SavedNext(blocks: Blocks, list: seq<StoredBlock>, block: StoredBlock)
    ensures Saved(blocks, list + [block]) == Saved(blocks, list)[block.height := block]
  {
    assert (list + [block])[..|list|] == list;
  }

  // ----- The syncer -----

  datatype Outcome =
    | UpToDate | Done | InProgress | NoTarget | NoCheckpoints | Ended(why: LoopEnd)
    | Panicked  // a nil dereference

  ghost predicate IsLatest(blocks: Blocks, height: U64) {
    && (forall h <- blocks :: h <= height)
    && if blocks == map[] then height == 0 else height in blocks
  }

  /** The first checkpoint with the largest sequence number, in a list that may hold nil. */
  ghost predicate IsLatestCheckpoint(checkpoints: seq<Option<Checkpoint>>, cp: Checkpoint) {
    exists i | 0 <= i < |checkpoints| ::
      && checkpoints[i] == Some(cp)
      && (forall j | 0 <= j < i :: checkpoints[j].Some? ==> checkpoints[j].value.sequenceNum < cp.sequenceNum)
      && (forall j | i < j < |checkpoints| ::
            checkpoints[j].Some? ==> checkpoints[j].value.sequenceNum <= cp.sequenceNum)
  }

  /** The loop over the list, or the message after it, reads a nil checkpoint: one comes after a real one, or there
      is no real one. */
  ghost predicate NilIsRead(checkpoints: seq<Option<Checkpoint>>) {
    || (exists i, j | 0 <= i < j < |checkpoints| :: checkpoints[i].Some? && checkpoints[j].None?)
    || (forall i | 0 <= i < |checkpoints| :: checkpoints[i].None?)
  }

  /** What a caller learns from a loop that ran; `nil` is the outcome when the provider sent a nil block. */
  ghost predicate RunEnded(getBlocks: GetBlocks, onBlock: OnBlock, patience: nat, local: U64, target: U64, r: Outcome,
                           nil: Outcome, n: nat, seen: seq<StoredBlock>, current: U64)
  {
    exists end ::
      && LoopRan(getBlocks, onBlock, patience, local, target, end, n, seen)
      && current == Progress(local, local, target, WholeRounds(end, n))
      && r == if end == Finished then Done else if end == BadBlock(NilBlock) then nil else Ended(end)
  }

  /** The first m rounds were whole: what was asked for in them was sent, stored and accepted. */
  ghost predicate WholeUpTo(getBlocks: GetBlocks, onBlock: OnBlock, local: U64, target: U64, m: nat,
                            seen: seq<StoredBlock>)
  {
    var count := |AllSent(getBlocks, local, target, m)|;
    count <= |seen| && Ran(getBlocks, onBlock, local, target, m, seen[..count])
  }

  lemma BadIsNotWhole(getBlocks: GetBlocks, onBlock: OnBlock, patience: nat, local: U64, target: U64, end: LoopEnd,
                      n: nat, seen: seq<StoredBlock>, other: seq<StoredBlock>)
    requires LoopRan(getBlocks, onBlock, patience, local, target, end, n, seen) && end.BadBlock?
    ensures !Ran(getBlocks, onBlock, local, target, n, other)
  {
    var sent, answer := AllSent(getBlocks, local, target, n - 1), Answer(getBlocks, local, target, n - 1).value;
    var all := AllSent(getBlocks, local, target, n);
    assert all == sent + answer;
    var at := if end.why == NilBlock then |seen| else |seen| - 1;
    assert all[at] == answer[at - |sent|];
  }

  /** However the loop ended, the current height is the end of the last whole round, or the start if there is none. */
  lemma CurrentIsWhole(getBlocks: GetBlocks, onBlock: OnBlock, patience: nat, local: U64, target: U64, end: LoopEnd,
                       n: nat, seen: seq<StoredBlock>, current: U64) returns (m: nat)
    requires LoopRan(getBlocks, onBlock, patience, local, target, end, n, seen)
    requires current == Progress(local, local, target, WholeRounds(end, n))
    ensures current == if m == 0 then local else End(local, target, m - 1)
    ensures m <= n && WholeUpTo(getBlocks, onBlock, local, target, m, seen)
    ensures m < n ==> m == n - 1 && forall other :: !Ran(getBlocks, onBlock, local, target, n, other)
  {
    m := WholeRounds(end, n);
    var count := |AllSent(getBlocks, local, target, m)|;
    if !end.BadBlock? {
      assert seen[..count] == seen;
    }
    forall other ensures m < n ==> !Ran(getBlocks, onBlock, local, target, n, other) {
      if end.BadBlock? {
        BadIsNotWhole(getBlocks, onBlock, patience, local, target, end, n, seen, other);
      } else if end.NoAnswer? {
        assert !Answered(getBlocks, local, target, n - 1);
      }
    }
  }

  /** A sync towards a reachable target ends by itself when the context waits for every batch. */
  lemma SyncEnds(getBlocks: GetBlocks, onBlock: OnBlock, patience: nat, local: U64, target: U64, r: Outcome,
                 nil: Outcome, n: nat, seen: seq<StoredBlock>, current: U64)
    requires local < target && Reachable(local, target) && nil != Ended(ContextDone)
    requires patience >= Rounds(local, target)
    requires RunEnded(getBlocks, onBlock, patience, local, target, r, nil, n, seen, current)
    ensures r != Ended(ContextDone)
  {
    var end :| && LoopRan(getBlocks, onBlock, patience, local, target, end, n, seen)
               && r == if end == Finished then Done else if end == BadBlock(NilBlock) then nil else Ended(end);
    EndsByItself(getBlocks, onBlock, patience, local, target, end, n, seen);
  }

  /** When it succeeds with a faithful provider, the callback saw the gap, and the store holds it. */
  lemma SyncCoversGap(getBlocks: GetBlocks, onBlock: OnBlock, patience: nat, local: U64, target: U64,
                      nil: Outcome, n: nat, seen: seq<StoredBlock>, current: U64, blocks: Blocks)
    requires local < target && Reachable(local, target) && nil != Done && Faithful(getBlocks)
    requires RunEnded(getBlocks, onBlock, patience, local, target, Done, nil, n, seen, current)
    ensures n == Rounds(local, target) && IsGap(seen, local, target) && current == target
    ensures forall j | 0 <= j < |seen| :: onBlock.Some? ==> onBlock.value(j, seen[j])
    ensures forall h: U64 | local < h <= target ::
              h in Saved(blocks, seen) && Saved(blocks, seen)[h] == seen[h - local - 1]
  {
    assert LoopRan(getBlocks, onBlock, patience, local, target, Finished, n, seen);
    CompletedIsGap(getBlocks, onBlock, local, target, n, seen);
    PastTarget(local, target);
    StoreHoldsWholeGap(blocks, local, target, seen);
  }

  lemma StoreHoldsWholeGap(blocks: Blocks, local: U64, target: U64, seen: seq<StoredBlock>)
    requires local < target && IsGap(seen, local, target)
    ensures forall h: U64 | local < h <= target ::
              h in Saved(blocks, seen) && Saved(blocks, seen)[h] == seen[h - local - 1]
  {
    forall h: U64 | local < h <= target
      ensures h in Saved(blocks, seen) && Saved(blocks, seen)[h] == seen[h - local - 1]
    {
      StoreHoldsGap(blocks, local, target, seen, h);
    }
  }

  class StateSyncer {
    const store: MemoryStore
    var syncing: bool
    var targetHeight: U64
    var currentHeight: U64

    constructor (store: MemoryStore)
      ensures this.store == store && !syncing && targetHeight == 0 && currentHeight == 0
    {
      this.store := store;
      syncing, targetHeight, currentHeight := false, 0, 0;
    }

    /** `j` blocks were received before this one. */
    method ProcessBlock(block: Option<StoredBlock>, onBlock: OnBlock, j: nat) returns (r: Processed)
      requires store.Valid()
      modifies store`blocks
      ensures store.Valid()
      ensures r == if block.None? then NilBlock
                   else if onBlock.Some? && !onBlock.value(j, block.value) then Refused else Stored
      ensures store.blocks == if block.None? then old(store.blocks)
                              else old(store.blocks)[block.value.height := block.value]
    {
      var ok := store.SaveBlock(block);
      if !ok {
        return NilBlock;
      }
      if onBlock.Some? && !onBlock.value(j, block.value) {
        return Refused;
      }
      return Stored;
    }

    /** The inner loop over one answer. */
    method ProcessBlocks(blocks: Sent, onBlock: OnBlock, count: nat, ghost before: Blocks,
                         ghost prior: seq<StoredBlock>)
      returns (r: Processed, count': nat, ghost seen: seq<StoredBlock>)
      requires store.Valid() && store.blocks == Saved(before, prior) && count == |prior|
      modifies store`blocks
      ensures store.Valid() && store.blocks == Saved(before, seen) && count' == |seen|
      ensures GotThrough(onBlock, prior, seen, blocks, r)
    {
      seen := prior;
      count' := count;
      for i := 0 to |blocks|
        invariant store.Valid() && store.blocks == Saved(before, seen)
        invariant count' == |seen| == |prior| + i
        invariant GotThrough(onBlock, prior, seen, blocks[..i], Stored)
      {
        r := ProcessBlock(blocks[i], onBlock, count');
        GotFurther(onBlock, prior, seen, blocks, i, r);
        if r == NilBlock {
          return;
        }
        SavedNext(before, seen, blocks[i].value);
        seen := seen + [blocks[i].value];
        count' := count' + 1;
        if r == Refused {
          return;
        }
      }
      r := Stored;
      assert blocks[..|blocks|] == blocks;
    }

    /** One round of the loop; None if it ran to its end. */
    method SyncBatch(ghost local: U64, target: U64, height: U64, round: nat, getBlocks: GetBlocks, onBlock: OnBlock,
                     ghost patience: nat, count: nat, ghost before: Blocks, ghost prior: seq<StoredBlock>)
      returns (end: Option<LoopEnd>, count': nat, ghost seen: seq<StoredBlock>)
      requires store.Valid() && store.blocks == Saved(before, prior) && count == |prior| && round < patience
      requires height == Start(local, target, round) <= target
      requires Ran(getBlocks, onBlock, local, target, round, prior)
      modifies `currentHeight, store`blocks
      ensures store.Valid() && store.blocks == Saved(before, seen) && count' == |seen|
      ensures end.None? ==> Ran(getBlocks, onBlock, local, target, round + 1, seen)
                            && currentHeight == End(local, target, round)
      ensures end.Some? ==> LoopRan(getBlocks, onBlock, patience, local, target, end.value, round + 1, seen)
                            && !end.value.Finished? && !end.value.ContextDone? && currentHeight == old(currentHeight)
    {
      var endHeight := BatchEnd(height, target);
      assert endHeight == End(local, target, round);
      var blocks := getBlocks(round, height, endHeight);
      if blocks.None? {
        return Some(NoAnswer), count, prior;
      }
      var r: Processed;
      r, count', seen := ProcessBlocks(blocks.value, onBlock, count, before, prior);
      if r != Stored {
        BadRound(getBlocks, onBlock, patience, local, target, round, prior, seen, r);
        return Some(BadBlock(r)), count', seen;
      }
      RoundRan(getBlocks, onBlock, local, target, round, prior, seen);
      currentHeight := endHeight;
      end := None;
    }

    /** The loop of Sync and of SyncFromCheckpoint. */
    method SyncRange(local: U64, target: U64, getBlocks: GetBlocks, onBlock: OnBlock, patience: nat)
      returns (end: LoopEnd, ghost n: nat, ghost seen: seq<StoredBlock>)
      requires local < target && store.Valid()
      modifies `currentHeight, store`blocks
      ensures store.Valid() && store.blocks == Saved(old(store.blocks), seen)
      ensures LoopRan(getBlocks, onBlock, patience, local, target, end, n, seen)
      ensures currentHeight == Progress(old(currentHeight), local, target, WholeRounds(end, n))
    {
      ghost var before := store.blocks;
      seen := [];
      var round, count := 0, 0;
      var height := local + 1;
      while height <= target
        invariant store.Valid() && store.blocks == Saved(before, seen)
        invariant round <= patience && count == |seen|
        invariant height == Start(local, target, round)
        invariant Ran(getBlocks, onBlock, local, target, round, seen)
        invariant currentHeight == Progress(old(currentHeight), local, target, round)
        decreases patience - round
      {
        if round == patience {
          return ContextDone, round, seen;
        }
        var stop: Option<LoopEnd>;
        stop, count, seen := SyncBatch(local, target, height, round, getBlocks, onBlock, patience, count, before, seen);
        if stop.Some? {
          return stop.value, round + 1, seen;
        }
        height := Add(BatchEnd(height, target), 1);
        assert height == Start(local, target, round + 1);
        round := round + 1;
      }
      return Finished, round, seen;
    }

    method Sync(getBlocks: GetBlocks, latest: Option<U64>, onBlock: OnBlock, patience: nat)
      returns (r: Outcome, ghost local: U64, ghost n: nat, ghost seen: seq<StoredBlock>)
      requires store.Valid()
      modifies this, store`blocks
      ensures store.Valid() && store.blocks == Saved(old(store.blocks), seen)
      ensures old(syncing) ==> r == InProgress && seen == [] && unchanged(this)
      ensures !old(syncing) ==> !syncing && IsLatest(old(store.blocks), local)
                                && targetHeight == if latest.Some? then latest.value else old(targetHeight)
      ensures !old(syncing) && latest.None? ==> r == NoTarget && seen == [] && currentHeight == local
      ensures !old(syncing) && latest.Some? && local >= latest.value ==>
                r == UpToDate && seen == [] && currentHeight == local
      ensures !old(syncing) && latest.Some? && local < latest.value ==>
                RunEnded(getBlocks, onBlock, patience, local, latest.value, r, Panicked, n, seen, currentHeight)
    {
      local, n, seen := 0, 0, [];
      if syncing {
        return InProgress, local, n, seen;
      }
      syncing := true;
      var localHeight := store.GetLatestBlockHeight();
      local := localHeight;
      currentHeight := localHeight;
      if latest.None? {
        syncing := false;
        return NoTarget, local, n, seen;
      }
      targetHeight := latest.value;
      if localHeight >= latest.value {
        syncing := false;
        return UpToDate, local, n, seen;
      }
      var end: LoopEnd;
      end, n, seen := SyncRange(localHeight, latest.value, getBlocks, onBlock, patience);
      syncing := false;
      r := if end == Finished then Done else if end == BadBlock(NilBlock) then Panicked else Ended(end);
    }

    method SyncFromCheckpoint(getBlocks: GetBlocks, checkpoints: Option<seq<Option<Checkpoint>>>,
                              latest: Option<U64>,
                              onBlock: OnBlock, patience: nat)
      returns (r: Outcome, ghost cp: Checkpoint, ghost n: nat, ghost seen: seq<StoredBlock>)
      requires store.Valid()
      modifies this, store
      ensures store.Valid() && store.blocks == Saved(old(store.blocks), seen) && targetHeight == old(targetHeight)
      ensures old(syncing) ==> r == InProgress && seen == [] && unchanged(this) && unchanged(store)
      ensures !old(syncing) ==> !syncing
      ensures !old(syncing) && checkpoints.None? ==> r == NoCheckpoints && seen == [] && unchanged(store)
      ensures !old(syncing) && checkpoints == Some([]) ==> r == InProgress && seen == [] && unchanged(store)
      ensures !old(syncing) && checkpoints.Some? && checkpoints.value != [] && NilIsRead(checkpoints.value) ==>
                r == Panicked && seen == [] && unchanged(store)
      ensures !old(syncing) && checkpoints.Some? && checkpoints.value != [] && !NilIsRead(checkpoints.value) ==>
                && IsLatestCheckpoint(checkpoints.value, cp)
                && store.checkpoints == old(store.checkpoints)[cp.sequenceNum := cp]
                && var local := cp.sequenceNum;
                   if latest.None? then r == NoTarget && seen == [] && currentHeight == local
                   else if local >= latest.value then r == UpToDate && seen == [] && currentHeight == local
                   else RunEnded(getBlocks, onBlock, patience, local, latest.value, r, Ended(BadBlock(NilBlock)), n,
                                 seen, currentHeight)
    {
      cp, n, seen := Checkpoint(0, [], []), 0, [];
      if syncing {
        return InProgress, cp, n, seen;
      }
      syncing := true;
      if checkpoints.None? {
        syncing := false;
        return NoCheckpoints, cp, n, seen;
      }
      if |checkpoints.value| == 0 {
        ghost var local: U64;
        r, local, n, seen := Sync(getBlocks, latest, onBlock, patience);
        syncing := false;
        return r, cp, n, seen;
      }
      var latestCheckpoint := LatestCheckpoint(checkpoints.value);
      if latestCheckpoint.None? {
        syncing := false;
        return Panicked, cp, n, seen;
      }
      cp := latestCheckpoint.value;
      var saved := store.SaveCheckpoint(latestCheckpoint);
      var localHeight := latestCheckpoint.value.sequenceNum;
      currentHeight := localHeight;
      if latest.None? {
        syncing := false;
        return NoTarget, cp, n, seen;
      }
      if localHeight >= latest.value {
        syncing := false;
        return UpToDate, cp, n, seen;
      }
      var end: LoopEnd;
      end, n, seen := SyncRange(localHeight, latest.value, getBlocks, onBlock, patience);
      syncing := false;
      r := if end == Finished then Done else Ended(end);
    }
  }

  /** The loop over the checkpoints; None is a nil dereference there or right after. */
  method LatestCheckpoint(checkpoints: seq<Option<Checkpoint>>) returns (latest: Option<Checkpoint>)
    ensures latest.None? <==> NilIsRead(checkpoints)
    ensures latest.Some? ==> IsLatestCheckpoint(checkpoints, latest.value)
  {
    latest := None;
    ghost var at := 0;
    for i := 0 to |checkpoints|
      invariant latest.None? ==> forall j | 0 <= j < i :: checkpoints[j].None?
      invariant latest.Some? ==> 0 <= at < i && checkpoints[at] == latest
      invariant latest.Some? ==> forall j | 0 <= j < at ::
                  checkpoints[j].Some? ==> checkpoints[j].value.sequenceNum < latest.value.sequenceNum
      invariant latest.Some? ==> forall j | at < j < i ::
                  checkpoints[j].Some? ==> checkpoints[j].value.sequenceNum <= latest.value.sequenceNum
      invariant forall j, k | 0 <= j < k < i && checkpoints[j].Some? :: checkpoints[k].Some?
    {
      if latest.None? {
        latest := checkpoints[i];
        at := i;
      } else if checkpoints[i].None? {
        return None;
      } else if checkpoints[i].value.sequenceNum > latest.value.sequenceNum {
        latest := checkpoints[i];
        at := i;
      }
    }
  }
}
