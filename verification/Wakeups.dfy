/** Going to sleep and being woken: no finalized block is missed, and every gap is being fetched. */
module Wakeups {
  import opened Bytes
  import opened Wrappers
  import opened Blocks
  import opened Chain
  import opened System
  import Key
  import S = Syncer
  import F = Finalizer

  // ----- what is requested

  /**
   * Heights are requested only in the window of 20 above the last processed one; the resolver looks
   * for no height outside it; and a requested height is still looked for or already stored.
   */
  ghost predicate Requests(t: S.State, processed: nat) {
    && (forall h :: h in t.requestedBlocks ==> processed < h <= processed + 20)
    && (forall h :: Key.Finalized(h) in t.outstanding ==> h in t.requestedBlocks)
    && (forall h :: h in t.requestedBlocks ==> Key.Finalized(h) in t.outstanding || h in t.blocks)
  }

  lemma RequestsAfterRepair(t: S.State, processed: nat, start: Option<nat>, found: Option<Block>)
    requires Requests(t, processed) && (start.Some? ==> start.value in t.blocks)
    ensures Requests(S.AfterRepair(t, processed + 1, start, found).0, processed)
  {
  }

  lemma RequestsAfterDeliver(cfg: Config, t: S.State, processed: nat, key: Key.Value, bytes: seq<Byte>)
    requires Requests(t, processed)
    ensures Requests(S.AfterDeliver(cfg.p, t, key, bytes, cfg.capacity), processed)
  {
  }

  lemma RequestsSync(cfg: Config, t: S.State, processed: nat, e: Event)
    requires SyncEvent(e) && Requests(t, processed)
    ensures Requests(SyncStep(cfg, t, e), processed)
  {
    if e.Deliver? { RequestsAfterDeliver(cfg, t, processed, e.key, e.bytes); }
  }

  lemma RequestsJoint(cfg: Config, s: Sys, e: Event)
    requires InStep(s) && JointEvent(e) && JointEnabled(s, e) && Requests(s.sync, s.processed)
    ensures Requests(JointStep(cfg, s, e).sync, JointStep(cfg, s, e).processed)
  {
    if e.ServeRepair? { RequestsAfterRepair(s.sync, s.processed, e.start, e.found); }
  }

  lemma RequestsAfter(cfg: Config, s: Sys, e: Event)
    requires InStep(s) && Enabled(cfg, s, e) && Requests(s.sync, s.processed)
    ensures Requests(After(cfg, s, e).sync, After(cfg, s, e).processed)
  {
    if SyncEvent(e) { RequestsSync(cfg, s.sync, s.processed, e); }
    else if !FinEvent(e) { RequestsJoint(cfg, s, e); }
  }

  lemma {:induction false} WindowSize(heights: set<nat>, low: nat, width: nat)
    requires forall h :: h in heights ==> low < h <= low + width
    ensures |heights| <= width
  {
    if width > 0 {
      var top := low + width;
      WindowSize(heights - {top}, low, width - 1);
      assert heights <= (heights - {top}) + {top};
      assert |heights| <= |(heights - {top}) + {top}|  by {
        assert top in heights ==> heights == (heights - {top}) + {top};
        assert top !in heights ==> heights == heights - {top};
      }
    } else {
      assert heights == {} by {
        if h :| h in heights { assert false; }
      }
    }
  }

  // ----- what is being committed

  /** The block in hand is in the store at the next height. */
  ghost predicate InHandStored(s: Sys) {
    var next := s.fin.Next();
    match s.fin.pc
    case Deciding(reply) => reply.Some? ==> next in s.sync.blocks
    case Committing(_) => next in s.sync.blocks
    case Committed(_) => next in s.sync.blocks
    case Published(_) => next in s.sync.blocks
    case Persisted(_) => next in s.sync.blocks
    case _ => true
  }

  lemma BlocksGrow(cfg: Config, t: S.State, e: Event)
    requires cfg.capacity >= 1 && SyncEvent(e)
    ensures t.blocks.Keys <= SyncStep(cfg, t, e).blocks.Keys
    ensures SyncStep(cfg, t, e).tokens >= t.tokens
    ensures SyncStep(cfg, t, e).tokens > 0 || SyncStep(cfg, t, e).blocks == t.blocks
  {
  }

  lemma InHandStoredJoint(cfg: Config, s: Sys, e: Event)
    requires InStep(s) && JointEvent(e) && JointEnabled(s, e) && InHandStored(s)
    ensures InHandStored(JointStep(cfg, s, e))
  {
  }

  lemma InHandStoredAfter(cfg: Config, s: Sys, e: Event)
    requires cfg.capacity >= 1 && InStep(s) && Enabled(cfg, s, e) && InHandStored(s)
    ensures InHandStored(After(cfg, s, e))
  {
    if SyncEvent(e) { BlocksGrow(cfg, s.sync, e); }
    else if !FinEvent(e) { InHandStoredJoint(cfg, s, e); }
  }

  // ----- no lost wake-up

  /** Between a look at the store and going back for the next. */
  predicate Decided(pc: F.Pc) {
    !pc.AtHead? && !pc.AwaitGet? && !(pc.Repaired? && pc.progress)
  }

  /** The next block, as it was found, while the finalizer heads for its wait. */
  ghost predicate Remembers(s: Sys) {
    var seen := S.At(s.seen, s.fin.Next());
    match s.fin.pc
    case Deciding(reply) => reply == seen
    case Gap(rejected) => rejected == seen
    case AwaitRepair(rejected) => rejected == seen
    case Repaired(rejected, _) => rejected == seen
    case Waiting(rejected) => rejected == seen
    case _ => true
  }

  /** If the store has changed since the finalizer looked, a token is waiting for it. */
  ghost predicate NoLostWakeup(s: Sys) {
    Decided(s.fin.pc) ==> s.sync.tokens > 0 || s.sync.blocks == s.seen
  }

  lemma NoLostWakeupJoint(cfg: Config, s: Sys, e: Event)
    requires InStep(s) && JointEvent(e) && JointEnabled(s, e) && NoLostWakeup(s)
    ensures NoLostWakeup(JointStep(cfg, s, e))
  {
  }

  lemma NoLostWakeupAfter(cfg: Config, s: Sys, e: Event)
    requires Sensible(cfg) && InStep(s) && Enabled(cfg, s, e) && NoLostWakeup(s)
    ensures NoLostWakeup(After(cfg, s, e))
  {
    if SyncEvent(e) { BlocksGrow(cfg, s.sync, e); }
    else if !FinEvent(e) { NoLostWakeupJoint(cfg, s, e); }
  }

  lemma RemembersJoint(cfg: Config, s: Sys, e: Event)
    requires InStep(s) && JointEvent(e) && JointEnabled(s, e) && Remembers(s)
    ensures Remembers(JointStep(cfg, s, e))
  {
  }

  lemma RemembersAfter(cfg: Config, s: Sys, e: Event)
    requires InStep(s) && Enabled(cfg, s, e) && Remembers(s)
    ensures Remembers(After(cfg, s, e))
  {
    if JointEvent(e) { RemembersJoint(cfg, s, e); }
  }

  // ----- every gap is being fetched

  /**
   * Above the first gap after `next` the store goes on at `start`: then the block below `start` is
   * looked for by digest, and every height that Repair covers has been requested.
   */
  ghost predicate Covered(t: S.State, next: nat) {
    forall start: nat :: S.NextStart(t.blocks, next, Some(start)) ==>
      && Key.Digest(t.blocks[start].value.parent) in t.outstanding
      && forall h :: next <= h < start && h < next + 20 ==> h in t.requestedBlocks
  }

  predicate HeadsForSleep(pc: F.Pc) {
    (pc.Repaired? && !pc.progress) || pc.Waiting?
  }

  ghost predicate SleepsCovered(s: Sys) {
    HeadsForSleep(s.fin.pc) ==>
      s.sync.tokens > 0 || Covered(s.sync, s.fin.Next())
  }

  lemma OneNextStart(a: S.Archive<Block>, n: nat, x: nat, y: nat)
    requires S.NextStart(a, n, Some(x)) && S.NextStart(a, n, Some(y))
    ensures x == y
  {
  }

  /** Repair has asked for the block below the stretch, and for each height short of it, at most 20. */
  lemma CoveredAfterRepair(t: S.State, next: nat, start: Option<nat>, found: Option<Block>)
    requires next > 0 && S.NextStart(t.blocks, next, start) && Requests(t, next - 1)
    requires !S.AfterRepair(t, next, start, found).1
    ensures Covered(S.AfterRepair(t, next, start, found).0, next)
    ensures var u := S.AfterRepair(t, next, start, found).0;
            start.Some? ==> forall h :: next <= h < start.value && h < next + 20 ==>
              h in u.requestedBlocks && (Key.Finalized(h) in u.outstanding || h in u.blocks)
  {
    var u := S.AfterRepair(t, next, start, found).0;
    RequestsAfterRepair(t, next - 1, start, found);
    forall x: nat | S.NextStart(u.blocks, next, Some(x))
      ensures Key.Digest(u.blocks[x].value.parent) in u.outstanding
      ensures forall h :: next <= h < x && h < next + 20 ==> h in u.requestedBlocks
    {
      if start.Some? { OneNextStart(t.blocks, next, start.value, x); }
    }
  }

  lemma StaysCovered(t: S.State, u: S.State, next: nat)
    requires Covered(t, next) && u.blocks == t.blocks
    requires t.requestedBlocks <= u.requestedBlocks
    requires forall d :: Key.Digest(d) in t.outstanding ==> Key.Digest(d) in u.outstanding
    ensures Covered(u, next)
  {
  }

  /** No message to the syncer takes back a request by digest or by height while nothing is stored. */
  lemma NoFetchDropped(cfg: Config, t: S.State, e: Event)
    requires cfg.capacity >= 1 && SyncEvent(e) && SyncStep(cfg, t, e).tokens == 0
    ensures var u := SyncStep(cfg, t, e);
            && u.blocks == t.blocks && t.tokens == 0
            && t.requestedBlocks <= u.requestedBlocks
            && forall d :: Key.Digest(d) in t.outstanding ==> Key.Digest(d) in u.outstanding
  {
  }

  lemma SleepsCoveredSync(cfg: Config, s: Sys, e: Event)
    requires cfg.capacity >= 1 && SyncEvent(e) && SleepsCovered(s)
    ensures SleepsCovered(s.(sync := SyncStep(cfg, s.sync, e)))
  {
    var u := SyncStep(cfg, s.sync, e);
    if HeadsForSleep(s.fin.pc) && u.tokens == 0 {
      NoFetchDropped(cfg, s.sync, e);
      StaysCovered(s.sync, u, s.fin.Next());
    }
  }

  lemma SleepsCoveredJoint(cfg: Config, s: Sys, e: Event)
    requires InStep(s) && JointEvent(e) && JointEnabled(s, e) && SleepsCovered(s) && Requests(s.sync, s.processed)
    ensures SleepsCovered(JointStep(cfg, s, e))
  {
    if e.ServeRepair? && !S.AfterRepair(s.sync, s.fin.Next(), e.start, e.found).1 {
      CoveredAfterRepair(s.sync, s.fin.Next(), e.start, e.found);
    }
  }

  lemma SleepsCoveredAfter(cfg: Config, s: Sys, e: Event)
    requires Sensible(cfg) && InStep(s) && Enabled(cfg, s, e) && SleepsCovered(s)
    requires Requests(s.sync, s.processed)
    ensures SleepsCovered(After(cfg, s, e))
  {
    if SyncEvent(e) { SleepsCoveredSync(cfg, s, e); }
    else if !FinEvent(e) { SleepsCoveredJoint(cfg, s, e); }
  }

  // ----- what sleeping means

  /**
   * Asleep without a token: the next block is not stored, or is the one the execution layer refused;
   * and if the store goes on above, then the block below that stretch is being fetched by its digest,
   * it is above genesis, and every missing height of the window is being fetched by its height.
   */
  lemma SoundSleep(cfg: Config, s: Sys, start: nat)
    requires Sensible(cfg) && Canon(cfg, s) && InStep(s) && Requests(s.sync, s.processed)
    requires NoLostWakeup(s) && Remembers(s) && SleepsCovered(s)
    requires s.fin.pc.Waiting? && s.sync.tokens == 0
    ensures S.At(s.sync.blocks, s.fin.Next()) == s.fin.pc.rejected
    ensures S.NextStart(s.sync.blocks, s.fin.Next(), Some(start)) ==>
              && start - 1 >= 1
              && OnChain(cfg.w, start - 1, s.sync.blocks[start].value.parent)
              && Key.Digest(s.sync.blocks[start].value.parent) in s.sync.outstanding
              && forall h :: s.fin.Next() <= h < start && h < s.fin.Next() + 20 ==>
                   h in s.sync.requestedBlocks && (Key.Finalized(h) in s.sync.outstanding || h in s.sync.blocks)
  {
    if S.NextStart(s.sync.blocks, s.fin.Next(), Some(start)) {
      ParentOfStart(cfg, s.sync.blocks, start);
    }
  }
}
