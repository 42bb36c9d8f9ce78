/** What the execution layer is told, over lives of the process, and what the application reads. */
module Commits {
  import opened Bytes
  import opened Wrappers
  import opened Blocks
  import opened Chain
  import opened System
  import F = Finalizer

  /** The execution-layer hash of the chain at a height; at height 0 this is the genesis hash. */
  function EthHash(w: World, h: nat): Bytes32
    requires h < |w.chain|
  {
    w.chain[h].EthBlockHash()
  }

  /** One commit after another: the next height, or the same height again in a later life. */
  predicate Follows(a: F.Commit, b: F.Commit) {
    b.height == a.height + 1 || (b.height == a.height && a.life < b.life)
  }

  /**
   * The heads sent are those of the finalized chain, from height 1 on, none skipped; a height is
   * repeated only by a later life of the process.
   */
  ghost predicate Faithful(w: World, log: seq<F.Commit>) {
    && (log != [] ==> log[0].height == 1)
    && (forall i :: 0 <= i < |log| ==> 0 < log[i].height < |w.chain| && log[i].head == EthHash(w, log[i].height))
    && (forall i :: 0 < i < |log| ==> Follows(log[i - 1], log[i]))
  }

  function Top(log: seq<F.Commit>): nat {
    if log == [] then 0 else log[|log| - 1].height
  }

  /** The last commit was made by an earlier life, whose record of it was lost. */
  predicate Lost(f: F.State) {
    f.log != [] && f.log[|f.log| - 1].life < f.life
  }

  /** The persisted index is the last height committed, or one less if the process stopped in between. */
  ghost predicate Recorded(f: F.State) {
    && (f.log != [] ==> f.log[|f.log| - 1].life <= f.life)
    && match f.pc
       case Committed(_) => Top(f.log) == f.persisted + 1
       case Published(_) => Top(f.log) == f.persisted + 1
       case _ => Top(f.log) == f.persisted || (Top(f.log) == f.persisted + 1 && Lost(f))
  }

  /** The shared forkchoice is the chain at the indexed height, once this life has published one. */
  ghost predicate HeadShown(cfg: Config, f: F.State)
    requires f.lastIndexed < |cfg.w.chain|
  {
    match f.pc
    case Published(_) => f.Next() < |cfg.w.chain| && f.head == EthHash(cfg.w, f.Next()) && f.live
    case Persisted(_) => f.Next() < |cfg.w.chain| && f.head == EthHash(cfg.w, f.Next()) && f.live
    case _ =>
      && f.head == EthHash(cfg.w, if f.live then f.lastIndexed else 0)
      && (f.pc.Notifying? || f.pc.Reporting? ==> f.live)
  }

  lemma CarriedHash(cfg: Config, b: Block, h: nat)
    requires Sensible(cfg) && Carried(cfg.w, h, b)
    ensures h < |cfg.w.chain| && b.EthBlockHash() == EthHash(cfg.w, h)
  {
    PlaceOnChain(cfg.p, cfg.w, b, h);
  }

  lemma AppendFaithful(w: World, log: seq<F.Commit>, c: F.Commit)
    requires Faithful(w, log) && 0 < c.height < |w.chain| && c.head == EthHash(w, c.height)
    requires c.height == Top(log) + 1 || (log != [] && Follows(log[|log| - 1], c))
    ensures Faithful(w, log + [c])
  {
  }

  lemma FaithfulFin(cfg: Config, f: F.State, processed: nat, e: Event)
    requires Sensible(cfg) && CanonFin(cfg.w, f) && FinInStep(f, processed) && FinEvent(e) && FinEnabled(f, e)
    requires Faithful(cfg.w, f.log) && Recorded(f)
    ensures Faithful(cfg.w, FinStep(f, e).log)
  {
    if e.CommitHead? {
      CarriedHash(cfg, f.pc.block, f.Next());
      AppendFaithful(cfg.w, f.log, F.Commit(f.Next(), f.pc.block.EthBlockHash(), f.life));
    }
  }

  lemma FaithfulAfter(cfg: Config, s: Sys, e: Event)
    requires Sensible(cfg) && CanonFin(cfg.w, s.fin) && InStep(s) && Enabled(cfg, s, e)
    requires Faithful(cfg.w, s.fin.log) && Recorded(s.fin)
    ensures Faithful(cfg.w, After(cfg, s, e).fin.log)
  {
    if FinEvent(e) { FaithfulFin(cfg, s.fin, s.processed, e); } else { OthersKeepLog(cfg, s, e); }
  }

  lemma OthersKeepLog(cfg: Config, s: Sys, e: Event)
    requires !FinEvent(e) && Enabled(cfg, s, e)
    ensures After(cfg, s, e).fin.log == s.fin.log
  {
  }

  lemma RecordedFin(f: F.State, processed: nat, e: Event)
    requires FinInStep(f, processed) && FinEvent(e) && FinEnabled(f, e) && Recorded(f)
    ensures Recorded(FinStep(f, e))
  {
  }

  lemma RecordedJoint(cfg: Config, s: Sys, e: Event)
    requires InStep(s) && JointEvent(e) && JointEnabled(s, e) && Recorded(s.fin)
    ensures Recorded(JointStep(cfg, s, e).fin)
  {
  }

  lemma RecordedAfter(cfg: Config, s: Sys, e: Event)
    requires InStep(s) && Enabled(cfg, s, e) && Recorded(s.fin)
    ensures Recorded(After(cfg, s, e).fin)
  {
    if FinEvent(e) { RecordedFin(s.fin, s.processed, e); }
    else if !SyncEvent(e) { RecordedJoint(cfg, s, e); }
  }

  lemma HeadShownFin(cfg: Config, f: F.State, processed: nat, e: Event)
    requires Sensible(cfg) && CanonFin(cfg.w, f) && FinInStep(f, processed) && FinEvent(e) && FinEnabled(f, e)
    requires HeadShown(cfg, f) && CanonFin(cfg.w, FinStep(f, e))
    ensures HeadShown(cfg, FinStep(f, e))
  {
    if e.Publish? { CarriedHash(cfg, f.pc.block, f.Next()); }
  }

  lemma HeadShownJoint(cfg: Config, s: Sys, e: Event)
    requires Ancestry(cfg.w.genesis, cfg.w.chain) && cfg.w.genesis.height == 0
    requires CanonFin(cfg.w, s.fin) && JointEvent(e) && JointEnabled(s, e) && HeadShown(cfg, s.fin)
    requires InStep(s)
    ensures JointStep(cfg, s, e).fin.lastIndexed < |cfg.w.chain| && HeadShown(cfg, JointStep(cfg, s, e).fin)
  {
  }

  lemma HeadShownAfter(cfg: Config, s: Sys, e: Event)
    requires Sensible(cfg) && CanonFin(cfg.w, s.fin) && InStep(s) && Enabled(cfg, s, e)
    requires CanonFin(cfg.w, After(cfg, s, e).fin) && HeadShown(cfg, s.fin)
    ensures HeadShown(cfg, After(cfg, s, e).fin)
  {
    if FinEvent(e) { HeadShownFin(cfg, s.fin, s.processed, e); }
    else if !SyncEvent(e) { HeadShownJoint(cfg, s, e); }
  }

  /**
   * Seen from outside: dropping each commit that repeats the one before it leaves exactly the heads of
   * the chain at heights 1, 2, 3 and so on up to the last.
   */
  function WithoutRepeats(log: seq<F.Commit>): seq<Bytes32> {
    if log == [] then []
    else
      var last, init := log[|log| - 1], log[..|log| - 1];
      WithoutRepeats(init) + if Top(init) == last.height then [] else [last.head]
  }

  function ChainHeads(w: World, n: nat): seq<Bytes32>
    requires n < |w.chain|
  {
    if n == 0 then [] else ChainHeads(w, n - 1) + [EthHash(w, n)]
  }

  lemma {:induction false} HeadsAreTheChain(w: World, log: seq<F.Commit>)
    requires Faithful(w, log) && w.chain != []
    ensures Top(log) < |w.chain| && WithoutRepeats(log) == ChainHeads(w, Top(log))
  {
    if log != [] {
      var init := log[..|log| - 1];
      HeadsAreTheChain(w, init);
      if init != [] { assert Follows(log[|log| - 2], log[|log| - 1]); }
    }
  }
}
