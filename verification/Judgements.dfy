/** What the execution layer says of a block decides whether it is committed, and a commit is done whole. */
module Judgements {
  import opened Bytes
  import opened Wrappers
  import opened Blocks
  import opened Chain
  import opened System
  import opened Waiters
  import opened Runs
  import S = Syncer
  import F = Finalizer

  // ----- no commit without a verdict

  /** Between the two no other verdict, commit or crash. */
  predicate NextVerdict(events: seq<Event>, j: nat, k: nat) {
    j < k <= |events| && forall m :: j < m < k ==> !events[m].Judge? && !events[m].CommitHead? && !events[m].Crash?
  }

  lemma InHandFrom(cfg: Config, s: Sys, e: Event)
    requires Enabled(cfg, s, e) && After(cfg, s, e).fin.pc.Committing?
    ensures (s.fin.pc == After(cfg, s, e).fin.pc && !e.Judge? && !e.CommitHead? && !e.Crash?)
         || (e == Judge(true) && s.fin.pc == F.Deciding(Some(After(cfg, s, e).fin.pc.block)))
  {
  }

  lemma InHandFromBefore(cfg: Config, states: seq<Sys>, events: seq<Event>, m: nat)
    requires Run(cfg, states, events) && m < |events| && states[m + 1].fin.pc.Committing?
    ensures (states[m].fin.pc == states[m + 1].fin.pc && !events[m].Judge? && !events[m].CommitHead? && !events[m].Crash?)
         || (events[m] == Judge(true) && states[m].fin.pc == F.Deciding(Some(states[m + 1].fin.pc.block)))
  {
    assert Enabled(cfg, states[m], events[m]);
    InHandFrom(cfg, states[m], events[m]);
  }

  /** `held[m + 1]` is what was held before, over a step that is no verdict, or was judged in that step. */
  predicate Traced(pcs: seq<F.Pc>, held: seq<Option<Block>>, events: seq<Event>, verdict: bool) {
    && |pcs| == |held| == |events| + 1 && held[0].None?
    && forall m :: 0 <= m < |events| && held[m + 1].Some? ==>
         || (held[m] == held[m + 1] && !events[m].Judge? && !events[m].CommitHead? && !events[m].Crash?)
         || (events[m] == Judge(verdict) && pcs[m] == F.Deciding(held[m + 1]))
  }

  lemma {:induction false} TracedBack(pcs: seq<F.Pc>, held: seq<Option<Block>>, events: seq<Event>, verdict: bool, k: nat)
    returns (j: nat)
    requires Traced(pcs, held, events, verdict) && k <= |events| && held[k].Some?
    ensures NextVerdict(events, j, k) && events[j] == Judge(verdict) && pcs[j] == F.Deciding(held[k])
    decreases k
  {
    j := k - 1;
    if !events[j].Judge? { j := TracedBack(pcs, held, events, verdict, k - 1); }
  }

  function Pcs(states: seq<Sys>): seq<F.Pc> {
    seq(|states|, m requires 0 <= m < |states| => states[m].fin.pc)
  }

  function InHand(pc: F.Pc): Option<Block> {
    if pc.Committing? then Some(pc.block) else None
  }

  lemma JudgedBefore(cfg: Config, states: seq<Sys>, events: seq<Event>, k: nat) returns (j: nat)
    requires Run(cfg, states, events) && k < |states| && states[k].fin.pc.Committing?
    ensures NextVerdict(events, j, k) && events[j] == Judge(true)
    ensures states[j].fin.pc == F.Deciding(Some(states[k].fin.pc.block))
  {
    var held := seq(|states|, m requires 0 <= m < |states| => InHand(states[m].fin.pc));
    forall m | 0 <= m < |events| && held[m + 1].Some?
      ensures (held[m] == held[m + 1] && !events[m].Judge? && !events[m].CommitHead? && !events[m].Crash?)
           || (events[m] == Judge(true) && Pcs(states)[m] == F.Deciding(held[m + 1]))
    {
      InHandFromBefore(cfg, states, events, m);
    }
    j := TracedBack(Pcs(states), held, events, true, k);
  }

  /**
   * Every commit goes back to a verdict of its own: the execution layer judged valid the very block
   * whose hash is committed, at the next height, with no other verdict, commit or crash since.
   */
  lemma CommitsAreJudged(cfg: Config, states: seq<Sys>, events: seq<Event>, k: nat) returns (j: nat)
    requires Run(cfg, states, events) && k < |events| && events[k].CommitHead?
    ensures NextVerdict(events, j, k) && events[j] == Judge(true)
    ensures states[j].fin.pc.Deciding? && states[j].fin.pc.reply.Some?
    ensures var f := states[k].fin;
            states[k + 1].fin.log
              == f.log + [F.Commit(f.lastIndexed + 1, states[j].fin.pc.reply.value.EthBlockHash(), f.life)]
  {
    assert Enabled(cfg, states[k], events[k]);
    j := JudgedBefore(cfg, states, events, k);
  }

  // ----- a refused block

  /** Nothing is being committed. */
  predicate Resting(pc: F.Pc) {
    !pc.Committing? && !pc.Committed? && !pc.Published? && !pc.Persisted? && !pc.Notifying? && !pc.Reporting?
  }

  /** The execution layer finds a stored block valid. */
  predicate Approves(s: Sys, e: Event) {
    e == Judge(true) && s.fin.pc.Deciding? && s.fin.pc.reply.Some?
  }

  ghost predicate NoneApproved(states: seq<Sys>, events: seq<Event>, i: nat, k: nat) {
    i <= k <= |events| < |states| && forall m :: i <= m < k ==> !Approves(states[m], events[m]) && !events[m].Crash?
  }

  predicate SameCommitted(f: F.State, g: F.State) {
    g.log == f.log && g.head == f.head && g.persisted == f.persisted && g.lastIndexed == f.lastIndexed
  }

  lemma RestsOn(cfg: Config, s: Sys, e: Event)
    requires Enabled(cfg, s, e) && Resting(s.fin.pc) && !Approves(s, e) && !e.Crash?
    ensures Resting(After(cfg, s, e).fin.pc) && SameCommitted(s.fin, After(cfg, s, e).fin)
  {
  }

  lemma {:induction false} RestsWhile(cfg: Config, states: seq<Sys>, events: seq<Event>, i: nat, k: nat)
    requires Run(cfg, states, events) && NoneApproved(states, events, i, k) && Resting(states[i].fin.pc)
    ensures Resting(states[k].fin.pc) && SameCommitted(states[i].fin, states[k].fin)
    decreases k
  {
    if i < k {
      RestsWhile(cfg, states, events, i, k - 1);
      assert Enabled(cfg, states[k - 1], events[k - 1]);
      RestsOn(cfg, states[k - 1], events[k - 1]);
    }
  }

  /**
   * After a refusal nothing is committed, shown, persisted or indexed before the execution layer finds
   * a stored block valid, or the process dies.
   */
  lemma RefusedIsNotCommitted(cfg: Config, states: seq<Sys>, events: seq<Event>, i: nat, k: nat)
    requires Run(cfg, states, events) && i < k && NoneApproved(states, events, i, k) && events[i] == Judge(false)
    ensures SameCommitted(states[i].fin, states[k].fin)
  {
    assert Enabled(cfg, states[i], events[i]);
    RestsWhile(cfg, states, events, i, k);
  }

  function Refused(pc: F.Pc): Option<Block> {
    match pc
    case Gap(rejected) => rejected
    case AwaitRepair(rejected) => rejected
    case Repaired(rejected, _) => rejected
    case Waiting(rejected) => rejected
    case _ => None
  }

  lemma RefusalFrom(cfg: Config, s: Sys, e: Event)
    requires Enabled(cfg, s, e) && Refused(After(cfg, s, e).fin.pc).Some?
    ensures (Refused(s.fin.pc) == Refused(After(cfg, s, e).fin.pc) && !e.Judge? && !e.CommitHead? && !e.Crash?)
         || (e == Judge(false) && s.fin.pc == F.Deciding(Refused(After(cfg, s, e).fin.pc)))
  {
  }

  lemma RefusalFromBefore(cfg: Config, states: seq<Sys>, events: seq<Event>, m: nat)
    requires Run(cfg, states, events) && m < |events| && Refused(states[m + 1].fin.pc).Some?
    ensures (Refused(states[m].fin.pc) == Refused(states[m + 1].fin.pc)
             && !events[m].Judge? && !events[m].CommitHead? && !events[m].Crash?)
         || (events[m] == Judge(false) && states[m].fin.pc == F.Deciding(Refused(states[m + 1].fin.pc)))
  {
    assert Enabled(cfg, states[m], events[m]);
    RefusalFrom(cfg, states[m], events[m]);
  }

  lemma RefusedBefore(cfg: Config, states: seq<Sys>, events: seq<Event>, k: nat) returns (j: nat)
    requires Run(cfg, states, events) && k < |states| && Refused(states[k].fin.pc).Some?
    ensures NextVerdict(events, j, k) && events[j] == Judge(false)
    ensures states[j].fin.pc == F.Deciding(Refused(states[k].fin.pc))
  {
    var held := seq(|states|, m requires 0 <= m < |states| => Refused(states[m].fin.pc));
    forall m | 0 <= m < |events| && held[m + 1].Some?
      ensures (held[m] == held[m + 1] && !events[m].Judge? && !events[m].CommitHead? && !events[m].Crash?)
           || (events[m] == Judge(false) && Pcs(states)[m] == F.Deciding(held[m + 1]))
    {
      RefusalFromBefore(cfg, states, events, m);
    }
    j := TracedBack(Pcs(states), held, events, false, k);
  }

  /** A finalizer sleeps over a stored next block only if its last verdict was to refuse that very block. */
  lemma SleepsOverRefused(cfg: Config, states: seq<Sys>, events: seq<Event>, k: nat) returns (j: nat)
    requires Sensible(cfg) && Run(cfg, states, events) && k < |states|
    requires states[k].fin.pc.Waiting? && states[k].sync.tokens == 0
    requires states[k].fin.lastIndexed + 1 in states[k].sync.blocks
    ensures NextVerdict(events, j, k) && events[j] == Judge(false)
    ensures states[j].fin.pc == F.Deciding(Some(states[k].sync.blocks[states[k].fin.lastIndexed + 1].value))
  {
    NoWakeupIsLost(cfg, states, events, k);
    j := RefusedBefore(cfg, states, events, k);
  }

  // ----- a commit is done whole

  /** The next step of a commit that the loop is in the middle of. */
  function OneStep(f: F.State): F.State
    requires !Resting(f.pc)
  {
    match f.pc
    case Committing(b) => F.CommitHead(f, b)
    case Committed(b) => F.Publish(f, b)
    case Published(b) => F.Persist(f, b)
    case Persisted(b) => F.Advance(f, b)
    case Notifying(b) => F.Notify(f, b)
    case Reporting(b) => F.Report(f, b)
  }

  function StepsLeft(pc: F.Pc): nat {
    match pc
    case Committing(_) => 6
    case Committed(_) => 5
    case Published(_) => 4
    case Persisted(_) => 3
    case Notifying(_) => 2
    case Reporting(_) => 1
    case _ => 0
  }

  function Completed(f: F.State): F.State
    decreases StepsLeft(f.pc)
  {
    if Resting(f.pc) then f else Completed(OneStep(f))
  }

  lemma CompletesWhole(f: F.State, b: Block)
    requires f.pc == F.Committing(b)
    ensures Completed(f) == F.OneCommit(f, b)
  {
    var durable := F.Persist(F.Publish(F.CommitHead(f, b), b), b);
    assert Completed(f) == Completed(F.CommitHead(f, b)) == Completed(F.Publish(F.CommitHead(f, b), b));
    assert Completed(durable) == Completed(F.Advance(durable, b)) == Completed(F.Notify(F.Advance(durable, b), b));
    assert Completed(F.OneCommit(f, b)) == F.OneCommit(f, b);
  }

  lemma StepsOn(cfg: Config, s: Sys, e: Event)
    requires InStep(s) && Enabled(cfg, s, e) && !Resting(s.fin.pc) && !e.Crash?
    ensures After(cfg, s, e).fin == if FinEvent(e) then OneStep(s.fin) else s.fin
  {
  }

  lemma CompletedOn(cfg: Config, s: Sys, e: Event)
    requires InStep(s) && Enabled(cfg, s, e) && !Resting(s.fin.pc) && !e.Crash?
    ensures Completed(After(cfg, s, e).fin) == Completed(s.fin)
  {
    StepsOn(cfg, s, e);
  }

  lemma CompletedNext(cfg: Config, states: seq<Sys>, events: seq<Event>, m: nat)
    requires Sensible(cfg) && Run(cfg, states, events) && m < |events|
    requires !events[m].Crash? && !Resting(states[m].fin.pc)
    ensures Completed(states[m + 1].fin) == Completed(states[m].fin)
  {
    InvThroughout(cfg, states, events, m);
    CompletedOn(cfg, states[m], events[m]);
  }

  lemma {:induction false} Constant(values: seq<F.State>, i: nat, k: nat)
    requires i <= k < |values| && forall m :: i <= m < k ==> values[m] == values[m + 1]
    ensures values[i] == values[k]
    decreases k
  {
    if i < k { Constant(values, i, k - 1); }
  }

  lemma CompletedWhile(cfg: Config, states: seq<Sys>, events: seq<Event>, i: nat, k: nat)
    requires Sensible(cfg) && Run(cfg, states, events) && OneLife(events, i, k)
    requires forall m :: i <= m < k ==> !Resting(states[m].fin.pc)
    ensures Completed(states[i].fin) == Completed(states[k].fin)
  {
    var completed := seq(|states|, m requires 0 <= m < |states| => Completed(states[m].fin));
    forall m | i <= m < k ensures completed[m] == completed[m + 1] {
      CompletedNext(cfg, states, events, m);
    }
    Constant(completed, i, k);
  }

  /** The whole effect of committing a block, on what the finalizer keeps, shows and sends. */
  ghost predicate WholeCommit(f: F.State, g: F.State, b: Block) {
    var next := f.lastIndexed + 1;
    && g.log == f.log + [F.Commit(next, b.EthBlockHash(), f.life)]
    && g.head == b.EthBlockHash() && g.live
    && g.persisted == next && g.lastIndexed == next
    && (forall h :: h in g.pending <==> h in f.pending && h > next)
    && (forall h :: h in g.pending ==> g.pending[h] == f.pending[h])
    && g.taken == f.taken
    && Woken(g.fired) == Woken(f.fired) + F.At(f.pending, next)
    && g.queue == f.queue + [F.Processed(next, b.digest)]
    && g.life == f.life
  }

  lemma OneCommitIsWhole(f: F.State, b: Block)
    requires Filed(f) && f.pc.Committing?
    ensures WholeCommit(f, F.OneCommit(f, b), b) && F.OneCommit(f, b).pc.AtHead?
  {
    var next := f.lastIndexed + 1;
    OnlyThere(f.pending, next);
    NewlyWoken(f.fired, F.UpTo(f.pending, next), next, b.EthBlockHash());
  }

  /**
   * From the block in hand to the end of the turn, whatever messages the syncer handles meanwhile: one
   * head committed and shown, the index persisted and advanced, those who wait for it woken in the order
   * they came, and one report sent.
   */
  lemma CommitIsWhole(cfg: Config, states: seq<Sys>, events: seq<Event>, i: nat, k: nat)
    requires Sensible(cfg) && Run(cfg, states, events) && OneLife(events, i, k) && states[i].fin.pc.Committing?
    requires (forall m :: i <= m < k ==> !Resting(states[m].fin.pc)) && Resting(states[k].fin.pc)
    ensures states[k].fin.pc.AtHead? && WholeCommit(states[i].fin, states[k].fin, states[i].fin.pc.block)
    ensures states[k].fin == F.OneCommit(states[i].fin, states[i].fin.pc.block)
  {
    InvThroughout(cfg, states, events, i);
    CompletesWhole(states[i].fin, states[i].fin.pc.block);
    CompletedWhile(cfg, states, events, i, k);
    OneCommitIsWhole(states[i].fin, states[i].fin.pc.block);
  }
}
