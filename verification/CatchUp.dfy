/**
 * From a store with gaps to the highest stored height: the node works on its own until it sleeps, and is
 * then given the block it asks for by digest.
 */
module CatchUp {
  import opened Bytes
  import opened Wrappers
  import opened Blocks
  import opened Chain
  import opened System
  import opened Commits
  import opened Wakeups
  import opened Runs
  import opened Settling
  import Exchange
  import Key
  import S = Syncer
  import F = Finalizer

  /** An accepted delivery of the block below the next stored stretch. */
  ghost predicate Fills(cfg: Config, t: S.State, next: nat, e: Event, start: nat) {
    && S.NextStart(t.blocks, next, Some(start))
    && e.Deliver? && e.key == Key.Digest(t.blocks[start].value.parent)
    && S.Verdict(cfg.p, e.key, e.bytes).Accepted?
  }

  /**
   * A step without input in which no payload is refused; or, for a node asleep, a delivery that it
   * accepts for the digest below the gap.
   */
  ghost predicate CatchUpEvent(cfg: Config, s: Sys, e: Event) {
    || (Internal(e) && (e.Judge? ==> e.valid))
    || (Asleep(s) && exists start :: Fills(cfg, s.sync, s.fin.Next(), e, start))
  }

  /** Such a delivery fills exactly one hole, and wakes the finalizer. */
  lemma DeliveryFillsHole(cfg: Config, t: S.State, next: nat, e: Event, start: nat)
    requires Sensible(cfg) && CanonSync(cfg, t) && next > 0
    requires Fills(cfg, t, next, e, start) && SyncEnabled(cfg, t, e)
    ensures start > 1 && start - 1 !in t.blocks && start in t.blocks
    ensures var u := SyncStep(cfg, t, e);
            && start - 1 in u.blocks
            && u.blocks == t.blocks[start - 1 := u.blocks[start - 1]]
            && u.tokens == S.TokensAfter(t.tokens, cfg.capacity)
  {
    ParentOfStart(cfg, t.blocks, start);
    var b := DecodeBlock(cfg.p, e.bytes).value;
    PlaceOnChain(cfg.p, cfg.w, b, start - 1);
  }

  // ----- what a step of the way costs and gains

  /** Twice the work, since a delivery brings a token with the block. */
  ghost function Distance(s: Sys): nat {
    16 * (2 * Work(s) + s.sync.tokens) + Place(s.fin)
  }

  ghost function HolesBelow(s: Sys): nat {
    Holes(s.sync.blocks, Highest(s.sync.blocks))
  }

  /** The execution layer has refused nothing that the finalizer remembers. */
  predicate NothingRejected(pc: F.Pc) {
    match pc
    case Gap(rejected) => rejected.None?
    case AwaitRepair(rejected) => rejected.None?
    case Repaired(rejected, _) => rejected.None?
    case Waiting(rejected) => rejected.None?
    case _ => true
  }

  /** One hole fewer, below the same top. */
  lemma OneHoleFewer(s: Sys, t: Sys, h: nat)
    requires h > 0 && h !in s.sync.blocks && h + 1 in s.sync.blocks && h in t.sync.blocks
    requires t.sync.blocks == s.sync.blocks[h := t.sync.blocks[h]]
    ensures Highest(t.sync.blocks) == Highest(s.sync.blocks) && HolesBelow(t) == HolesBelow(s) - 1
  {
    var a, b := s.sync.blocks, t.sync.blocks;
    SameHighest(a, b, h, h + 1);
    FillingAHole(a, h, b[h], Highest(a));
  }

  /** Closer, by at least a delivery when it is one, below the same top. */
  ghost predicate Closer(s: Sys, t: Sys, e: Event) {
    && Distance(t) < Distance(s)
    && Highest(t.sync.blocks) == Highest(s.sync.blocks)
    && HolesBelow(t) + (if e.Deliver? then 1 else 0) <= HolesBelow(s)
  }

  lemma DeliveryCloser(cfg: Config, s: Sys, e: Event, start: nat)
    requires Sensible(cfg) && Inv(cfg, s) && Asleep(s) && Enabled(cfg, s, e)
    requires Fills(cfg, s.sync, s.fin.Next(), e, start)
    ensures Closer(s, After(cfg, s, e), e)
  {
    DeliveryFillsHole(cfg, s.sync, s.fin.Next(), e, start);
    OneHoleFewer(s, After(cfg, s, e), start - 1);
    HoleFilled(s, After(cfg, s, e), start - 1);
  }

  lemma RepairCloser(cfg: Config, s: Sys, e: Event)
    requires Sensible(cfg) && Inv(cfg, s) && Enabled(cfg, s, e) && e.ServeRepair?
    requires S.AfterRepair(s.sync, s.fin.Next(), e.start, e.found).1
    ensures Closer(s, After(cfg, s, e), e)
  {
    RepairLowersWork(cfg, s, e.start, e.found);
    RepairFillsHole(cfg, s.sync, s.fin.Next(), e.start, e.found);
    ServedRepair(cfg, s, e.start, e.found);
    OneHoleFewer(s, After(cfg, s, e), e.start.value - 1);
  }

  lemma InternalCloser(cfg: Config, s: Sys, e: Event)
    requires Sensible(cfg) && Inv(cfg, s) && Enabled(cfg, s, e) && Internal(e)
    ensures Closer(s, After(cfg, s, e), e)
  {
    if e.ServeRepair? && S.AfterRepair(s.sync, s.fin.Next(), e.start, e.found).1 {
      RepairCloser(cfg, s, e);
    } else if e.Advance? {
      AdvanceLowersWork(cfg, s);
    } else {
      QuietStep(cfg, s, e);
      SameWork(s, After(cfg, s, e));
    }
  }

  lemma StepCloser(cfg: Config, s: Sys, e: Event)
    requires Sensible(cfg) && Inv(cfg, s) && Enabled(cfg, s, e) && CatchUpEvent(cfg, s, e)
    ensures Closer(s, After(cfg, s, e), e)
  {
    if Internal(e) {
      InternalCloser(cfg, s, e);
    } else {
      var start :| Fills(cfg, s.sync, s.fin.Next(), e, start);
      DeliveryCloser(cfg, s, e, start);
    }
  }

  lemma StillNothingRejected(cfg: Config, s: Sys, e: Event)
    requires InStep(s) && Enabled(cfg, s, e) && CatchUpEvent(cfg, s, e) && NothingRejected(s.fin.pc)
    ensures NothingRejected(After(cfg, s, e).fin.pc)
  {
    if FinEvent(e) { assert NothingRejected(FinStep(s.fin, e).pc); }
  }

  // ----- where it stops

  lemma {:induction false} StretchBegins(a: S.Archive<Block>, n: nat, top: nat)
    requires n !in a && top in a && n < top
    ensures exists i :: i > n && S.RangeStart(a, i)
    decreases top
  {
    if top - 1 in a { StretchBegins(a, n, top - 1); } else { assert S.RangeStart(a, top); }
  }

  /** A peer that has the chain's block can always make the delivery that a sleeping node waits for. */
  lemma ChainBlockFills(cfg: Config, s: Sys, start: nat) returns (e: Event)
    requires Sensible(cfg) && Inv(cfg, s) && Asleep(s) && S.NextStart(s.sync.blocks, s.fin.Next(), Some(start))
    ensures Fills(cfg, s.sync, s.fin.Next(), e, start) && Enabled(cfg, s, e)
    ensures 0 < start - 1 < |cfg.w.chain| && e.bytes == cfg.w.chain[start - 1].WriteBytes()
  {
    SoundSleep(cfg, s, start);
    var b := cfg.w.chain[start - 1];
    e := Deliver(Key.Digest(b.digest), b.WriteBytes());
    Exchange.KnownBlockAccepted(cfg, b);
    WholeExact(cfg.p, b.WriteBytes(), b);
  }

  /** No way on is left exactly when the node sleeps and its store has no gap above the next height. */
  lemma StuckExactly(cfg: Config, s: Sys)
    requires Sensible(cfg) && Inv(cfg, s)
    ensures (forall e :: Enabled(cfg, s, e) ==> !CatchUpEvent(cfg, s, e))
            <==> (Asleep(s) && S.NextStart(s.sync.blocks, s.fin.Next(), None))
  {
    if Asleep(s) && S.NextStart(s.sync.blocks, s.fin.Next(), None) {
      StopsExactlyAsleep(cfg, s);
    } else {
      var e := WayOn(cfg, s);
    }
  }

  lemma WayOn(cfg: Config, s: Sys) returns (e: Event)
    requires Sensible(cfg) && Inv(cfg, s)
    requires !(Asleep(s) && S.NextStart(s.sync.blocks, s.fin.Next(), None))
    ensures Enabled(cfg, s, e) && CatchUpEvent(cfg, s, e)
  {
    if !Asleep(s) {
      e := SomeInternalStep(cfg, s);
    } else {
      var start := GapAnswer(s.sync.blocks, s.fin.Next());
      e := ChainBlockFills(cfg, s, start.value);
    }
  }

  lemma NothingAboveIndex(s: Sys)
    requires NoLostWakeup(s) && Remembers(s) && NothingRejected(s.fin.pc)
    requires Asleep(s) && S.NextStart(s.sync.blocks, s.fin.Next(), None)
    ensures Highest(s.sync.blocks) <= s.fin.lastIndexed
  {
    var a, next := s.sync.blocks, s.fin.Next();
    assert next !in a;
    if Highest(a) > next { StretchBegins(a, next, Highest(a)); }
  }

  /** Then, unless a block was refused, everything up to the top of the store is committed. */
  lemma StuckIsCaughtUp(cfg: Config, s: Sys)
    requires Sensible(cfg) && Inv(cfg, s) && NothingRejected(s.fin.pc)
    requires Asleep(s) && S.NextStart(s.sync.blocks, s.fin.Next(), None)
    ensures Highest(s.sync.blocks) <= s.fin.lastIndexed <= Top(s.fin.log) < |cfg.w.chain|
    ensures WithoutRepeats(s.fin.log) == ChainHeads(cfg.w, Top(s.fin.log))
  {
    NothingAboveIndex(s);
    HeadsAreTheChain(cfg.w, s.fin.log);
  }

  // ----- the way as a whole

  ghost predicate CatchUpRun(cfg: Config, states: seq<Sys>, events: seq<Event>) {
    && |states| == |events| + 1
    && forall i :: 0 <= i < |events| ==>
         && Enabled(cfg, states[i], events[i]) && CatchUpEvent(cfg, states[i], events[i])
         && states[i + 1] == After(cfg, states[i], events[i])
  }

  function Deliveries(events: seq<Event>): nat {
    if events == [] then 0 else Deliveries(events[..|events| - 1]) + if events[|events| - 1].Deliver? then 1 else 0
  }

  /**
   * However steps and deliveries alternate: the way is no longer than the distance of its first state,
   * there are no more deliveries on it than holes were below the top, and the top stays.
   */
  lemma {:induction false} CatchUpRunsAreShort(cfg: Config, states: seq<Sys>, events: seq<Event>)
    requires Sensible(cfg) && CatchUpRun(cfg, states, events) && Inv(cfg, states[0])
    ensures var first, last := states[0], states[|events|];
            && Inv(cfg, last)
            && |events| + Distance(last) <= Distance(first)
            && Deliveries(events) + HolesBelow(last) <= HolesBelow(first)
            && Highest(last.sync.blocks) == Highest(first.sync.blocks)
            && (NothingRejected(first.fin.pc) ==> NothingRejected(last.fin.pc))
    decreases |events|
  {
    if events != [] {
      var n := |events| - 1;
      assert CatchUpRun(cfg, states[..n + 1], events[..n]);
      CatchUpRunsAreShort(cfg, states[..n + 1], events[..n]);
      CatchUpStep(cfg, states[n], events[n]);
    }
  }

  lemma CatchUpStep(cfg: Config, s: Sys, e: Event)
    requires Sensible(cfg) && Inv(cfg, s) && Enabled(cfg, s, e) && CatchUpEvent(cfg, s, e)
    ensures Inv(cfg, After(cfg, s, e)) && Closer(s, After(cfg, s, e), e)
    ensures NothingRejected(s.fin.pc) ==> NothingRejected(After(cfg, s, e).fin.pc)
  {
    StepCloser(cfg, s, e);
    InvAfter(cfg, s, e);
    if NothingRejected(s.fin.pc) { StillNothingRejected(cfg, s, e); }
  }

  /**
   * Every such way that cannot be prolonged ends with all heights up to the highest stored at its start
   * committed, in order and with the chain's heads.
   */
  lemma CatchesUp(cfg: Config, states: seq<Sys>, events: seq<Event>)
    requires Sensible(cfg) && CatchUpRun(cfg, states, events) && Inv(cfg, states[0])
    requires NothingRejected(states[0].fin.pc)
    requires forall e :: Enabled(cfg, states[|events|], e) ==> !CatchUpEvent(cfg, states[|events|], e)
    ensures Deliveries(events) <= HolesBelow(states[0])
    ensures var log := states[|events|].fin.log;
            && Highest(states[0].sync.blocks) <= Top(log) < |cfg.w.chain|
            && WithoutRepeats(log) == ChainHeads(cfg.w, Top(log))
  {
    CatchUpRunsAreShort(cfg, states, events);
    StuckExactly(cfg, states[|events|]);
    StuckIsCaughtUp(cfg, states[|events|]);
  }

  lemma StepOn(cfg: Config, s: Sys) returns (e: Event, t: Sys)
    requires Sensible(cfg) && Inv(cfg, s)
    requires !(Asleep(s) && S.NextStart(s.sync.blocks, s.fin.Next(), None))
    ensures Enabled(cfg, s, e) && CatchUpEvent(cfg, s, e) && t == After(cfg, s, e)
    ensures Inv(cfg, t) && Distance(t) < Distance(s)
  {
    e := WayOn(cfg, s);
    t := After(cfg, s, e);
    CatchUpStep(cfg, s, e);
  }

  /** And there is one from every state of every run: with no more deliveries than holes the node catches up. */
  lemma {:induction false} SomeWayCatchesUp(cfg: Config, s: Sys) returns (states: seq<Sys>, events: seq<Event>)
    requires Sensible(cfg) && Inv(cfg, s)
    ensures CatchUpRun(cfg, states, events) && states[0] == s
    ensures Asleep(states[|events|])
    ensures S.NextStart(states[|events|].sync.blocks, states[|events|].fin.Next(), None)
    decreases Distance(s)
  {
    if Asleep(s) && S.NextStart(s.sync.blocks, s.fin.Next(), None) {
      states, events := [s], [];
    } else {
      var e, t := StepOn(cfg, s);
      var rest, more := SomeWayCatchesUp(cfg, t);
      states, events := [s] + rest, [e] + more;
      CatchUpRunPrepend(cfg, s, e, rest, more);
    }
  }

  lemma CatchUpRunPrepend(cfg: Config, s: Sys, e: Event, rest: seq<Sys>, more: seq<Event>)
    requires CatchUpRun(cfg, rest, more) && Enabled(cfg, s, e) && CatchUpEvent(cfg, s, e) && rest[0] == After(cfg, s, e)
    ensures CatchUpRun(cfg, [s] + rest, [e] + more)
  {
    forall i | 0 <= i < |more| + 1
      ensures Enabled(cfg, ([s] + rest)[i], ([e] + more)[i]) && CatchUpEvent(cfg, ([s] + rest)[i], ([e] + more)[i])
      ensures ([s] + rest)[i + 1] == After(cfg, ([s] + rest)[i], ([e] + more)[i])
    {
      if i > 0 { assert CatchUpEvent(cfg, rest[i - 1], more[i - 1]); }
    }
  }
}
