/** What a process that starts again shows to those who propose, until it commits. */
module Restarts {
  import opened Bytes
  import opened Wrappers
  import opened Blocks
  import opened Chain
  import opened System
  import opened Commits
  import opened Runs
  import opened Application
  import S = Syncer
  import F = Finalizer

  ghost predicate Reachable(cfg: Config, s: Sys) {
    exists states, events :: Run(cfg, states, events) && states[|events|] == s
  }

  lemma StartReachable(cfg: Config)
    ensures Reachable(cfg, Initial(cfg))
  {
    assert Run(cfg, [Initial(cfg)], []);
  }

  lemma StepReachable(cfg: Config, s: Sys, e: Event) returns (t: Sys)
    requires Reachable(cfg, s) && Enabled(cfg, s, e)
    ensures t == After(cfg, s, e) && Reachable(cfg, t)
  {
    t := After(cfg, s, e);
    var states, events :| Run(cfg, states, events) && states[|events|] == s;
    var longer, more := states + [t], events + [e];
    forall i | 0 <= i < |more|
      ensures Enabled(cfg, longer[i], more[i]) && longer[i + 1] == After(cfg, longer[i], more[i])
    {
      if i < |events| { assert longer[i] == states[i] && longer[i + 1] == states[i + 1]; }
    }
    assert Run(cfg, longer, more);
  }

  /** After the first finalization, whose block is at hand, a process commits height 1 and records it. */
  lemma FirstCommit(cfg: Config, f: Certificate) returns (s: Sys)
    requires Sensible(cfg) && f in cfg.w.finals && OnChain(cfg.w, 1, f.payload)
    ensures Reachable(cfg, s) && s.fin.persisted == 1
  {
    var b := cfg.w.chain[1];
    HeightOnChain(cfg.p, cfg.w, 1);
    StartReachable(cfg);
    s := StepReachable(cfg, Initial(cfg), Finalize(f, Some(b), Some(b), 0, 0));
    assert S.At(s.sync.blocks, 1) == Some(b);
    s := Answered(cfg, s);
    s := StepReachable(cfg, s, Judge(true));
    s := StepReachable(cfg, s, CommitHead);
    s := StepReachable(cfg, s, Publish);
    s := StepReachable(cfg, s, Persist);
  }

  /** At the head of its loop the finalizer asks, and is answered from the store. */
  lemma Answered(cfg: Config, s: Sys) returns (t: Sys)
    requires Reachable(cfg, s) && s.fin.pc.AtHead? && s.fin.queue == []
    ensures Reachable(cfg, t)
    ensures t.fin == s.fin.(pc := F.Deciding(S.At(s.sync.blocks, s.fin.Next()))) && t.sync == s.sync
  {
    var asking := StepReachable(cfg, s, Ask);
    t := StepReachable(cfg, asking, ServeGet);
  }

  /** With nothing stored it finds no gap and waits. */
  lemma FallsAsleep(cfg: Config, s: Sys) returns (t: Sys)
    requires Reachable(cfg, s) && s.fin.pc.AtHead? && s.fin.queue == [] && s.sync.blocks == map[]
    ensures Reachable(cfg, t)
    ensures t.fin == s.fin.(pc := F.Waiting(None)) && t.sync == s.sync
  {
    t := Answered(cfg, s);
    t := StepReachable(cfg, t, Judge(false));
    t := RepairsNothing(cfg, t);
    t := StepReachable(cfg, t, Resume);
  }

  lemma RepairsNothing(cfg: Config, s: Sys) returns (t: Sys)
    requires Reachable(cfg, s) && s.fin.pc == F.Gap(None) && s.fin.queue == [] && s.sync.blocks == map[]
    ensures Reachable(cfg, t)
    ensures t.fin == s.fin.(pc := F.Repaired(None, false)) && t.sync == s.sync
  {
    t := StepReachable(cfg, s, AskRepair);
    t := StepReachable(cfg, t, ServeRepair(None, None));
  }

  /** A crash that loses the archives leads, from any state, to a wait at the persisted index. */
  lemma Restarted(cfg: Config, s: Sys) returns (t: Sys)
    requires Sensible(cfg) && Reachable(cfg, s)
    ensures Reachable(cfg, t)
    ensures t.fin == F.Booted(s.fin.persisted, cfg.w.genesis.digest, s.fin.log, s.fin.life + 1).(pc := F.Waiting(None))
    ensures t.fin.head == EthHash(cfg.w, 0)
  {
    t := StepReachable(cfg, s, Crash(map[], 0, map[], 0, map[], map[]));
    t := FallsAsleep(cfg, t);
    var states, events :| Run(cfg, states, events) && states[|events|] == t;
    ForkchoiceShown(cfg, states, events, |events|);
  }

  /**
   * From any state a crash can lead to one that waits at the persisted index with the forkchoice at
   * genesis. There a proposal on the block of that height fails verification, whatever the clock, if the
   * execution hash of that height is not that of genesis.
   */
  lemma RestartedProposalFails(cfg: Config, s: Sys) returns (t: Sys)
    requires Sensible(cfg) && Reachable(cfg, s)
    ensures Reachable(cfg, t) && t.fin.pc.Waiting? && !t.fin.live
    ensures t.fin.lastIndexed == s.fin.persisted < |cfg.w.chain|
    ensures forall parent, clock, built ::
              Carried(cfg.w, s.fin.persisted, parent) && parent.timestamp < U64_LIMIT - 1 && BuildsOn(built, t.fin.head) ==>
                (HandleVerify(Application.Proposed(cfg.p, parent, clock, built), parent)
                 <==> EthHash(cfg.w, s.fin.persisted) == EthHash(cfg.w, 0))
  {
    t := Restarted(cfg, s);
    var states, events :| Run(cfg, states, events) && states[|events|] == t;
    ForkchoiceShown(cfg, states, events, |events|);
    forall parent, clock, built |
      Carried(cfg.w, s.fin.persisted, parent) && parent.timestamp < U64_LIMIT - 1 && BuildsOn(built, t.fin.head)
      ensures HandleVerify(Application.Proposed(cfg.p, parent, clock, built), parent)
              <==> EthHash(cfg.w, s.fin.persisted) == EthHash(cfg.w, 0)
    {
      LateProposalVerifies(cfg, states, events, |events|, parent, s.fin.persisted, clock, built);
    }
  }

  /**
   * So it goes from the very start: one finalization, one commit, one crash. Whoever then asks to be woken
   * at height 1 is answered at once, with the forkchoice at genesis, and proposes a block that fails.
   */
  lemma FirstRestartFails(cfg: Config, f: Certificate, sender: nat, clock: U64, built: Envelope) returns (t: Sys)
    requires Sensible(cfg) && f in cfg.w.finals && OnChain(cfg.w, 1, f.payload)
    requires EthHash(cfg.w, 1) != EthHash(cfg.w, 0) && BuildsOn(built, EthHash(cfg.w, 0))
    ensures Reachable(cfg, t) && t.fin.fired == [F.Firing(F.Waiter(1, sender), 1, EthHash(cfg.w, 0), false)]
    ensures !HandleVerify(Application.Proposed(cfg.p, cfg.w.chain[1], clock, built), cfg.w.chain[1])
  {
    var s := FirstCommit(cfg, f);
    t := Restarted(cfg, s);
    t := StepReachable(cfg, t, Mail(F.Waiter(1, sender)));
    ProposalVerifies(cfg.p, cfg.w.chain[1], clock, built, EthHash(cfg.w, 0));
  }
}
