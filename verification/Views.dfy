/** The two view counters: what pruning may drop, and which notarizations are still looked for. */
module Views {
  import opened Bytes
  import opened Wrappers
  import opened Blocks
  import opened Chain
  import opened System
  import Key
  import S = Syncer

  /** Each height of the chain has a view, which its finalizations carry; and the views grow. */
  ghost predicate ViewsIncrease(w: World, views: seq<nat>) {
    && |views| == |w.chain|
    && (forall i, j :: 0 <= i < j < |views| ==> views[i] < views[j])
    && (forall f, h: nat :: f in w.finals && OnChain(w, h, f.payload) ==> f.view == views[h])
  }

  /** The last processed view is that of a finalization of a height already processed, or 0. */
  ghost predicate ViewMark(w: World, t: S.State, processed: nat) {
    t.lastViewProcessed == 0
    || exists h: nat, f :: h <= processed && f in w.finals && OnChain(w, h, f.payload) && f.view == t.lastViewProcessed
  }

  lemma ViewMarkAfter(cfg: Config, s: Sys, e: Event)
    requires CanonSync(cfg, s.sync) && InStep(s) && Enabled(cfg, s, e) && ViewMark(cfg.w, s.sync, s.processed)
    ensures ViewMark(cfg.w, After(cfg, s, e).sync, After(cfg, s, e).processed)
  {
    if e.ServeProcessed? {
      ViewMarkAfterProcessed(cfg, s.sync, s.processed, s.fin.queue[0].digest);
    } else if SyncEvent(e) {
      SyncLeavesMark(cfg, s.sync, e);
    }
  }

  lemma SyncLeavesMark(cfg: Config, t: S.State, e: Event)
    requires SyncEvent(e)
    ensures SyncStep(cfg, t, e).lastViewProcessed == t.lastViewProcessed
  {
  }

  lemma ViewMarkAfterProcessed(cfg: Config, t: S.State, processed: nat, digest: Bytes32)
    requires CanonSync(cfg, t) && ViewMark(cfg.w, t, processed)
    ensures ViewMark(cfg.w, S.AfterProcessed(t, processed + 1, digest), processed + 1)
  {
    if processed + 1 in t.finalized {
      var f := t.finalized[processed + 1].value;
      assert OnChain(cfg.w, processed + 1, f.payload);
    } else if t.lastViewProcessed != 0 {
      var h: nat, f :| h <= processed && f in cfg.w.finals && OnChain(cfg.w, h, f.payload) && f.view == t.lastViewProcessed;
      assert h <= processed + 1;
    }
  }

  /** What was verified or notarized in a view is still there, and what could be stored there still can. */
  ghost predicate Spared(t: S.State, u: S.State, view: nat) {
    && (view in t.verified ==> view in u.verified && u.verified[view] == t.verified[view])
    && (view in t.notarized ==> view in u.notarized && u.notarized[view] == t.notarized[view])
    && (view >= t.verifiedFloor ==> view >= u.verifiedFloor)
    && (view >= t.notarizedFloor ==> view >= u.notarizedFloor)
  }

  /**
   * Pruning spares what is still needed: the view of any height not yet processed, whether or not that
   * height has a finalization of its own.
   */
  lemma PruningSparesUnprocessed(cfg: Config, views: seq<nat>, t: S.State, processed: nat, f: Certificate,
                                 found: Option<Block>, verifiedCut: nat, notarizedCut: nat, h: nat)
    requires ViewsIncrease(cfg.w, views) && ViewMark(cfg.w, t, processed)
    requires verifiedCut <= S.MinView(t.lastViewProcessed, cfg.activityTimeout)
    requires notarizedCut <= S.MinView(t.lastViewProcessed, cfg.activityTimeout)
    requires processed < h < |cfg.w.chain|
    ensures Spared(t, S.AfterFinalize(t, f, found, verifiedCut, notarizedCut, cfg.capacity), views[h])
  {
    if t.lastViewProcessed != 0 {
      var k: nat, g :| k <= processed && g in cfg.w.finals && OnChain(cfg.w, k, g.payload) && g.view == t.lastViewProcessed;
      assert g.view == views[k] < views[h];
    }
  }

  lemma SparedSync(cfg: Config, views: seq<nat>, t: S.State, processed: nat, e: Event, h: nat)
    requires ViewsIncrease(cfg.w, views) && ViewMark(cfg.w, t, processed)
    requires SyncEvent(e) && SyncEnabled(cfg, t, e) && processed < h < |cfg.w.chain|
    ensures Spared(t, SyncStep(cfg, t, e), views[h])
  {
    if e.Finalize? {
      PruningSparesUnprocessed(cfg, views, t, processed, e.finalization, e.found, e.verifiedCut, e.notarizedCut, h);
    } else {
      OthersPruneNothing(cfg, t, e, views[h]);
    }
  }

  lemma OthersPruneNothing(cfg: Config, t: S.State, e: Event, view: nat)
    requires SyncEvent(e) && !e.Finalize?
    ensures Spared(t, SyncStep(cfg, t, e), view)
  {
  }

  /** No step but a crash takes anything from the view of an unprocessed height, or lowers what is processed. */
  lemma SparedAfter(cfg: Config, views: seq<nat>, s: Sys, e: Event, h: nat)
    requires ViewsIncrease(cfg.w, views) && ViewMark(cfg.w, s.sync, s.processed) && InStep(s)
    requires Enabled(cfg, s, e) && !e.Crash? && s.processed < h < |cfg.w.chain|
    ensures Spared(s.sync, After(cfg, s, e).sync, views[h])
  {
    if SyncEvent(e) {
      SparedSync(cfg, views, s.sync, s.processed, e, h);
    } else if !FinEvent(e) {
      SparedJoint(cfg, s, e, views[h]);
    }
  }

  lemma SparedJoint(cfg: Config, s: Sys, e: Event, view: nat)
    requires JointEvent(e) && JointEnabled(s, e) && !e.Crash?
    ensures Spared(s.sync, JointStep(cfg, s, e).sync, view)
  {
  }

  lemma ProcessedGrows(cfg: Config, s: Sys, e: Event)
    requires InStep(s) && Enabled(cfg, s, e) && !e.Crash?
    ensures After(cfg, s, e).processed >= s.processed
  {
  }

  /** The latest view is that of a finalization whose block is stored, or 0. */
  ghost predicate LatestMark(w: World, t: S.State) {
    t.latestView == 0
    || exists h: nat, f :: f in w.finals && OnChain(w, h, f.payload) && f.view == t.latestView && h in t.blocks
  }

  lemma LatestMarkAfterFinalize(cfg: Config, t: S.State, e: Event)
    requires Sensible(cfg) && CanonSync(cfg, t) && e.Finalize? && SyncEnabled(cfg, t, e) && LatestMark(cfg.w, t)
    ensures LatestMark(cfg.w, SyncStep(cfg, t, e))
  {
    var f, u := e.finalization, SyncStep(cfg, t, e);
    if e.found.Some? {
      var h := FinalizedHeight(cfg, f);
      if e.buffered.None? { FoundIsKnown(cfg, t, f.payload, e.found); }
      PlaceOnChain(cfg.p, cfg.w, e.found.value, h);
      assert OnChain(cfg.w, h, f.payload) && f.view == u.latestView && h in u.blocks;
    }
  }

  lemma KeepsLatestMark(w: World, t: S.State, u: S.State)
    requires LatestMark(w, t) && t.blocks.Keys <= u.blocks.Keys && u.latestView == t.latestView
    ensures LatestMark(w, u)
  {
    if t.latestView != 0 {
      var h: nat, f :| f in w.finals && OnChain(w, h, f.payload) && f.view == t.latestView && h in t.blocks;
      assert h in u.blocks;
    }
  }

  lemma LatestViewKept(cfg: Config, t: S.State, e: Event)
    requires SyncEvent(e) && !e.Finalize?
    ensures t.blocks.Keys <= SyncStep(cfg, t, e).blocks.Keys && SyncStep(cfg, t, e).latestView == t.latestView
  {
  }

  lemma LatestMarkJoint(cfg: Config, s: Sys, e: Event)
    requires JointEvent(e) && JointEnabled(s, e) && LatestMark(cfg.w, s.sync)
    ensures LatestMark(cfg.w, JointStep(cfg, s, e).sync)
  {
    if !e.Crash? { KeepsLatestMark(cfg.w, s.sync, JointStep(cfg, s, e).sync); }
  }

  lemma LatestMarkAfter(cfg: Config, s: Sys, e: Event)
    requires Sensible(cfg) && CanonSync(cfg, s.sync) && Enabled(cfg, s, e) && LatestMark(cfg.w, s.sync)
    ensures LatestMark(cfg.w, After(cfg, s, e).sync)
  {
    if e.Finalize? {
      LatestMarkAfterFinalize(cfg, s.sync, e);
    } else if SyncEvent(e) {
      LatestViewKept(cfg, s.sync, e);
      KeepsLatestMark(cfg.w, s.sync, SyncStep(cfg, s.sync, e));
    } else if !FinEvent(e) {
      LatestMarkJoint(cfg, s, e);
    }
  }

  /**
   * A notarization recorded as missing is still looked for, or has arrived, or is below what the
   * pruned archive accepts.
   */
  ghost predicate Sought(t: S.State) {
    forall v :: v in t.outstandingNotarize ==>
      Key.Notarized(v) in t.outstanding || v in t.notarized || v < t.notarizedFloor
  }

  lemma SoughtSync(cfg: Config, t: S.State, e: Event)
    requires SyncEvent(e) && Sought(t)
    ensures Sought(SyncStep(cfg, t, e))
  {
    if e.Deliver? { SoughtAfterDeliver(cfg, t, e.key, e.bytes); }
  }

  lemma SoughtAfter(cfg: Config, s: Sys, e: Event)
    requires Enabled(cfg, s, e) && Sought(s.sync)
    ensures Sought(After(cfg, s, e).sync)
  {
    if SyncEvent(e) { SoughtSync(cfg, s.sync, e); }
  }

  lemma SoughtAfterDeliver(cfg: Config, t: S.State, key: Key.Value, bytes: seq<Byte>)
    requires Sought(t)
    ensures Sought(S.AfterDeliver(cfg.p, t, key, bytes, cfg.capacity))
  {
  }

  /** The head of the loop stops looking only for recorded notarizations below the latest view. */
  lemma TidyDrops(t: S.State, key: Key.Value)
    ensures S.Tidied(t).blocks == t.blocks
    ensures key in t.outstanding && key !in S.Tidied(t).outstanding
       <==> key in t.outstanding && key.Notarized? && key.view in t.outstandingNotarize && key.view < t.latestView
  {
  }
}
