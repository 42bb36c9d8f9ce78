/** What holds in every state of every run, whatever the order of events and wherever it crashes. */
module Runs {
  import opened Bytes
  import opened Wrappers
  import opened Blocks
  import opened Chain
  import opened System
  import opened Commits
  import opened Wakeups
  import opened Waiters
  import opened Views
  import Key
  import S = Syncer
  import F = Finalizer

  ghost predicate Inv(cfg: Config, s: Sys) {
    && Canon(cfg, s) && InStep(s)
    && Faithful(cfg.w, s.fin.log) && Recorded(s.fin) && HeadShown(cfg, s.fin)
    && Requests(s.sync, s.processed) && InHandStored(s)
    && NoLostWakeup(s) && Remembers(s) && SleepsCovered(s)
    && WaitersOk(cfg, s.fin)
    && ViewMark(cfg.w, s.sync, s.processed) && LatestMark(cfg.w, s.sync) && Sought(s.sync)
  }

  lemma InvInitially(cfg: Config)
    requires Sensible(cfg)
    ensures Inv(cfg, Initial(cfg))
  {
    NobodyYet(Initial(cfg).fin);
  }

  lemma InvAfter(cfg: Config, s: Sys, e: Event)
    requires Sensible(cfg) && Inv(cfg, s) && Enabled(cfg, s, e)
    ensures Inv(cfg, After(cfg, s, e))
  {
    CanonAfter(cfg, s, e);
    InStepAfter(cfg, s, e);
    FaithfulAfter(cfg, s, e);
    RecordedAfter(cfg, s, e);
    HeadShownAfter(cfg, s, e);
    RequestsAfter(cfg, s, e);
    InHandStoredAfter(cfg, s, e);
    NoLostWakeupAfter(cfg, s, e);
    RemembersAfter(cfg, s, e);
    SleepsCoveredAfter(cfg, s, e);
    WaitersAfter(cfg, s, e);
    ViewMarkAfter(cfg, s, e);
    LatestMarkAfter(cfg, s, e);
    SoughtAfter(cfg, s, e);
  }

  lemma {:induction false} InvThroughout(cfg: Config, states: seq<Sys>, events: seq<Event>, i: nat)
    requires Sensible(cfg) && Run(cfg, states, events) && i < |states|
    ensures Inv(cfg, states[i])
  {
    if i == 0 {
      InvInitially(cfg);
    } else {
      InvThroughout(cfg, states, events, i - 1);
      InvAfter(cfg, states[i - 1], events[i - 1]);
    }
  }

  // ----- the main results

  /**
   * Over any run with any crashes, the heads sent to the execution layer are the finalized chain's,
   * at heights 1, 2, 3, ..., repeated only by a later life, and the persisted index is the last of
   * them or one less.
   */
  lemma HeadsRefineTheChain(cfg: Config, states: seq<Sys>, events: seq<Event>, i: nat)
    requires Sensible(cfg) && Run(cfg, states, events) && i < |states|
    ensures var f := states[i].fin;
            && Faithful(cfg.w, f.log)
            && Top(f.log) < |cfg.w.chain| && WithoutRepeats(f.log) == ChainHeads(cfg.w, Top(f.log))
            && f.persisted <= Top(f.log) <= f.persisted + 1
  {
    InvThroughout(cfg, states, events, i);
    HeadsAreTheChain(cfg.w, states[i].fin.log);
  }

  /**
   * By whichever route a block entered the store, it stands at its own height of the chain under its
   * own digest; so adjacent entries are linked by the parent digest and by the execution hashes, and
   * whatever is stored higher is later.
   */
  lemma StoreIsOneChain(cfg: Config, states: seq<Sys>, events: seq<Event>, i: nat, h: nat)
    requires Sensible(cfg) && Run(cfg, states, events) && i < |states|
    requires h in states[i].sync.blocks
    ensures var e := states[i].sync.blocks[h];
            && 0 < h < |cfg.w.chain| && Twins(e.value, cfg.w.chain[h])
            && e.value.height == h && e.key == e.value.digest
    ensures h + 1 in states[i].sync.blocks ==>
              HandleVerify(states[i].sync.blocks[h + 1].value, states[i].sync.blocks[h].value)
    ensures forall k :: k in states[i].sync.blocks && h < k ==>
              states[i].sync.blocks[h].value.timestamp < states[i].sync.blocks[k].value.timestamp
  {
    InvThroughout(cfg, states, events, i);
    var a := states[i].sync.blocks;
    PlaceOnChain(cfg.p, cfg.w, a[h].value, h);
    if h + 1 in a {
      PlaceOnChain(cfg.p, cfg.w, a[h + 1].value, h + 1);
      assert HandleVerify(cfg.w.chain[h + 1], cfg.w.chain[h]);
    }
    forall k | k in a && h < k ensures a[h].value.timestamp < a[k].value.timestamp {
      PlaceOnChain(cfg.p, cfg.w, a[k].value, k);
      TimesGrow(cfg.w.genesis, cfg.w.chain, h, k);
    }
  }

  /** A stored finalization is for the block stored beside it, and for the chain's block there. */
  lemma FinalizationsMatchBlocks(cfg: Config, states: seq<Sys>, events: seq<Event>, i: nat, h: nat)
    requires Sensible(cfg) && Run(cfg, states, events) && i < |states|
    requires h in states[i].sync.finalized
    ensures 0 < h < |cfg.w.chain| && states[i].sync.finalized[h].value.payload == cfg.w.chain[h].digest
    ensures h in states[i].sync.blocks ==>
              states[i].sync.blocks[h].value.digest == states[i].sync.finalized[h].value.payload
  {
    InvThroughout(cfg, states, events, i);
  }

  /** A block that `state` may return for a digest, from any of its stores or the buffer. */
  ghost predicate Returns(cfg: Config, t: S.State, digest: Bytes32, b: Block) {
    || (b.digest == digest && b in cfg.w.known)
    || S.Hit(t.verified, digest, Some(b))
    || S.HitNotarized(t, digest, Some(b))
    || S.Hit(t.blocks, digest, Some(b))
  }

  /**
   * Whatever is returned for a digest has that digest, and any two answers, from any stores at any two
   * moments of the run, agree in everything hashed.
   */
  lemma LookupsAgree(cfg: Config, states: seq<Sys>, events: seq<Event>, i: nat, j: nat, digest: Bytes32, a: Block, b: Block)
    requires Sensible(cfg) && Run(cfg, states, events) && i < |states| && j < |states|
    requires Returns(cfg, states[i].sync, digest, a) && Returns(cfg, states[j].sync, digest, b)
    ensures a.digest == digest && a.Preimage() == b.Preimage() && Twins(a, b)
  {
    InvThroughout(cfg, states, events, i);
    InvThroughout(cfg, states, events, j);
    ReturnedIsKnown(cfg, states[i].sync, digest, a);
    ReturnedIsKnown(cfg, states[j].sync, digest, b);
    KnownTwins(cfg.p, cfg.w, a, b);
  }

  lemma ReturnedIsKnown(cfg: Config, t: S.State, digest: Bytes32, b: Block)
    requires CanonSync(cfg, t) && Returns(cfg, t, digest, b)
    ensures b.digest == digest && b in cfg.w.known
  {
    if S.Hit(t.blocks, digest, Some(b)) {
      var i :| i in t.blocks && t.blocks[i] == S.Keyed(digest, b);
    } else if S.HitNotarized(t, digest, Some(b)) {
      var c: Certified :| c.block == b && S.Hit(t.notarized, digest, Some(c));
      var i :| i in t.notarized && t.notarized[i] == S.Keyed(digest, c);
    }
  }

  /** The process lives through the events from `i` up to `j`. */
  predicate OneLife(events: seq<Event>, i: nat, j: nat) {
    i <= j <= |events| && forall k :: i <= k < j ==> !events[k].Crash?
  }

  lemma ProcessedRises(cfg: Config, states: seq<Sys>, events: seq<Event>, m: nat)
    requires Sensible(cfg) && Run(cfg, states, events) && m < |events| && !events[m].Crash?
    ensures states[m].processed <= states[m + 1].processed
  {
    InvThroughout(cfg, states, events, m);
    ProcessedGrows(cfg, states[m], events[m]);
  }

  lemma SparedNext(cfg: Config, states: seq<Sys>, events: seq<Event>, m: nat, views: seq<nat>, h: nat)
    requires Sensible(cfg) && Run(cfg, states, events) && m < |events| && !events[m].Crash?
    requires ViewsIncrease(cfg.w, views) && states[m].processed < h < |cfg.w.chain|
    ensures Spared(states[m].sync, states[m + 1].sync, views[h])
  {
    InvThroughout(cfg, states, events, m);
    SparedAfter(cfg, views, states[m], events[m], h);
  }

  /**
   * While the process lives, and views grow along the chain, whatever was verified or notarized in the
   * view of a height stays until that height is processed; with or without a finalization of its own.
   */
  lemma {:induction false} PruningIsSafe(cfg: Config, states: seq<Sys>, events: seq<Event>, i: nat, j: nat,
                                         views: seq<nat>, h: nat)
    requires Sensible(cfg) && Run(cfg, states, events) && OneLife(events, i, j)
    requires ViewsIncrease(cfg.w, views) && states[j].processed < h < |cfg.w.chain|
    ensures states[i].processed <= states[j].processed
    ensures Spared(states[i].sync, states[j].sync, views[h])
    decreases j
  {
    if i < j {
      ProcessedRises(cfg, states, events, j - 1);
      PruningIsSafe(cfg, states, events, i, j - 1, views, h);
      SparedNext(cfg, states, events, j - 1, views, h);
      SparedTwice(states[i].sync, states[j - 1].sync, states[j].sync, views[h]);
    }
  }

  lemma SparedTwice(t: S.State, u: S.State, v: S.State, view: nat)
    requires Spared(t, u, view) && Spared(u, v, view)
    ensures Spared(t, v, view)
  {
  }

  /**
   * A block stored when it was verified is at hand when its finalization comes, however much is pruned
   * in between, if its height is not processed yet: it is found without the buffer too, its height is
   * stored, the finalizer is woken, and nothing is fetched. It was stored if its view could still be
   * stored and was not taken by another block.
   */
  lemma VerifiedBlockFinalizes(cfg: Config, states: seq<Sys>, events: seq<Event>, i: nat, j: nat,
                               views: seq<nat>, b: Block, h: nat)
    requires Sensible(cfg) && Run(cfg, states, events) && i < j < |events| && OneLife(events, i, j)
    requires ViewsIncrease(cfg.w, views) && states[j].processed < h && Carried(cfg.w, h, b)
    requires events[j].Finalize? && events[j].finalization.payload == b.digest
    requires events[i] == StoreVerified(views[h], b)
    requires views[h] >= states[i].sync.verifiedFloor
    requires views[h] in states[i].sync.verified ==> states[i].sync.verified[views[h]].key == b.digest
    ensures events[j].found.Some? && Twins(events[j].found.value, b) && b.height == h
    ensures var t, u := states[j].sync, states[j + 1].sync;
            && h in u.blocks && u.tokens > 0 && u.latestView == views[h]
            && u.outstanding == t.outstanding && u.fetched == t.fetched
  {
    InvThroughout(cfg, states, events, j);
    PruningIsSafe(cfg, states, events, i + 1, j, views, h);
    StoredInView(cfg, states[i], views[h], b);
    FinalizesAtHand(cfg, states[j].sync, events[j], h, b, views[h]);
    assert states[j + 1].sync == SyncStep(cfg, states[j].sync, events[j]);
  }

  lemma StoredInView(cfg: Config, s: Sys, view: nat, b: Block)
    requires Enabled(cfg, s, StoreVerified(view, b)) && view >= s.sync.verifiedFloor
    requires view in s.sync.verified ==> s.sync.verified[view].key == b.digest
    ensures var u := After(cfg, s, StoreVerified(view, b)).sync; view in u.verified && u.verified[view].key == b.digest
  {
  }

  lemma FinalizesAtHand(cfg: Config, t: S.State, e: Event, h: nat, b: Block, view: nat)
    requires Sensible(cfg) && CanonSync(cfg, t) && e.Finalize? && SyncEnabled(cfg, t, e)
    requires Carried(cfg.w, h, b) && e.finalization.payload == b.digest
    requires view in t.verified && t.verified[view].key == b.digest
    ensures e.found.Some? && Twins(e.found.value, b) && b.height == h
    ensures var u := SyncStep(cfg, t, e);
            && h in u.blocks && u.tokens > 0 && u.latestView == e.finalization.view
            && u.outstanding == t.outstanding && u.fetched == t.fetched
  {
    if e.buffered.None? { FoundIsKnown(cfg, t, b.digest, e.found); }
    KnownTwins(cfg.p, cfg.w, e.found.value, b);
    PlaceOnChain(cfg.p, cfg.w, b, h);
  }

  /** At most 20 heights are requested, all above the last processed one, and nothing else is fetched by height. */
  lemma RequestWindow(cfg: Config, states: seq<Sys>, events: seq<Event>, i: nat)
    requires Sensible(cfg) && Run(cfg, states, events) && i < |states|
    ensures Requests(states[i].sync, states[i].processed)
    ensures forall h :: h in states[i].sync.requestedBlocks ==> states[i].processed < h <= states[i].processed + 20
    ensures |states[i].sync.requestedBlocks| <= 20
    ensures |states[i].fin.queue| <= 2
  {
    InvThroughout(cfg, states, events, i);
    WindowSize(states[i].sync.requestedBlocks, states[i].processed, 20);
  }

  /** No digest is ever fetched but those of the finalized chain above genesis. */
  lemma FetchesStayOnChain(cfg: Config, states: seq<Sys>, events: seq<Event>, i: nat, digest: Bytes32)
    requires Sensible(cfg) && Run(cfg, states, events) && i < |states|
    requires Key.Digest(digest) in states[i].sync.fetched
    ensures exists h :: OnChain(cfg.w, h, digest)
    ensures digest != cfg.w.genesis.digest
  {
    InvThroughout(cfg, states, events, i);
    var h :| 0 < h < |cfg.w.chain| && cfg.w.chain[h].digest == digest;
    assert OnChain(cfg.w, h, digest);
  }

  /** A finalizer that waits with no token in the channel has seen the store as it is. */
  lemma NoWakeupIsLost(cfg: Config, states: seq<Sys>, events: seq<Event>, i: nat)
    requires Sensible(cfg) && Run(cfg, states, events) && i < |states|
    requires states[i].fin.pc.Waiting? && states[i].sync.tokens == 0
    ensures states[i].sync.blocks == states[i].seen
    ensures S.At(states[i].sync.blocks, states[i].fin.Next()) == states[i].fin.pc.rejected
  {
    InvThroughout(cfg, states, events, i);
  }

  /** And above the next height every gap in reach is being fetched, by digest and by height. */
  lemma SleepsOnlyCovered(cfg: Config, states: seq<Sys>, events: seq<Event>, i: nat, start: nat)
    requires Sensible(cfg) && Run(cfg, states, events) && i < |states|
    requires states[i].fin.pc.Waiting? && states[i].sync.tokens == 0
    requires S.NextStart(states[i].sync.blocks, states[i].fin.Next(), Some(start))
    ensures var t, next := states[i].sync, states[i].fin.Next();
            && start - 1 >= 1 && OnChain(cfg.w, start - 1, t.blocks[start].value.parent)
            && Key.Digest(t.blocks[start].value.parent) in t.outstanding
            && forall h :: next <= h < start && h < next + 20 ==>
                 h in t.requestedBlocks && (Key.Finalized(h) in t.outstanding || h in t.blocks)
  {
    InvThroughout(cfg, states, events, i);
    SoundSleep(cfg, states[i], start);
  }

  /** Every notarization recorded as missing is looked for, has arrived, or is too old to store. */
  lemma MissingNotarizationsSought(cfg: Config, states: seq<Sys>, events: seq<Event>, i: nat)
    requires Sensible(cfg) && Run(cfg, states, events) && i < |states|
    ensures Sought(states[i].sync)
  {
    InvThroughout(cfg, states, events, i);
  }

  /**
   * The head of the loop gives up a missing notarization only when a block finalized in a later view is
   * stored, and gives up nothing else that is looked for.
   */
  lemma GivenUpIsSettled(cfg: Config, states: seq<Sys>, events: seq<Event>, i: nat, key: Key.Value)
    requires Sensible(cfg) && Run(cfg, states, events) && i < |events| && events[i].Tidy?
    requires key in states[i].sync.outstanding && key !in states[i + 1].sync.outstanding
    ensures key.Notarized? && key.view in states[i].sync.outstandingNotarize
    ensures exists h: nat, f :: f in cfg.w.finals && OnChain(cfg.w, h, f.payload) && f.view > key.view
                                && h in states[i + 1].sync.blocks
  {
    InvThroughout(cfg, states, events, i);
    TidyDrops(states[i].sync, key);
    assert states[i + 1].sync == S.Tidied(states[i].sync);
  }

  /**
   * What the finalizer is answered when it asks for the next height: a block exactly when the store has
   * one there, and then the chain's block, whose parent hash is the execution head at the index and, in a
   * life that has committed, the forkchoice shown.
   */
  lemma AnswerIsNextBlock(cfg: Config, states: seq<Sys>, events: seq<Event>, i: nat)
    requires Sensible(cfg) && Run(cfg, states, events) && i < |events| && events[i].ServeGet?
    ensures var f := states[i + 1].fin;
            && f.pc.Deciding? && (f.pc.reply.Some? <==> f.lastIndexed + 1 in states[i].sync.blocks)
            && (f.pc.reply.Some? ==> HeldIsNext(cfg.w, f, f.pc.reply.value))
  {
    InvThroughout(cfg, states, events, i);
    InvAfter(cfg, states[i], events[i]);
    GetAnswered(cfg, states[i]);
    if states[i + 1].fin.pc.reply.Some? { ReplyIsNext(cfg, states[i + 1].fin); }
  }

  ghost predicate HeldIsNext(w: World, f: F.State, b: Block) {
    var next := f.lastIndexed + 1;
    && next < |w.chain| && Twins(b, w.chain[next]) && b.height == next
    && b.EthParentHash() == EthHash(w, next - 1)
    && (f.live ==> b.EthParentHash() == f.head)
  }

  lemma GetAnswered(cfg: Config, s: Sys)
    requires InStep(s) && Enabled(cfg, s, ServeGet)
    ensures After(cfg, s, ServeGet).fin.pc == F.Deciding(S.At(s.sync.blocks, s.fin.Next()))
    ensures After(cfg, s, ServeGet).fin.lastIndexed == s.fin.lastIndexed
  {
  }

  lemma ReplyIsNext(cfg: Config, f: F.State)
    requires Sensible(cfg) && CanonFin(cfg.w, f) && HeadShown(cfg, f) && f.pc.Deciding? && f.pc.reply.Some?
    ensures HeldIsNext(cfg.w, f, f.pc.reply.value)
  {
    PlaceOnChain(cfg.p, cfg.w, f.pc.reply.value, f.Next());
    assert HandleVerify(cfg.w.chain[f.Next()], cfg.w.chain[f.Next() - 1]);
  }

  /**
   * Everyone who came to wait in this life is pending or fired, once for each time they came, and at
   * each height those who came first are fired first; those
   * pending wait for a height not yet reached; and whoever was fired by a commit finds the shared
   * forkchoice at exactly the height they waited for.
   */
  lemma WaitersAreServed(cfg: Config, states: seq<Sys>, events: seq<Event>, i: nat)
    requires Sensible(cfg) && Run(cfg, states, events) && i < |states|
    ensures Conserved(states[i].fin) && InOrder(states[i].fin) && FiredInTime(cfg.w, states[i].fin.fired)
    ensures states[i].fin.pc.AtHead? ==> forall h :: h in states[i].fin.pending ==> h > states[i].fin.lastIndexed
  {
    InvThroughout(cfg, states, events, i);
  }

  /**
   * Between commits the forkchoice shows the indexed height once this life has published one, or if
   * nothing was ever indexed; a restarted process shows genesis until its first commit.
   */
  lemma ForkchoiceShown(cfg: Config, states: seq<Sys>, events: seq<Event>, i: nat)
    requires Sensible(cfg) && Run(cfg, states, events) && i < |states|
    requires !states[i].fin.pc.Published? && !states[i].fin.pc.Persisted?
    ensures states[i].fin.lastIndexed < |cfg.w.chain|
    ensures states[i].fin.head == EthHash(cfg.w, if states[i].fin.live then states[i].fin.lastIndexed else 0)
  {
    InvThroughout(cfg, states, events, i);
  }
}
