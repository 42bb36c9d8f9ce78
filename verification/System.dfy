/**
 * One node as a transition system: the syncer's messages, the finalizer's steps, the channels between
 * them, and crashes, in any order.
 */
module System {
  import opened Bytes
  import opened Wrappers
  import opened Blocks
  import opened Chain
  import Key
  import S = Syncer
  import F = Finalizer

  datatype Config = Config(p: Primitives, w: World, activityTimeout: nat, capacity: nat)

  /** The wake-up channel can hold a token, and the world is as assumed. */
  ghost predicate Sensible(cfg: Config) {
    cfg.capacity >= 1 && Sound(cfg.p, cfg.w)
  }

  /**
   * The two actors; and, for stating properties, the finalized blocks as they were when the finalizer
   * last looked one up, and the highest height the syncer was told is processed.
   */
  datatype Sys = Sys(sync: S.State, fin: F.State, seen: S.Archive<Block>, processed: nat)

  datatype Event =
    // messages to the syncer, each with what the lookups it makes find
    | Lookup(askedView: Option<nat>, payload: Bytes32, buffered: Option<Block>, source: S.Source, reply: Option<Block>)
    | StoreVerified(view: nat, block: Block)
    | Finalize(finalization: Certificate, buffered: Option<Block>, found: Option<Block>, verifiedCut: nat, notarizedCut: nat)
    | Notarize(notarization: Certificate, buffered: Option<Block>, found: Option<Block>)
    | Deliver(key: Key.Value, bytes: seq<Byte>)
    | Tidy
    // the syncer takes the finalizer's next message
    | ServeGet
    | ServeProcessed
    | ServeRepair(start: Option<nat>, found: Option<Block>)
    // the finalizer's own steps
    | Ask
    | Judge(valid: bool)
    | CommitHead
    | Publish
    | Persist
    | Advance
    | Notify
    | Report
    | AskRepair
    | Resume
    | Wake
    | Mail(waiter: F.Waiter)
    // the process dies, its archives lose any entries, and it starts again
    | Crash(verified: S.Archive<Block>, verifiedFloor: nat, notarized: S.Archive<Certified>, notarizedFloor: nat,
            finalized: S.Archive<Certificate>, blocks: S.Archive<Block>)

  /** What the node does on its own, without consensus, peers, proposers or failures. */
  predicate Internal(e: Event) {
    e.ServeGet? || e.ServeProcessed? || e.ServeRepair? || e.Ask? || e.Judge? || e.CommitHead? || e.Publish?
    || e.Persist? || e.Advance? || e.Notify? || e.Report? || e.AskRepair? || e.Resume? || e.Wake?
  }

  /** Messages that leave the finalizer and the channel to the syncer alone. */
  predicate SyncEvent(e: Event) {
    e.Lookup? || e.StoreVerified? || e.Finalize? || e.Notarize? || e.Deliver? || e.Tidy?
  }

  /** Steps that leave the syncer alone. */
  predicate FinEvent(e: Event) {
    e.Ask? || e.Judge? || e.CommitHead? || e.Publish? || e.Persist? || e.Advance? || e.Notify? || e.Report?
    || e.AskRepair? || e.Resume? || e.Mail?
  }

  /** The syncer takes the finalizer's message, the finalizer takes a token, or both die. */
  predicate JointEvent(e: Event) {
    e.ServeGet? || e.ServeProcessed? || e.ServeRepair? || e.Wake? || e.Crash?
  }

  ghost predicate Kept<V>(after: S.Archive<V>, before: S.Archive<V>) {
    forall i :: i in after ==> i in before && after[i] == before[i]
  }

  /** The buffer holds blocks of the run. */
  ghost predicate Buffer(cfg: Config, digest: Bytes32, buffered: Option<Block>) {
    S.BufferAnswer(digest, buffered) && (buffered.Some? ==> buffered.value in cfg.w.known)
  }

  /** Delivered blocks are blocks of the run, and a delivered finalization that verifies was formed. */
  ghost predicate Authentic(cfg: Config, key: Key.Value, bytes: seq<Byte>) {
    match key
    case Digest(_) =>
      var r := DecodeBlock(cfg.p, bytes);
      r.Ok? ==> r.value in cfg.w.known
    case Notarized(_) =>
      var r := DecodeCertified(cfg.p, bytes);
      r.Ok? ==> r.value.block in cfg.w.known
    case Finalized(_) =>
      var r := DecodeCertified(cfg.p, bytes);
      r.Ok? ==> r.value.block in cfg.w.known
                && (cfg.p.finalizationValid(r.value.proof) ==> r.value.proof in cfg.w.finals)
  }

  ghost predicate SyncEnabled(cfg: Config, t: S.State, e: Event)
    requires SyncEvent(e)
  {
    match e
    case Lookup(_, payload, buffered, source, reply) =>
      Buffer(cfg, payload, buffered) && S.Lookup(t, payload, buffered, source, reply)
    case StoreVerified(_, block) => block in cfg.w.known
    case Finalize(f, buffered, found, verifiedCut, notarizedCut) =>
      && f in cfg.w.finals
      && Buffer(cfg, f.payload, buffered) && S.Fresh(t, f.payload, buffered, found)
      && verifiedCut <= S.MinView(t.lastViewProcessed, cfg.activityTimeout)
      && notarizedCut <= S.MinView(t.lastViewProcessed, cfg.activityTimeout)
    case Notarize(n, buffered, found) =>
      && cfg.p.notarizationValid(n)
      && Buffer(cfg, n.payload, buffered) && S.Proposed(t, n.payload, buffered, found)
    case Deliver(key, bytes) =>
      && key in t.fetched && Authentic(cfg, key, bytes)
      && !S.Verdict(cfg.p, key, bytes).Crashed?
    case Tidy => true
  }

  function SyncStep(cfg: Config, t: S.State, e: Event): S.State
    requires SyncEvent(e)
  {
    match e
    case Lookup(view, _, _, _, reply) => S.AfterGet(t, view, reply)
    case StoreVerified(view, block) => S.AfterStoreVerified(t, view, block)
    case Finalize(c, _, found, verifiedCut, notarizedCut) =>
      S.AfterFinalize(t, c, found, verifiedCut, notarizedCut, cfg.capacity)
    case Notarize(n, _, found) => S.AfterNotarize(t, n, found)
    case Deliver(key, bytes) => S.AfterDeliver(cfg.p, t, key, bytes, cfg.capacity)
    case Tidy => S.Tidied(t)
  }

  predicate FinEnabled(f: F.State, e: Event)
    requires FinEvent(e)
  {
    match e
    case Ask => f.pc.AtHead?
    case Judge(_) => f.pc.Deciding?
    case CommitHead => f.pc.Committing?
    case Publish => f.pc.Committed?
    case Persist => f.pc.Published?
    case Advance => f.pc.Persisted?
    case Notify => f.pc.Notifying?
    case Report => f.pc.Reporting?
    case AskRepair => f.pc.Gap?
    case Resume => f.pc.Repaired?
    case Mail(_) => f.pc.Waiting?
  }

  function FinStep(f: F.State, e: Event): F.State
    requires FinEvent(e) && FinEnabled(f, e)
  {
    match e
    case Ask => F.Ask(f)
    case Judge(valid) => F.Judge(f, f.pc.reply, valid)
    case CommitHead => F.CommitHead(f, f.pc.block)
    case Publish => F.Publish(f, f.pc.block)
    case Persist => F.Persist(f, f.pc.block)
    case Advance => F.Advance(f, f.pc.block)
    case Notify => F.Notify(f, f.pc.block)
    case Report => F.Report(f, f.pc.block)
    case AskRepair => F.AskRepair(f, f.pc.rejected)
    case Resume => F.Resume(f, f.pc.rejected, f.pc.progress)
    case Mail(w) => F.TakeMail(f, w)
  }

  ghost predicate JointEnabled(s: Sys, e: Event)
    requires JointEvent(e)
  {
    var t, queue, pc := s.sync, s.fin.queue, s.fin.pc;
    match e
    case ServeGet => queue != [] && queue[0].Get? && pc.AwaitGet?
    case ServeProcessed => queue != [] && queue[0].Processed?
    case ServeRepair(start, found) =>
      && queue != [] && queue[0].Repair? && pc.AwaitRepair?
      && S.NextStart(t.blocks, queue[0].next, start)
      && (start.Some? && queue[0].next > 0 ==> S.Recent(t, t.blocks[start.value].value.parent, found))
    case Wake => pc.Waiting? && t.tokens > 0
    case Crash(verified, _, notarized, _, finalized, blocks) =>
      && Kept(verified, t.verified) && Kept(notarized, t.notarized)
      && Kept(finalized, t.finalized) && Kept(blocks, t.blocks)
  }

  ghost function JointStep(cfg: Config, s: Sys, e: Event): Sys
    requires JointEvent(e) && JointEnabled(s, e)
  {
    var f := s.fin;
    match e
    case ServeGet =>
      s.(fin := f.(pc := F.Deciding(S.At(s.sync.blocks, f.queue[0].next)), queue := f.queue[1..]),
         seen := s.sync.blocks)
    case ServeProcessed =>
      s.(sync := S.AfterProcessed(s.sync, f.queue[0].next, f.queue[0].digest),
         fin := f.(queue := f.queue[1..]), processed := f.queue[0].next)
    case ServeRepair(start, found) =>
      var (sync, progress) := S.AfterRepair(s.sync, f.queue[0].next, start, found);
      s.(sync := sync, fin := f.(pc := F.Repaired(f.pc.rejected, progress), queue := f.queue[1..]))
    case Wake => s.(fin := F.Wake(f), sync := s.sync.(tokens := s.sync.tokens - 1))
    case Crash(verified, verifiedFloor, notarized, notarizedFloor, finalized, blocks) =>
      Sys(S.Booted(verified, verifiedFloor, notarized, notarizedFloor, finalized, blocks),
          F.Booted(f.persisted, cfg.w.genesis.digest, f.log, f.life + 1), map[], f.persisted)
  }

  ghost predicate Enabled(cfg: Config, s: Sys, e: Event) {
    if SyncEvent(e) then SyncEnabled(cfg, s.sync, e)
    else if FinEvent(e) then FinEnabled(s.fin, e)
    else JointEnabled(s, e)
  }

  ghost function After(cfg: Config, s: Sys, e: Event): Sys
    requires Enabled(cfg, s, e)
  {
    if SyncEvent(e) then s.(sync := SyncStep(cfg, s.sync, e))
    else if FinEvent(e) then s.(fin := FinStep(s.fin, e))
    else JointStep(cfg, s, e)
  }

  /** A node started for the first time. */
  function Initial(cfg: Config): Sys {
    Sys(S.Booted(map[], 0, map[], 0, map[], map[]), F.Booted(0, cfg.w.genesis.digest, [], 0), map[], 0)
  }

  /** The states of a run, one more than its events. */
  ghost predicate Run(cfg: Config, states: seq<Sys>, events: seq<Event>) {
    && |states| == |events| + 1
    && states[0] == Initial(cfg)
    && forall i :: 0 <= i < |events| ==>
         Enabled(cfg, states[i], events[i]) && states[i + 1] == After(cfg, states[i], events[i])
  }

  // ----- the stores hold the chain

  /** `d` is the digest of the chain's block at height `h`, above genesis. */
  ghost predicate OnChain(w: World, h: nat, d: Bytes32) {
    0 < h < |w.chain| && d == w.chain[h].digest
  }

  /** A block of the run that stands at height `h` of the chain. */
  ghost predicate Carried(w: World, h: nat, b: Block) {
    OnChain(w, h, b.digest) && b in w.known
  }

  ghost predicate CanonBlocks(w: World, a: S.Archive<Block>) {
    forall h :: h in a ==> Carried(w, h, a[h].value) && a[h].key == a[h].value.digest
  }

  ghost predicate CanonFinals(w: World, a: S.Archive<Certificate>) {
    forall h :: h in a ==> OnChain(w, h, a[h].key) && a[h].key == a[h].value.payload && a[h].value in w.finals
  }

  ghost predicate OwnDigests(w: World, a: S.Archive<Block>) {
    forall v :: v in a ==> a[v].key == a[v].value.digest && a[v].value in w.known
  }

  ghost predicate OwnProofs(p: Primitives, w: World, a: S.Archive<Certified>) {
    forall v :: v in a ==>
      && a[v].key == a[v].value.block.digest == a[v].value.proof.payload
      && a[v].value.block in w.known
      && a[v].value.proof.view == v && p.notarizationValid(a[v].value.proof)
  }

  /** Only digests of finalized blocks and their ancestors, never genesis, are asked for. */
  ghost predicate FetchesFinalized(w: World, fetched: set<Key.Value>) {
    forall d :: Key.Digest(d) in fetched ==> Finalizes(w, d)
  }

  ghost predicate Held(w: World, f: F.State) {
    match f.pc
    case Deciding(reply) => reply.Some? ==> Carried(w, f.Next(), reply.value)
    case Committing(b) => Carried(w, f.Next(), b)
    case Committed(b) => Carried(w, f.Next(), b)
    case Published(b) => Carried(w, f.Next(), b)
    case Persisted(b) => Carried(w, f.Next(), b)
    case Notifying(b) => Carried(w, f.lastIndexed, b)
    case Reporting(b) => Carried(w, f.lastIndexed, b)
    case _ => true
  }

  ghost predicate CanonSync(cfg: Config, t: S.State) {
    && CanonBlocks(cfg.w, t.blocks)
    && CanonFinals(cfg.w, t.finalized)
    && OwnDigests(cfg.w, t.verified)
    && OwnProofs(cfg.p, cfg.w, t.notarized)
    && FetchesFinalized(cfg.w, t.fetched)
    && t.outstanding <= t.fetched
  }

  ghost predicate CanonFin(w: World, f: F.State) {
    && f.lastIndexed < |w.chain|
    && f.persisted < |w.chain|
    && Held(w, f)
    && forall m :: m in f.queue && m.Processed? ==> OnChain(w, m.next, m.digest)
  }

  ghost predicate Canon(cfg: Config, s: Sys) {
    CanonSync(cfg, s.sync) && CanonFin(cfg.w, s.fin)
  }

  // ----- the two actors are in step

  /** The one report that may be under way. */
  predicate ReportOf(f: F.State, m: F.Message) {
    m.Processed? && m.next == f.lastIndexed && m.next > 0
  }

  predicate QueueShape(f: F.State) {
    match f.pc
    case AtHead => f.queue == [] || (|f.queue| == 1 && ReportOf(f, f.queue[0]))
    case AwaitGet =>
      || f.queue == [F.Get(f.Next())]
      || (|f.queue| == 2 && ReportOf(f, f.queue[0]) && f.queue[1] == F.Get(f.Next()))
    case AwaitRepair(_) => f.queue == [F.Repair(f.Next())]
    case _ => f.queue == []
  }

  /** The finalizer has moved on and the syncer has not been told yet. */
  predicate Ahead(f: F.State) {
    f.pc.Notifying? || f.pc.Reporting? || (f.queue != [] && f.queue[0].Processed?)
  }

  predicate FinInStep(f: F.State, processed: nat) {
    && QueueShape(f)
    && processed + (if Ahead(f) then 1 else 0) == f.lastIndexed
    && f.persisted == f.lastIndexed + (if f.pc.Persisted? then 1 else 0)
  }

  predicate InStep(s: Sys) {
    FinInStep(s.fin, s.processed)
  }

  // ----- preservation, route by route

  lemma FoundIsKnown(cfg: Config, t: S.State, digest: Bytes32, found: Option<Block>)
    requires CanonSync(cfg, t) && found.Some?
    requires S.Recent(t, digest, found) || S.Hit(t.verified, digest, found)
    ensures found.value.digest == digest && found.value in cfg.w.known
  {
    if S.Hit(t.verified, digest, found) {
      var i :| i in t.verified && t.verified[i] == S.Keyed(digest, found.value);
    } else {
      var c: Certified :| c.block == found.value && S.Hit(t.notarized, digest, Some(c));
      var i :| i in t.notarized && t.notarized[i] == S.Keyed(digest, c);
    }
  }

  lemma PutCanonBlock(cfg: Config, a: S.Archive<Block>, b: Block, h: nat)
    requires Sensible(cfg) && CanonBlocks(cfg.w, a) && Carried(cfg.w, h, b)
    ensures b.height == h
    ensures CanonBlocks(cfg.w, S.Put(a, 0, b.height, b.digest, b))
  {
    PlaceOnChain(cfg.p, cfg.w, b, h);
  }

  lemma PutCanonFinal(w: World, a: S.Archive<Certificate>, f: Certificate, h: nat)
    requires CanonFinals(w, a) && OnChain(w, h, f.payload) && f in w.finals
    ensures CanonFinals(w, S.Put(a, 0, h, f.payload, f))
  {
  }

  lemma PrunedKeeps(p: Primitives, w: World, v: S.Archive<Block>, n: S.Archive<Certified>, vc: nat, nc: nat)
    requires OwnDigests(w, v) && OwnProofs(p, w, n)
    ensures OwnDigests(w, S.Pruned(v, vc)) && OwnProofs(p, w, S.Pruned(n, nc))
  {
  }

  /** Route 1: a finalization whose block is at hand. */
  lemma CanonAfterFinalize(cfg: Config, t: S.State, f: Certificate, buffered: Option<Block>, found: Option<Block>,
                           vc: nat, nc: nat)
    requires Sensible(cfg) && CanonSync(cfg, t) && f in cfg.w.finals
    requires Buffer(cfg, f.payload, buffered) && S.Fresh(t, f.payload, buffered, found)
    ensures CanonSync(cfg, S.AfterFinalize(t, f, found, vc, nc, cfg.capacity))
  {
    var h := FinalizedHeight(cfg, f);
    if found.Some? {
      if buffered.None? { FoundIsKnown(cfg, t, f.payload, found); }
      PutCanonBlock(cfg, t.blocks, found.value, h);
      PutCanonFinal(cfg.w, t.finalized, f, h);
      PrunedKeeps(cfg.p, cfg.w, t.verified, t.notarized, vc, nc);
    }
  }

  lemma FinalizedHeight(cfg: Config, f: Certificate) returns (h: nat)
    requires Sensible(cfg) && f in cfg.w.finals
    ensures OnChain(cfg.w, h, f.payload) && Finalizes(cfg.w, f.payload)
  {
    assert Finalizes(cfg.w, f.payload);
    h :| 0 < h < |cfg.w.chain| && cfg.w.chain[h].digest == f.payload;
  }

  lemma CanonAfterNotarize(cfg: Config, t: S.State, n: Certificate, buffered: Option<Block>, found: Option<Block>)
    requires CanonSync(cfg, t) && cfg.p.notarizationValid(n)
    requires Buffer(cfg, n.payload, buffered) && S.Proposed(t, n.payload, buffered, found)
    ensures CanonSync(cfg, S.AfterNotarize(t, n, found))
  {
    if found.Some? && buffered.None? { FoundIsKnown(cfg, t, n.payload, found); }
  }

  /** The parent of a stored block above a gap is the chain's block one lower, and not genesis. */
  lemma ParentOfStart(cfg: Config, a: S.Archive<Block>, start: nat)
    requires Sensible(cfg) && CanonBlocks(cfg.w, a) && start in a && start > 1
    ensures OnChain(cfg.w, start - 1, a[start].value.parent)
    ensures Finalizes(cfg.w, a[start].value.parent)
  {
    PlaceOnChain(cfg.p, cfg.w, a[start].value, start);
    assert OnChain(cfg.w, start - 1, a[start].value.parent);
  }

  /** Routes 2 and 3: a gap is repaired from the verified or the notarized blocks. */
  lemma CanonAfterRepair(cfg: Config, t: S.State, next: nat, start: Option<nat>, found: Option<Block>)
    requires Sensible(cfg) && CanonSync(cfg, t) && next > 0 && S.NextStart(t.blocks, next, start)
    requires start.Some? ==> S.Recent(t, t.blocks[start.value].value.parent, found)
    ensures CanonSync(cfg, S.AfterRepair(t, next, start, found).0)
  {
    if start.Some? {
      ParentOfStart(cfg, t.blocks, start.value);
      var target := t.blocks[start.value].value.parent;
      if found.Some? {
        FoundIsKnown(cfg, t, target, found);
        PutCanonBlock(cfg, t.blocks, found.value, start.value - 1);
      }
    }
  }

  /** Route 4: a peer delivers a finalized block. */
  lemma CanonAfterFinalized(cfg: Config, t: S.State, height: nat, bytes: seq<Byte>)
    requires Sensible(cfg) && CanonSync(cfg, t) && Authentic(cfg, Key.Finalized(height), bytes)
    ensures CanonSync(cfg, S.AfterDeliver(cfg.p, t, Key.Finalized(height), bytes, cfg.capacity))
  {
    if S.Verdict(cfg.p, Key.Finalized(height), bytes).Accepted? {
      CertifiedReadSound(cfg.p, bytes);
      var c := DecodeCertified(cfg.p, bytes).value;
      var h := FinalizedHeight(cfg, c.proof);
      PutCanonBlock(cfg, t.blocks, c.block, h);
      PutCanonFinal(cfg.w, t.finalized, c.proof, h);
    }
  }

  /** Route 5: a peer delivers a block by its digest. */
  lemma CanonAfterDigest(cfg: Config, t: S.State, digest: Bytes32, bytes: seq<Byte>)
    requires Sensible(cfg) && CanonSync(cfg, t) && Authentic(cfg, Key.Digest(digest), bytes)
    requires Key.Digest(digest) in t.fetched
    ensures CanonSync(cfg, S.AfterDeliver(cfg.p, t, Key.Digest(digest), bytes, cfg.capacity))
  {
    if S.Verdict(cfg.p, Key.Digest(digest), bytes).Accepted? {
      var b := DecodeBlock(cfg.p, bytes).value;
      var h :| 0 < h < |cfg.w.chain| && cfg.w.chain[h].digest == digest;
      PutCanonBlock(cfg, t.blocks, b, h);
    }
  }

  lemma CanonAfterNotarized(cfg: Config, t: S.State, view: nat, bytes: seq<Byte>)
    requires CanonSync(cfg, t) && Authentic(cfg, Key.Notarized(view), bytes)
    ensures CanonSync(cfg, S.AfterDeliver(cfg.p, t, Key.Notarized(view), bytes, cfg.capacity))
  {
    if S.Verdict(cfg.p, Key.Notarized(view), bytes).Accepted? {
      CertifiedReadSound(cfg.p, bytes);
    }
  }

  lemma CanonAfterDeliver(cfg: Config, t: S.State, key: Key.Value, bytes: seq<Byte>)
    requires Sensible(cfg) && CanonSync(cfg, t) && Authentic(cfg, key, bytes) && key in t.fetched
    ensures CanonSync(cfg, S.AfterDeliver(cfg.p, t, key, bytes, cfg.capacity))
  {
    match key {
      case Notarized(view) => CanonAfterNotarized(cfg, t, view, bytes);
      case Finalized(height) => CanonAfterFinalized(cfg, t, height, bytes);
      case Digest(digest) => CanonAfterDigest(cfg, t, digest, bytes);
    }
  }

  lemma CanonSyncStep(cfg: Config, t: S.State, e: Event)
    requires Sensible(cfg) && CanonSync(cfg, t) && SyncEvent(e) && SyncEnabled(cfg, t, e)
    ensures CanonSync(cfg, SyncStep(cfg, t, e))
  {
    match e {
      case Finalize(f, buffered, found, vc, nc) => CanonAfterFinalize(cfg, t, f, buffered, found, vc, nc);
      case Notarize(n, buffered, found) => CanonAfterNotarize(cfg, t, n, buffered, found);
      case Deliver(key, bytes) => CanonAfterDeliver(cfg, t, key, bytes);
      case _ =>
    }
  }

  lemma CanonKept(cfg: Config, t: S.State, u: S.State)
    requires CanonSync(cfg, t) && Kept(u.verified, t.verified) && Kept(u.notarized, t.notarized)
    requires Kept(u.finalized, t.finalized) && Kept(u.blocks, t.blocks)
    requires u.fetched <= t.fetched && u.outstanding <= u.fetched
    ensures CanonSync(cfg, u)
  {
  }

  lemma CanonSyncJoint(cfg: Config, s: Sys, e: Event)
    requires Sensible(cfg) && CanonSync(cfg, s.sync) && InStep(s) && JointEvent(e) && JointEnabled(s, e)
    ensures CanonSync(cfg, JointStep(cfg, s, e).sync)
  {
    match e {
      case ServeRepair(start, found) => CanonAfterRepair(cfg, s.sync, s.fin.queue[0].next, start, found);
      case Crash(_, _, _, _, _, _) => CanonKept(cfg, s.sync, JointStep(cfg, s, e).sync);
      case _ =>
    }
  }

  /** Whichever route a block takes into the store, the store stays a part of the finalized chain. */
  lemma CanonSyncAfter(cfg: Config, s: Sys, e: Event)
    requires Sensible(cfg) && CanonSync(cfg, s.sync) && InStep(s) && Enabled(cfg, s, e)
    ensures CanonSync(cfg, After(cfg, s, e).sync)
  {
    if SyncEvent(e) {
      CanonSyncStep(cfg, s.sync, e);
    } else if !FinEvent(e) {
      CanonSyncJoint(cfg, s, e);
    }
  }

  lemma CanonFinStep(w: World, f: F.State, e: Event)
    requires CanonFin(w, f) && FinEvent(e) && FinEnabled(f, e)
    ensures CanonFin(w, FinStep(f, e))
  {
  }

  lemma CanonFinJoint(cfg: Config, s: Sys, e: Event)
    requires Canon(cfg, s) && InStep(s) && JointEvent(e) && JointEnabled(s, e)
    ensures CanonFin(cfg.w, JointStep(cfg, s, e).fin)
  {
  }

  lemma CanonAfter(cfg: Config, s: Sys, e: Event)
    requires Sensible(cfg) && Canon(cfg, s) && InStep(s) && Enabled(cfg, s, e)
    ensures Canon(cfg, After(cfg, s, e))
  {
    CanonSyncAfter(cfg, s, e);
    if FinEvent(e) {
      CanonFinStep(cfg.w, s.fin, e);
    } else if !SyncEvent(e) {
      CanonFinJoint(cfg, s, e);
    }
  }

  lemma InStepFin(f: F.State, processed: nat, e: Event)
    requires FinInStep(f, processed) && FinEvent(e) && FinEnabled(f, e)
    ensures FinInStep(FinStep(f, e), processed)
  {
  }

  lemma InStepJoint(cfg: Config, s: Sys, e: Event)
    requires InStep(s) && JointEvent(e) && JointEnabled(s, e)
    ensures InStep(JointStep(cfg, s, e))
  {
  }

  lemma InStepAfter(cfg: Config, s: Sys, e: Event)
    requires InStep(s) && Enabled(cfg, s, e)
    ensures InStep(After(cfg, s, e))
  {
    if FinEvent(e) {
      InStepFin(s.fin, s.processed, e);
    } else if !SyncEvent(e) {
      InStepJoint(cfg, s, e);
    }
  }
}
