/** What each message leaves in the stores and with the resolver, told from the stores before and after it. */
module Effects {
  import opened Bytes
  import opened Wrappers
  import opened Blocks
  import opened Chain
  import opened System
  import opened Views
  import opened Wakeups
  import opened Runs
  import Key
  import S = Syncer
  import F = Finalizer

  /** Some entry has this key. */
  ghost predicate Holds<V(!new)>(a: S.Archive<V>, key: Bytes32) {
    exists i :: i in a && a[i].key == key
  }

  /** Everything stored stays, and nothing is stored anew but at one index. */
  ghost predicate GrowsAt<V>(before: S.Archive<V>, after: S.Archive<V>, index: nat) {
    Kept(before, after) && forall i :: i in after ==> i in before || i == index
  }

  /** One token more, unless the channel is full. */
  predicate OneToken(cfg: Config, before: nat, after: nat) {
    after == before + 1 || (after == before && before >= cfg.capacity)
  }

  predicate SameArchives(t: S.State, u: S.State) {
    && u.verified == t.verified && u.verifiedFloor == t.verifiedFloor
    && u.notarized == t.notarized && u.notarizedFloor == t.notarizedFloor
    && u.finalized == t.finalized && u.blocks == t.blocks
  }

  predicate SameRequests(t: S.State, u: S.State) {
    && u.outstanding == t.outstanding && u.fetched == t.fetched
    && u.requestedBlocks == t.requestedBlocks && u.outstandingNotarize == t.outstandingNotarize
  }

  /** The key is newly fetched, and nothing else changes with the resolver. */
  predicate Fetched(t: S.State, u: S.State, key: Key.Value) {
    u.outstanding == t.outstanding + {key} && u.fetched == t.fetched + {key}
  }

  lemma Taken(cfg: Config, states: seq<Sys>, events: seq<Event>, i: nat)
    requires Sensible(cfg) && Run(cfg, states, events) && i < |events| && SyncEvent(events[i])
    ensures CanonSync(cfg, states[i].sync) && SyncEnabled(cfg, states[i].sync, events[i])
    ensures states[i + 1].sync == SyncStep(cfg, states[i].sync, events[i]) && states[i + 1].fin == states[i].fin
  {
    InvThroughout(cfg, states, events, i);
    assert Enabled(cfg, states[i], events[i]);
  }

  /** Something is at the index afterwards, and it is what was put if the index was free. */
  lemma PutGrows<V>(a: S.Archive<V>, index: nat, key: Bytes32, value: V)
    ensures var b := S.Put(a, 0, index, key, value);
            GrowsAt(a, b, index) && index in b && b[index] == if index in a then a[index] else S.Keyed(key, value)
  {
  }

  // ----- lookups

  lemma HitMeansHolds<V(!new)>(a: S.Archive<V>, key: Bytes32, found: Option<V>)
    requires S.Hit(a, key, found)
    ensures found.Some? <==> Holds(a, key)
  {
    if found.Some? {
      var i :| i in a && a[i] == S.Keyed(key, found.value);
      assert a[i].key == key;
    }
  }

  lemma NotarizedMeansHolds(t: S.State, digest: Bytes32, found: Option<Block>)
    requires S.HitNotarized(t, digest, found)
    ensures found.Some? <==> Holds(t.notarized, digest)
  {
    if found.Some? {
      var c: Certified :| c.block == found.value && S.Hit(t.notarized, digest, Some(c));
      HitMeansHolds(t.notarized, digest, Some(c));
    } else {
      HitMeansHolds(t.notarized, digest, None);
    }
  }

  lemma RecentExactly(t: S.State, digest: Bytes32, found: Option<Block>)
    requires S.Recent(t, digest, found)
    ensures found.Some? <==> Holds(t.verified, digest) || Holds(t.notarized, digest)
  {
    if found.Some? && S.Hit(t.verified, digest, found) {
      HitMeansHolds(t.verified, digest, found);
    } else {
      HitMeansHolds(t.verified, digest, None);
      NotarizedMeansHolds(t, digest, found);
    }
  }

  /** A lookup finds a block exactly when the buffer answers or one of the three stores has the digest. */
  lemma LookupExactly(t: S.State, digest: Bytes32, buffered: Option<Block>, source: S.Source, found: Option<Block>)
    requires S.Lookup(t, digest, buffered, source, found)
    ensures found.Some? <==>
            buffered.Some? || Holds(t.verified, digest) || Holds(t.notarized, digest) || Holds(t.blocks, digest)
    ensures found.None? <==> source.Nowhere?
  {
    match source {
      case InBuffer =>
      case InVerified => HitMeansHolds(t.verified, digest, found);
      case InNotarized => NotarizedMeansHolds(t, digest, found);
      case InBlocks => HitMeansHolds(t.blocks, digest, found);
      case Nowhere =>
    }
  }

  /**
   * A request for a block by digest changes no store; when no store has the block, the notarization of
   * the given view is fetched, and otherwise nothing is.
   */
  lemma MissIsFetched(cfg: Config, states: seq<Sys>, events: seq<Event>, i: nat)
    requires Sensible(cfg) && Run(cfg, states, events) && i < |events| && events[i].Lookup?
    ensures var t, u, e := states[i].sync, states[i + 1].sync, events[i];
            && SameArchives(t, u) && u.tokens == t.tokens
            && (e.reply.Some? <==> e.buffered.Some? || Holds(t.verified, e.payload) || Holds(t.notarized, e.payload)
                                   || Holds(t.blocks, e.payload))
            && (e.reply.Some? ==> e.reply.value.digest == e.payload)
            && if e.reply.None? && e.askedView.Some? then Fetched(t, u, Key.Notarized(e.askedView.value))
               else SameRequests(t, u)
  {
    Taken(cfg, states, events, i);
    var t, e := states[i].sync, events[i];
    LookupExactly(t, e.payload, e.buffered, e.source, e.reply);
    if e.reply.Some? { ReturnedIsKnown(cfg, t, e.payload, e.reply.value); }
  }

  // ----- consensus

  /** A verified block is stored under its own digest in its view, unless that is taken or pruned away. */
  lemma VerifiedIsStored(cfg: Config, states: seq<Sys>, events: seq<Event>, i: nat)
    requires Sensible(cfg) && Run(cfg, states, events) && i < |events| && events[i].StoreVerified?
    ensures var t, u, v := states[i].sync, states[i + 1].sync, events[i].view;
            && GrowsAt(t.verified, u.verified, v) && (v !in t.verified ==> (v in u.verified <==> v >= t.verifiedFloor))
            && (v in u.verified && v !in t.verified ==>
                  u.verified[v].value == events[i].block && u.verified[v].key == events[i].block.digest)
            && u == t.(verified := u.verified)
  {
    Taken(cfg, states, events, i);
  }

  /**
   * A finalization whose block is at hand, in the buffer or among the verified or notarized blocks, is
   * stored at the height of its block, unless one is there already, and so is the block.
   */
  lemma FinalizationIsStored(cfg: Config, states: seq<Sys>, events: seq<Event>, i: nat, h: nat)
    requires Sensible(cfg) && Run(cfg, states, events) && i < |events| && events[i].Finalize?
    requires OnChain(cfg.w, h, events[i].finalization.payload)
    ensures var t, u, e := states[i].sync, states[i + 1].sync, events[i];
            var digest := e.finalization.payload;
            && (e.found.Some? <==> e.buffered.Some? || Holds(t.verified, digest) || Holds(t.notarized, digest))
            && (e.found.Some? ==>
                  && h in u.finalized && u.finalized[h].value.payload == digest
                  && h in u.blocks && u.blocks[h].value.digest == digest
                  && (h !in t.finalized ==> u.finalized[h].value == e.finalization)
                  && (h !in t.blocks ==> u.blocks[h].value == e.found.value))
  {
    Taken(cfg, states, events, i);
    FinalizeStores(cfg, states[i].sync, events[i], h);
  }

  lemma FinalizeStores(cfg: Config, t: S.State, e: Event, h: nat)
    requires Sensible(cfg) && CanonSync(cfg, t) && e.Finalize? && SyncEnabled(cfg, t, e)
    requires OnChain(cfg.w, h, e.finalization.payload)
    ensures var digest := e.finalization.payload;
            e.found.Some? <==> e.buffered.Some? || Holds(t.verified, digest) || Holds(t.notarized, digest)
    ensures var u := SyncStep(cfg, t, e);
            e.found.Some? ==>
              && h in u.finalized && u.finalized[h].value.payload == e.finalization.payload
              && h in u.blocks && u.blocks[h].value.digest == e.finalization.payload
              && (h !in t.finalized ==> u.finalized[h].value == e.finalization)
              && (h !in t.blocks ==> u.blocks[h].value == e.found.value)
  {
    var f := e.finalization;
    if e.buffered.None? { RecentExactly(t, f.payload, e.found); }
    if e.found.Some? {
      if e.buffered.None? { FoundIsKnown(cfg, t, f.payload, e.found); }
      PlaceOnChain(cfg.p, cfg.w, e.found.value, h);
    }
  }

  /**
   * Besides: a finalization with its block at hand touches no other height, wakes the finalizer and moves
   * the latest view; one without changes nothing but that its digest is fetched.
   */
  lemma FinalizationElsewhere(cfg: Config, states: seq<Sys>, events: seq<Event>, i: nat, h: nat)
    requires Sensible(cfg) && Run(cfg, states, events) && i < |events| && events[i].Finalize?
    requires OnChain(cfg.w, h, events[i].finalization.payload)
    ensures var t, u, e := states[i].sync, states[i + 1].sync, events[i];
            if e.found.Some? then
              && GrowsAt(t.finalized, u.finalized, h) && GrowsAt(t.blocks, u.blocks, h)
              && SameRequests(t, u) && OneToken(cfg, t.tokens, u.tokens) && u.latestView == e.finalization.view
            else
              SameArchives(t, u) && Fetched(t, u, Key.Digest(e.finalization.payload)) && u.tokens == t.tokens
  {
    Taken(cfg, states, events, i);
    FinalizeElsewhere(cfg, states[i].sync, events[i], h);
  }

  lemma FinalizePuts(cfg: Config, t: S.State, e: Event)
    requires e.Finalize? && e.found.Some?
    ensures var u, f, b := SyncStep(cfg, t, e), e.finalization, e.found.value;
            && u.finalized == S.Put(t.finalized, 0, b.height, f.payload, f)
            && u.blocks == S.Put(t.blocks, 0, b.height, f.payload, b)
            && SameRequests(t, u) && OneToken(cfg, t.tokens, u.tokens) && u.latestView == f.view
  {
  }

  lemma FinalizeElsewhere(cfg: Config, t: S.State, e: Event, h: nat)
    requires Sensible(cfg) && CanonSync(cfg, t) && e.Finalize? && SyncEnabled(cfg, t, e)
    requires OnChain(cfg.w, h, e.finalization.payload)
    ensures var u := SyncStep(cfg, t, e);
            if e.found.Some? then
              && GrowsAt(t.finalized, u.finalized, h) && GrowsAt(t.blocks, u.blocks, h)
              && SameRequests(t, u) && OneToken(cfg, t.tokens, u.tokens) && u.latestView == e.finalization.view
            else
              SameArchives(t, u) && Fetched(t, u, Key.Digest(e.finalization.payload)) && u.tokens == t.tokens
  {
    if e.found.Some? {
      if e.buffered.None? { FoundIsKnown(cfg, t, e.finalization.payload, e.found); }
      PlaceOnChain(cfg.p, cfg.w, e.found.value, h);
      FinalizePuts(cfg, t, e);
      PutGrows(t.finalized, h, e.finalization.payload, e.finalization);
      PutGrows(t.blocks, h, e.finalization.payload, e.found.value);
    }
  }

  /**
   * Pruning on a finalization goes exactly as deep as the two archives choose: nothing below the cut is
   * left, everything from it on stays, and so does every view within the activity timeout of the last
   * processed one.
   */
  lemma PrunedExactly(cfg: Config, states: seq<Sys>, events: seq<Event>, i: nat, v: nat)
    requires Sensible(cfg) && Run(cfg, states, events) && i < |events| && events[i].Finalize? && events[i].found.Some?
    ensures var t, u, e := states[i].sync, states[i + 1].sync, events[i];
            && (v in u.verified <==> v in t.verified && v >= e.verifiedCut)
            && (v in u.notarized <==> v in t.notarized && v >= e.notarizedCut)
            && u.verifiedFloor >= e.verifiedCut && u.notarizedFloor >= e.notarizedCut
            && (v + cfg.activityTimeout >= t.lastViewProcessed ==> Spared(t, u, v))
  {
    Taken(cfg, states, events, i);
  }

  /** How deep it may go: up to the activity timeout below the last processed view. */
  lemma CutsAllowed(cfg: Config, t: S.State, e: Event)
    requires e.Finalize? && e.finalization in cfg.w.finals
    requires Buffer(cfg, e.finalization.payload, e.buffered) && S.Fresh(t, e.finalization.payload, e.buffered, e.found)
    ensures SyncEnabled(cfg, t, e) <==>
            && (e.verifiedCut == 0 || e.verifiedCut + cfg.activityTimeout <= t.lastViewProcessed)
            && (e.notarizedCut == 0 || e.notarizedCut + cfg.activityTimeout <= t.lastViewProcessed)
  {
  }

  /**
   * A notarization whose block is in the buffer or was verified is stored with that block, unless its
   * view is taken or pruned away; otherwise its view is recorded as missing, and fetched.
   */
  lemma NotarizationIsStored(cfg: Config, states: seq<Sys>, events: seq<Event>, i: nat)
    requires Sensible(cfg) && Run(cfg, states, events) && i < |events| && events[i].Notarize?
    ensures var t, u, e := states[i].sync, states[i + 1].sync, events[i];
            var v, digest := e.notarization.view, e.notarization.payload;
            && (e.found.Some? <==> e.buffered.Some? || Holds(t.verified, digest))
            && (e.found.Some? ==>
                  && GrowsAt(t.notarized, u.notarized, v)
                  && (v !in t.notarized ==> (v in u.notarized <==> v >= t.notarizedFloor))
                  && (v in u.notarized && v !in t.notarized ==>
                        u.notarized[v] == S.Keyed(digest, Certified(e.notarization, e.found.value)))
                  && SameRequests(t, u))
            && (e.found.None? ==>
                  && SameArchives(t, u) && Fetched(t, u, Key.Notarized(v))
                  && u.outstandingNotarize == t.outstandingNotarize + {v})
  {
    Taken(cfg, states, events, i);
    var t, e := states[i].sync, events[i];
    if e.buffered.None? { HitMeansHolds(t.verified, e.notarization.payload, e.found); }
  }

  // ----- deliveries

  /** A delivery that is not accepted changes nothing. */
  lemma RejectedChangesNothing(cfg: Config, states: seq<Sys>, events: seq<Event>, i: nat)
    requires Sensible(cfg) && Run(cfg, states, events) && i < |events| && events[i].Deliver?
    requires !S.Proves(cfg.p, events[i].key, events[i].bytes)
    ensures states[i + 1].sync == states[i].sync
  {
    Taken(cfg, states, events, i);
    S.AcceptedExactly(cfg.p, events[i].key, events[i].bytes);
  }

  lemma DeliveredPair(cfg: Config, key: Key.Value, bytes: seq<Byte>) returns (c: Certified)
    requires !key.Digest? && S.Proves(cfg.p, key, bytes)
    ensures Carries(cfg.p, bytes, c) && DecodeCertified(cfg.p, bytes) == Ok(c, [])
    ensures S.Verdict(cfg.p, key, bytes).Accepted?
    ensures key.Notarized? ==> cfg.p.notarizationValid(c.proof) && c.proof.view == key.view
    ensures key.Finalized? ==> cfg.p.finalizationValid(c.proof) && c.block.height == key.height
  {
    S.AcceptedExactly(cfg.p, key, bytes);
    c := DecodeCertified(cfg.p, bytes).value;
    S.AcceptedCertified(cfg.p, key, bytes);
    var d :| Carries(cfg.p, bytes, d);
    CarriesExactly(cfg.p, bytes, d);
  }

  /**
   * A delivered notarization that is accepted is stored with its block, whoever asked for it, unless its
   * view is taken or pruned away; from then on the block is found by its digest.
   */
  lemma DeliveredNotarization(cfg: Config, states: seq<Sys>, events: seq<Event>, i: nat) returns (c: Certified)
    requires Sensible(cfg) && Run(cfg, states, events) && i < |events| && events[i].Deliver?
    requires events[i].key.Notarized? && S.Proves(cfg.p, events[i].key, events[i].bytes)
    ensures Carries(cfg.p, events[i].bytes, c) && cfg.p.notarizationValid(c.proof) && c.proof.view == events[i].key.view
    ensures var t, u, v := states[i].sync, states[i + 1].sync, events[i].key.view;
            && GrowsAt(t.notarized, u.notarized, v)
            && (v !in t.notarized ==> (v in u.notarized <==> v >= t.notarizedFloor))
            && (v in u.notarized && v !in t.notarized ==> u.notarized[v] == S.Keyed(c.block.digest, c))
            && u == t.(notarized := u.notarized, outstanding := t.outstanding - {events[i].key})
    ensures var t, u, v := states[i].sync, states[i + 1].sync, events[i].key.view;
            v in u.notarized && v !in t.notarized ==>
              forall buffered, source, found :: S.Lookup(u, c.block.digest, buffered, source, found) ==> found.Some?
  {
    Taken(cfg, states, events, i);
    c := DeliveredPair(cfg, events[i].key, events[i].bytes);
    var u, v := states[i + 1].sync, events[i].key.view;
    if v in u.notarized && v !in states[i].sync.notarized {
      assert u.notarized[v].key == c.block.digest;
      forall buffered, source, found | S.Lookup(u, c.block.digest, buffered, source, found) ensures found.Some? {
        LookupExactly(u, c.block.digest, buffered, source, found);
      }
    }
  }

  /** A delivered finalization that is accepted is stored at its height with its block, and wakes the finalizer. */
  lemma DeliveredFinalization(cfg: Config, states: seq<Sys>, events: seq<Event>, i: nat) returns (c: Certified)
    requires Sensible(cfg) && Run(cfg, states, events) && i < |events| && events[i].Deliver?
    requires events[i].key.Finalized? && S.Proves(cfg.p, events[i].key, events[i].bytes)
    ensures Carries(cfg.p, events[i].bytes, c) && cfg.p.finalizationValid(c.proof) && OnChain(cfg.w, events[i].key.height, c.proof.payload)
    ensures var t, u, h := states[i].sync, states[i + 1].sync, events[i].key.height;
            && h in u.finalized && u.finalized[h].value.payload == c.proof.payload
            && h in u.blocks && u.blocks[h].value.digest == c.proof.payload
            && (h !in t.finalized ==> u.finalized[h].value == c.proof)
            && (h !in t.blocks ==> u.blocks[h].value == c.block)
    ensures var t, u, h := states[i].sync, states[i + 1].sync, events[i].key.height;
            && GrowsAt(t.finalized, u.finalized, h) && GrowsAt(t.blocks, u.blocks, h)
            && OneToken(cfg, t.tokens, u.tokens) && u.outstanding == t.outstanding - {events[i].key}
  {
    Taken(cfg, states, events, i);
    c := DeliveredPair(cfg, events[i].key, events[i].bytes);
    var h := FinalizedHeight(cfg, c.proof);
    PlaceOnChain(cfg.p, cfg.w, c.block, h);
    InvThroughout(cfg, states, events, i + 1);
    FinalizedPuts(cfg, states[i].sync, events[i], c);
    PutGrows(states[i].sync.finalized, h, c.block.digest, c.proof);
    PutGrows(states[i].sync.blocks, h, c.block.digest, c.block);
  }

  lemma FinalizedPuts(cfg: Config, t: S.State, e: Event, c: Certified)
    requires e.Deliver? && e.key.Finalized? && S.Verdict(cfg.p, e.key, e.bytes).Accepted?
    requires DecodeCertified(cfg.p, e.bytes) == Ok(c, [])
    ensures var u := SyncStep(cfg, t, e);
            && u.finalized == S.Put(t.finalized, 0, e.key.height, c.block.digest, c.proof)
            && u.blocks == S.Put(t.blocks, 0, e.key.height, c.block.digest, c.block)
            && OneToken(cfg, t.tokens, u.tokens) && u.outstanding == t.outstanding - {e.key}
  {
  }

  /** A block delivered by its digest is stored at its height of the chain, and wakes the finalizer. */
  lemma DeliveredBlock(cfg: Config, states: seq<Sys>, events: seq<Event>, i: nat) returns (b: Block)
    requires Sensible(cfg) && Run(cfg, states, events) && i < |events| && events[i].Deliver?
    requires events[i].key.Digest? && S.Proves(cfg.p, events[i].key, events[i].bytes)
    ensures events[i].bytes == b.WriteBytes() && Sendable(cfg.p, b) && OnChain(cfg.w, b.height, events[i].key.digest)
    ensures var t, u, h := states[i].sync, states[i + 1].sync, b.height;
            && h in u.blocks && u.blocks[h].value.digest == b.digest == events[i].key.digest
            && (h !in t.blocks ==> u.blocks[h].value == b)
            && GrowsAt(t.blocks, u.blocks, h) && OneToken(cfg, t.tokens, u.tokens)
            && u.outstanding == t.outstanding - {events[i].key}
  {
    Taken(cfg, states, events, i);
    S.AcceptedExactly(cfg.p, events[i].key, events[i].bytes);
    b := DecodeBlock(cfg.p, events[i].bytes).value;
    WholeExact(cfg.p, events[i].bytes, b);
    var h :| 0 < h < |cfg.w.chain| && cfg.w.chain[h].digest == events[i].key.digest;
    PlaceOnChain(cfg.p, cfg.w, b, h);
    InvThroughout(cfg, states, events, i + 1);
    BlockPut(cfg, states[i].sync, events[i], b);
    PutGrows(states[i].sync.blocks, h, b.digest, b);
  }

  lemma BlockPut(cfg: Config, t: S.State, e: Event, b: Block)
    requires e.Deliver? && e.key.Digest? && S.Verdict(cfg.p, e.key, e.bytes).Accepted?
    requires DecodeBlock(cfg.p, e.bytes) == Ok(b, [])
    ensures var u := SyncStep(cfg, t, e);
            && u.blocks == S.Put(t.blocks, 0, b.height, b.digest, b)
            && OneToken(cfg, t.tokens, u.tokens) && u.outstanding == t.outstanding - {e.key}
  {
  }

  // ----- the finalizer's messages

  /**
   * Being told that a height is processed, the syncer stops looking for it, by height and by the chain's
   * digest there, drops every lower height from the window, and takes over the view of the finalization
   * it has stored there, if any.
   */
  lemma ProcessedIsSettled(cfg: Config, states: seq<Sys>, events: seq<Event>, i: nat)
    requires Sensible(cfg) && Run(cfg, states, events) && i < |events| && events[i].ServeProcessed?
    ensures var t, u, n := states[i].sync, states[i + 1].sync, states[i].processed + 1;
            && states[i + 1].processed == n < |cfg.w.chain|
            && u.outstanding == t.outstanding - {Key.Finalized(n), Key.Digest(cfg.w.chain[n].digest)}
            && (forall h :: h in u.requestedBlocks <==> h in t.requestedBlocks && h > n)
            && u.lastViewProcessed == (if n in t.finalized then t.finalized[n].value.view else t.lastViewProcessed)
            && SameArchives(t, u) && u.tokens == t.tokens
  {
    InvThroughout(cfg, states, events, i);
    assert Enabled(cfg, states[i], events[i]);
    ProcessedSettles(cfg, states[i]);
  }

  lemma ProcessedSettles(cfg: Config, s: Sys)
    requires Canon(cfg, s) && InStep(s) && Enabled(cfg, s, ServeProcessed)
    ensures var t, u, n := s.sync, After(cfg, s, ServeProcessed).sync, s.processed + 1;
            && After(cfg, s, ServeProcessed).processed == n < |cfg.w.chain|
            && u.outstanding == t.outstanding - {Key.Finalized(n), Key.Digest(cfg.w.chain[n].digest)}
            && (forall h :: h in u.requestedBlocks <==> h in t.requestedBlocks && h > n)
            && u.lastViewProcessed == (if n in t.finalized then t.finalized[n].value.view else t.lastViewProcessed)
            && SameArchives(t, u) && u.tokens == t.tokens
  {
    assert s.fin.queue[0] in s.fin.queue;
  }

  /** The block below the next stretch is at hand. */
  ghost predicate Repairable(t: S.State, start: Option<nat>) {
    start.Some? && start.value in t.blocks
    && (Holds(t.verified, t.blocks[start.value].value.parent) || Holds(t.notarized, t.blocks[start.value].value.parent))
  }

  /**
   * A repair makes progress exactly when the parent of the next stored stretch was verified or notarized.
   * Then it stores that parent and asks for nothing.
   */
  lemma RepairsExactly(cfg: Config, states: seq<Sys>, events: seq<Event>, i: nat)
    requires Sensible(cfg) && Run(cfg, states, events) && i < |events| && events[i].ServeRepair?
    ensures var t, u, start := states[i].sync, states[i + 1].sync, events[i].start;
            && states[i + 1].fin.pc.Repaired? && (states[i + 1].fin.pc.progress <==> Repairable(t, start))
            && (Repairable(t, start) ==>
                  && start.value > 1 && start.value - 1 !in t.blocks && start.value - 1 in u.blocks
                  && u.blocks[start.value - 1].value.digest == t.blocks[start.value].value.parent
                  && GrowsAt(t.blocks, u.blocks, start.value - 1) && SameRequests(t, u))
            && (!Repairable(t, start) ==> u.blocks == t.blocks)
            && u.tokens == t.tokens
  {
    InvThroughout(cfg, states, events, i);
    assert Enabled(cfg, states[i], events[i]);
    RepairServed(cfg, states[i], events[i]);
    RepairedExactly(cfg, states[i].sync, states[i].fin.Next(), events[i].start, events[i].found);
  }

  lemma RepairServed(cfg: Config, s: Sys, e: Event)
    requires InStep(s) && e.ServeRepair? && Enabled(cfg, s, e)
    ensures var t := After(cfg, s, e);
            && t.sync == S.AfterRepair(s.sync, s.fin.Next(), e.start, e.found).0
            && t.fin.pc.Repaired? && t.fin.pc.progress == S.AfterRepair(s.sync, s.fin.Next(), e.start, e.found).1
    ensures S.NextStart(s.sync.blocks, s.fin.Next(), e.start)
    ensures e.start.Some? ==> S.Recent(s.sync, s.sync.blocks[e.start.value].value.parent, e.found)
  {
  }

  lemma RepairedExactly(cfg: Config, t: S.State, next: nat, start: Option<nat>, found: Option<Block>)
    requires Sensible(cfg) && CanonSync(cfg, t) && next > 0 && S.NextStart(t.blocks, next, start)
    requires start.Some? ==> S.Recent(t, t.blocks[start.value].value.parent, found)
    ensures S.AfterRepair(t, next, start, found).1 <==> Repairable(t, start)
    ensures var u := S.AfterRepair(t, next, start, found).0;
            && u.tokens == t.tokens
            && if !Repairable(t, start) then u.blocks == t.blocks
               else
                 && start.value > 1 && start.value - 1 !in t.blocks && start.value - 1 in u.blocks
                 && u.blocks[start.value - 1].value.digest == t.blocks[start.value].value.parent
                 && GrowsAt(t.blocks, u.blocks, start.value - 1) && SameRequests(t, u)
  {
    if start.Some? {
      RecentExactly(t, t.blocks[start.value].value.parent, found);
      if found.Some? { RepairPuts(cfg, t, next, start.value, found); }
    }
  }

  lemma RepairPuts(cfg: Config, t: S.State, next: nat, start: nat, found: Option<Block>)
    requires Sensible(cfg) && CanonSync(cfg, t) && next > 0 && S.NextStart(t.blocks, next, Some(start))
    requires S.Recent(t, t.blocks[start].value.parent, found) && found.Some?
    ensures start > 1 && start - 1 !in t.blocks
    ensures var u := S.AfterRepair(t, next, Some(start), found).0;
            && u.tokens == t.tokens && SameRequests(t, u)
            && start - 1 in u.blocks && u.blocks[start - 1].value.digest == t.blocks[start].value.parent
            && GrowsAt(t.blocks, u.blocks, start - 1)
  {
    var target := t.blocks[start].value.parent;
    ParentOfStart(cfg, t.blocks, start);
    FoundIsKnown(cfg, t, target, found);
    PlaceOnChain(cfg.p, cfg.w, found.value, start - 1);
    PutGrows(t.blocks, start - 1, target, found.value);
  }

  /**
   * A repair without progress below a stored stretch asks for the block under the stretch by its digest
   * and for the heights short of it, no more than 20, by height; and for nothing else.
   */
  lemma GapIsRequested(cfg: Config, states: seq<Sys>, events: seq<Event>, i: nat, start: nat)
    requires Sensible(cfg) && Run(cfg, states, events) && i < |events| && events[i].ServeRepair?
    requires events[i].start == Some(start) && !Repairable(states[i].sync, Some(start))
    ensures var t, u, next := states[i].sync, states[i + 1].sync, states[i].fin.lastIndexed + 1;
            && start in t.blocks && start > next
            && Key.Digest(t.blocks[start].value.parent) in u.outstanding
            && (forall h :: next <= h < start && h < next + 20 ==>
                  h in u.requestedBlocks && (Key.Finalized(h) in u.outstanding || h in u.blocks))
            && (forall h :: h in u.requestedBlocks ==> h in t.requestedBlocks || (next <= h < start && h < next + 20))
            && (forall k :: k in u.outstanding ==>
                  || k in t.outstanding || k == Key.Digest(t.blocks[start].value.parent)
                  || (k.Finalized? && next <= k.height < start && k.height < next + 20))
  {
    InvThroughout(cfg, states, events, i);
    assert Enabled(cfg, states[i], events[i]);
    var t, next := states[i].sync, states[i].fin.Next();
    RepairServed(cfg, states[i], events[i]);
    RepairedExactly(cfg, t, next, Some(start), events[i].found);
    ProcessedBelowNext(states[i], events[i]);
    GapRequested(t, next, start, events[i].found);
  }

  lemma ProcessedBelowNext(s: Sys, e: Event)
    requires InStep(s) && e.ServeRepair? && JointEnabled(s, e)
    ensures s.processed == s.fin.lastIndexed
  {
  }

  lemma GapRequested(t: S.State, next: nat, start: nat, found: Option<Block>)
    requires next > 0 && S.NextStart(t.blocks, next, Some(start)) && Requests(t, next - 1)
    requires !S.AfterRepair(t, next, Some(start), found).1
    ensures var u := S.AfterRepair(t, next, Some(start), found).0;
            && Key.Digest(t.blocks[start].value.parent) in u.outstanding
            && (forall h :: next <= h < start && h < next + 20 ==>
                  h in u.requestedBlocks && (Key.Finalized(h) in u.outstanding || h in u.blocks))
            && (forall h :: h in u.requestedBlocks ==> h in t.requestedBlocks || (next <= h < start && h < next + 20))
            && (forall k :: k in u.outstanding ==>
                  || k in t.outstanding || k == Key.Digest(t.blocks[start].value.parent)
                  || (k.Finalized? && next <= k.height < start && k.height < next + 20))
  {
    CoveredAfterRepair(t, next, Some(start), found);
  }

  // ----- over a life

  lemma StoresGrow(cfg: Config, s: Sys, e: Event)
    requires Enabled(cfg, s, e) && !e.Crash?
    ensures Kept(s.sync.finalized, After(cfg, s, e).sync.finalized)
    ensures Kept(s.sync.blocks, After(cfg, s, e).sync.blocks)
  {
    if SyncEvent(e) { StoresGrowSync(cfg, s.sync, e); }
  }

  lemma StoresGrowSync(cfg: Config, t: S.State, e: Event)
    requires SyncEvent(e)
    ensures Kept(t.finalized, SyncStep(cfg, t, e).finalized) && Kept(t.blocks, SyncStep(cfg, t, e).blocks)
  {
    if e.Deliver? { StoresGrowDelivered(cfg, t, e); }
    if e.Finalize? && e.found.Some? { FinalizePuts(cfg, t, e); }
  }

  lemma StoresGrowDelivered(cfg: Config, t: S.State, e: Event)
    requires e.Deliver?
    ensures Kept(t.finalized, SyncStep(cfg, t, e).finalized) && Kept(t.blocks, SyncStep(cfg, t, e).blocks)
  {
  }

  lemma StoresGrowNext(cfg: Config, states: seq<Sys>, events: seq<Event>, m: nat)
    requires Run(cfg, states, events) && m < |events| && !events[m].Crash?
    ensures Kept(states[m].sync.finalized, states[m + 1].sync.finalized)
    ensures Kept(states[m].sync.blocks, states[m + 1].sync.blocks)
  {
    assert Enabled(cfg, states[m], events[m]);
    StoresGrow(cfg, states[m], events[m]);
  }

  lemma {:induction false} KeptWhile<V>(archives: seq<S.Archive<V>>, i: nat, j: nat)
    requires i <= j < |archives| && forall m :: i <= m < j ==> Kept(archives[m], archives[m + 1])
    ensures Kept(archives[i], archives[j])
    decreases j
  {
    if i < j { KeptWhile(archives, i, j - 1); }
  }

  /** What was finalized or stored by height is there, unchanged, for as long as the process lives. */
  lemma StoredStays(cfg: Config, states: seq<Sys>, events: seq<Event>, i: nat, j: nat)
    requires Run(cfg, states, events) && OneLife(events, i, j)
    ensures Kept(states[i].sync.finalized, states[j].sync.finalized)
    ensures Kept(states[i].sync.blocks, states[j].sync.blocks)
  {
    var finals := seq(|states|, m requires 0 <= m < |states| => states[m].sync.finalized);
    var blocks := seq(|states|, m requires 0 <= m < |states| => states[m].sync.blocks);
    forall m | i <= m < j ensures Kept(finals[m], finals[m + 1]) && Kept(blocks[m], blocks[m + 1]) {
      StoresGrowNext(cfg, states, events, m);
    }
    KeptWhile(finals, i, j);
    KeptWhile(blocks, i, j);
  }

  /** The head of the loop leaves no recorded view below the latest one, and none of those is looked for. */
  lemma StaleIsGivenUp(cfg: Config, states: seq<Sys>, events: seq<Event>, i: nat, v: nat)
    requires Sensible(cfg) && Run(cfg, states, events) && i < |events| && events[i].Tidy?
    requires v in states[i].sync.outstandingNotarize
    ensures var t, u := states[i].sync, states[i + 1].sync;
            if v < t.latestView then v !in u.outstandingNotarize && Key.Notarized(v) !in u.outstanding
            else v in u.outstandingNotarize && (Key.Notarized(v) in u.outstanding || v in u.notarized || v < u.notarizedFloor)
  {
    Taken(cfg, states, events, i);
    MissingNotarizationsSought(cfg, states, events, i + 1);
  }

  /** The channel never holds more than it can. */
  lemma {:induction false} ChannelFits(cfg: Config, states: seq<Sys>, events: seq<Event>, i: nat)
    requires Sensible(cfg) && Run(cfg, states, events) && i < |states|
    ensures states[i].sync.tokens <= cfg.capacity
  {
    if i > 0 {
      ChannelFits(cfg, states, events, i - 1);
      assert Enabled(cfg, states[i - 1], events[i - 1]);
      TokensFit(cfg, states[i - 1], events[i - 1]);
    }
  }

  lemma TokensFit(cfg: Config, s: Sys, e: Event)
    requires Enabled(cfg, s, e) && s.sync.tokens <= cfg.capacity
    ensures After(cfg, s, e).sync.tokens <= cfg.capacity
  {
  }
}
