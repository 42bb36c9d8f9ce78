/** syncer/src/actor.rs: one loop that stores, serves, repairs and requests blocks. */
module Syncer {
  import opened Bytes
  import opened Wrappers
  import opened Blocks
  import opened Key

  /** How far ahead of the finalizer missing heights are requested. */
  const WINDOW := 20

  /** An archive entry: found by its index, and by the key it was stored under. */
  datatype Keyed<+V> = Keyed(key: Bytes32, value: V)

  type Archive<V> = map<nat, Keyed<V>>

  /**
   * The four archives (a floor is the lowest index a pruned archive still accepts), the loop's
   * variables, what the resolver still looks for and has ever looked for, and the wake-up tokens in
   * the channel to the finalizer.
   */
  datatype State = State(
    verified: Archive<Block>,
    verifiedFloor: nat,
    notarized: Archive<Certified>,
    notarizedFloor: nat,
    finalized: Archive<Certificate>,
    blocks: Archive<Block>,
    latestView: nat,
    lastViewProcessed: nat,
    requestedBlocks: set<nat>,
    outstandingNotarize: set<nat>,
    outstanding: set<Value>,
    fetched: set<Value>,
    tokens: nat)

  /** A process that has just started on these archives. */
  function Booted(verified: Archive<Block>, verifiedFloor: nat, notarized: Archive<Certified>, notarizedFloor: nat,
                  finalized: Archive<Certificate>, blocks: Archive<Block>): State {
    State(verified, verifiedFloor, notarized, notarizedFloor, finalized, blocks, 0, 0, {}, {}, {}, {}, 0)
  }

  // ----- archives, resolver and channel

  /** Nothing is stored at an occupied index or below the floor. */
  function Put<V>(a: Archive<V>, floor: nat, index: nat, key: Bytes32, value: V): Archive<V> {
    if index < floor || index in a then a else a[index := Keyed(key, value)]
  }

  function Pruned<V>(a: Archive<V>, cut: nat): Archive<V> {
    map i | i in a && i >= cut :: a[i]
  }

  function Higher(floor: nat, cut: nat): nat {
    if cut > floor then cut else floor
  }

  function At<V>(a: Archive<V>, index: nat): Option<V> {
    if index in a then Some(a[index].value) else None
  }

  /** What looking up a key may return: some entry with that key, or nothing when there is none. */
  ghost predicate Hit<V(!new)>(a: Archive<V>, key: Bytes32, found: Option<V>) {
    match found
    case None => forall i :: i in a ==> a[i].key != key
    case Some(v) => exists i :: i in a && a[i] == Keyed(key, v)
  }

  /** The buffer of broadcast blocks answers with a block of the digest asked for. */
  ghost predicate BufferAnswer(digest: Bytes32, buffered: Option<Block>) {
    buffered.Some? ==> buffered.value.digest == digest
  }

  /** The block of a notarized entry with this key. */
  ghost predicate HitNotarized(s: State, digest: Bytes32, found: Option<Block>) {
    match found
    case None => Hit(s.notarized, digest, None)
    case Some(b) => exists c: Certified :: c.block == b && Hit(s.notarized, digest, Some(c))
  }

  /** Verified blocks, then notarized ones: where Repair looks. */
  ghost predicate Recent(s: State, digest: Bytes32, found: Option<Block>) {
    || (found.Some? && Hit(s.verified, digest, found))
    || (Hit(s.verified, digest, None) && HitNotarized(s, digest, found))
  }

  /** The buffer first: where Finalize looks. */
  ghost predicate Fresh(s: State, digest: Bytes32, buffered: Option<Block>, found: Option<Block>) {
    if buffered.Some? then found == buffered else Recent(s, digest, found)
  }

  /** Buffer, then verified blocks: where Notarize looks. */
  ghost predicate Proposed(s: State, digest: Bytes32, buffered: Option<Block>, found: Option<Block>) {
    if buffered.Some? then found == buffered else Hit(s.verified, digest, found)
  }

  /** Where a lookup by digest ended. */
  datatype Source = InBuffer | InVerified | InNotarized | InBlocks | Nowhere

  /** Buffer, verified, notarized and finalized blocks, in this order: where Get and Produce look. */
  ghost predicate Lookup(s: State, digest: Bytes32, buffered: Option<Block>, source: Source, found: Option<Block>) {
    match source
    case InBuffer => buffered.Some? && found == buffered
    case InVerified => buffered.None? && found.Some? && Hit(s.verified, digest, found)
    case InNotarized =>
      buffered.None? && Hit(s.verified, digest, None) && found.Some? && HitNotarized(s, digest, found)
    case InBlocks =>
      && buffered.None? && Hit(s.verified, digest, None) && Hit(s.notarized, digest, None)
      && found.Some? && Hit(s.blocks, digest, found)
    case Nowhere =>
      && buffered.None? && Hit(s.verified, digest, None) && Hit(s.notarized, digest, None)
      && found.None? && Hit(s.blocks, digest, None)
  }

  /** A stretch of consecutive stored indices begins here. */
  predicate RangeStart<V>(a: Archive<V>, i: nat) {
    i in a && i > 0 && i - 1 !in a
  }

  /** The second component of `next_gap`: where the next stretch after `n` begins. */
  ghost predicate NextStart<V(!new)>(a: Archive<V>, n: nat, start: Option<nat>) {
    match start
    case None => forall i :: i > n ==> !RangeStart(a, i)
    case Some(s) => s > n && RangeStart(a, s) && forall i :: n < i < s ==> !RangeStart(a, i)
  }

  function Fetch(s: State, key: Value): State {
    s.(outstanding := s.outstanding + {key}, fetched := s.fetched + {key})
  }

  function Cancel(s: State, key: Value): State {
    s.(outstanding := s.outstanding - {key})
  }

  /** `try_send` on a full channel fails, and the failure is ignored. */
  function TokensAfter(tokens: nat, capacity: nat): nat {
    if tokens < capacity then tokens + 1 else tokens
  }

  function MinView(lastViewProcessed: nat, activityTimeout: nat): nat {
    if lastViewProcessed < activityTimeout then 0 else lastViewProcessed - activityTimeout
  }

  // ----- the effect of each message

  /** The head of the loop: notarization requests below the latest view are dropped. */
  function Tidied(s: State): State {
    var stale := set v | v in s.outstandingNotarize && v < s.latestView;
    s.(outstandingNotarize := s.outstandingNotarize - stale,
       outstanding := s.outstanding - Notarizations(stale))
  }

  function Notarizations(views: set<nat>): set<Value> {
    set v | v in views :: Value.Notarized(v)
  }

  function Finalizations(heights: set<nat>): set<Value> {
    set h | h in heights :: Value.Finalized(h)
  }

  function AfterGet(s: State, view: Option<nat>, found: Option<Block>): State {
    if found.None? && view.Some? then Fetch(s, Value.Notarized(view.value)) else s
  }

  function AfterStoreVerified(s: State, view: nat, block: Block): State {
    s.(verified := Put(s.verified, s.verifiedFloor, view, block.digest, block))
  }

  function AfterFinalize(s: State, f: Certificate, found: Option<Block>, verifiedCut: nat, notarizedCut: nat,
                         capacity: nat): State {
    match found
    case None => Fetch(s, Value.Digest(f.payload))
    case Some(block) =>
      s.(finalized := Put(s.finalized, 0, block.height, f.payload, f),
         blocks := Put(s.blocks, 0, block.height, f.payload, block),
         verified := Pruned(s.verified, verifiedCut),
         verifiedFloor := Higher(s.verifiedFloor, verifiedCut),
         notarized := Pruned(s.notarized, notarizedCut),
         notarizedFloor := Higher(s.notarizedFloor, notarizedCut),
         tokens := TokensAfter(s.tokens, capacity),
         latestView := f.view)
  }

  function AfterNotarize(s: State, n: Certificate, found: Option<Block>): State {
    match found
    case None => Fetch(s.(outstandingNotarize := s.outstandingNotarize + {n.view}), Value.Notarized(n.view))
    case Some(block) =>
      s.(notarized := Put(s.notarized, s.notarizedFloor, n.view, n.payload, Certified(n, block)))
  }

  function AfterProcessed(s: State, next: nat, digest: Bytes32): State {
    var finalization := At(s.finalized, next);
    Cancel(Cancel(s, Value.Finalized(next)), Value.Digest(digest)).(
      lastViewProcessed := if finalization.Some? then finalization.value.view else s.lastViewProcessed,
      requestedBlocks := set h | h in s.requestedBlocks && h > next)
  }

  function Missing(s: State, from: nat, to: nat): set<nat> {
    set h | from <= h < to && h !in s.requestedBlocks
  }

  function RequestEnd(next: nat, start: nat): nat {
    if start < next + WINDOW then start else next + WINDOW
  }

  function AfterRequests(s: State, from: nat, to: nat): State {
    var keys := Finalizations(Missing(s, from, to));
    s.(requestedBlocks := s.requestedBlocks + Missing(s, from, to),
       outstanding := s.outstanding + keys,
       fetched := s.fetched + keys)
  }

  /** `found` is the parent of the first block after the gap, looked up among verified and notarized. */
  function AfterRepair(s: State, next: nat, start: Option<nat>, found: Option<Block>): (r: (State, bool))
    requires start.Some? ==> start.value in s.blocks
  {
    if start.None? then (s, false)
    else
      var target := s.blocks[start.value].value.parent;
      if next > 0 && found.Some? then
        (s.(blocks := Put(s.blocks, 0, found.value.height, target, found.value)), true)
      else
        var asked := if next > 0 then Fetch(s, Value.Digest(target)) else s;
        (AfterRequests(asked, next, RequestEnd(next, start.value)), false)
  }

  /** `Crashed` is a read past the end of the delivered bytes. */
  datatype Outcome = Accepted | Rejected | Crashed

  function Judged<T>(r: Read<T>, good: bool): Outcome {
    if r.Panics? then Crashed else if r.Ok? && good then Accepted else Rejected
  }

  /** What the response to a delivery is. */
  function Verdict(p: Primitives, key: Value, bytes: seq<Byte>): Outcome {
    match key
    case Notarized(view) =>
      var r := DecodeCertified(p, bytes);
      Judged(r, r.Ok? && p.notarizationValid(r.value.proof) && r.value.proof.view == view)
    case Finalized(height) =>
      var r := DecodeCertified(p, bytes);
      Judged(r, r.Ok? && p.finalizationValid(r.value.proof) && r.value.block.height == height)
    case Digest(digest) =>
      var r := DecodeBlock(p, bytes);
      Judged(r, r.Ok? && r.value.digest == digest)
  }

  /** When handling a delivery panics. */
  predicate Overruns(p: Primitives, key: Value, bytes: seq<Byte>) {
    if key.Digest? then Short(bytes)
    else p.readProof(bytes).Some? && Short(p.readProof(bytes).value.1)
  }

  /** A delivery panics exactly when a block is read from too few bytes, before any check of the key. */
  lemma CrashedExactly(p: Primitives, key: Value, bytes: seq<Byte>)
    ensures Verdict(p, key, bytes).Crashed? <==> Overruns(p, key, bytes)
  {
    PanicsExactly(p, bytes);
  }

  /** The bytes prove what was asked for: a valid certificate of the view, or for the height, or the block itself. */
  ghost predicate Proves(p: Primitives, key: Value, bytes: seq<Byte>) {
    match key
    case Notarized(view) =>
      exists c :: Carries(p, bytes, c) && p.notarizationValid(c.proof) && c.proof.view == view
    case Finalized(height) =>
      exists c :: Carries(p, bytes, c) && p.finalizationValid(c.proof) && c.block.height == height
    case Digest(digest) =>
      exists b: Block :: bytes == b.WriteBytes() && Sendable(p, b) && b.digest == digest
  }

  /** A delivery is accepted exactly when its bytes prove what was asked for. */
  lemma AcceptedExactly(p: Primitives, key: Value, bytes: seq<Byte>)
    ensures Verdict(p, key, bytes).Accepted? <==> Proves(p, key, bytes)
  {
    if key.Digest? { AcceptedBlock(p, key.digest, bytes); } else { AcceptedCertified(p, key, bytes); }
  }

  lemma AcceptedBlock(p: Primitives, digest: Bytes32, bytes: seq<Byte>)
    ensures Verdict(p, Digest(digest), bytes).Accepted? <==> Proves(p, Digest(digest), bytes)
  {
    var r := DecodeBlock(p, bytes);
    if r.Ok? { WholeExact(p, bytes, r.value); }
    if Proves(p, Digest(digest), bytes) {
      var b: Block :| bytes == b.WriteBytes() && Sendable(p, b) && b.digest == digest;
      WholeExact(p, bytes, b);
    }
  }

  lemma AcceptedCertified(p: Primitives, key: Value, bytes: seq<Byte>)
    requires !key.Digest?
    ensures Verdict(p, key, bytes).Accepted? <==> Proves(p, key, bytes)
  {
    var r := DecodeCertified(p, bytes);
    if r.Ok? {
      CarriesExactly(p, bytes, r.value);
      assert Carries(p, bytes, r.value);
    }
    forall c | Carries(p, bytes, c) ensures r.Ok? && r.value == c { CarriesExactly(p, bytes, c); }
  }

  /** An accepted delivery also ends the request at the resolver. */
  function AfterDeliver(p: Primitives, s: State, key: Value, bytes: seq<Byte>, capacity: nat): State {
    if !Verdict(p, key, bytes).Accepted? then s
    else
      match key
      case Notarized(view) =>
        var c := DecodeCertified(p, bytes).value;
        Cancel(s, key).(notarized := Put(s.notarized, s.notarizedFloor, view, c.block.digest, c))
      case Finalized(height) =>
        var c := DecodeCertified(p, bytes).value;
        Cancel(s, key).(finalized := Put(s.finalized, 0, height, c.block.digest, c.proof),
                        blocks := Put(s.blocks, 0, height, c.block.digest, c.block),
                        tokens := TokensAfter(s.tokens, capacity))
      case Digest(digest) =>
        var b := DecodeBlock(p, bytes).value;
        Cancel(s, key).(blocks := Put(s.blocks, 0, b.height, digest, b),
                        tokens := TokensAfter(s.tokens, capacity))
  }

  /**
   * The bytes sent to a peer that asks for `key`; a digest found among the notarized blocks is answered
   * with the certificate in front.
   */
  ghost predicate Produces(p: Primitives, s: State, key: Value, buffered: Option<Block>, answer: Option<seq<Byte>>) {
    match key
    case Notarized(view) =>
      answer == (match At(s.notarized, view) case None => None case Some(c) => Some(c.WriteBytes(p)))
    case Finalized(height) =>
      answer == (match At(s.finalized, height)
                 case None => None
                 case Some(f) =>
                   match At(s.blocks, height)
                   case None => None
                   case Some(b) => Some(Certified(f, b).WriteBytes(p)))
    case Digest(digest) =>
      exists source, found :: Lookup(s, digest, buffered, source, found) && Written(p, s, digest, source, found, answer)
  }

  ghost predicate Written(p: Primitives, s: State, digest: Bytes32, source: Source, found: Option<Block>,
                          answer: Option<seq<Byte>>)
  {
    if source.InNotarized? then
      exists c: Certified :: Hit(s.notarized, digest, Some(c)) && answer == Some(c.WriteBytes(p))
    else
      answer == if found.None? then None else Some(found.value.WriteBytes())
  }

  // ----- the loop itself

  /** The sending end of the wake-up channel. */
  class TokenChannel {
    const capacity: nat
    var tokens: nat

    constructor (capacity: nat)
      ensures this.capacity == capacity && tokens == 0
    {
      this.capacity := capacity;
      tokens := 0;
    }

    method TrySend() returns (sent: bool)
      modifies this
      ensures tokens == TokensAfter(old(tokens), capacity)
      ensures sent == (old(tokens) < capacity)
    {
      sent := tokens < capacity;
      if sent { tokens := tokens + 1; }
    }
  }

  method Find<V(!new)>(a: Archive<V>, key: Bytes32) returns (found: Option<V>)
    ensures Hit(a, key, found)
  {
    if exists i :: i in a.Keys && a[i].key == key {
      var i :| i in a.Keys && a[i].key == key;
      assert a[i] == Keyed(key, a[i].value);
      found := Some(a[i].value);
    } else {
      found := None;
    }
  }

  lemma {:induction false} LeastStart<V>(a: Archive<V>, n: nat, i: nat)
    requires i > n && RangeStart(a, i)
    ensures exists s :: s in a.Keys && s > n && RangeStart(a, s) && forall j | j in a.Keys :: n < j < s ==> !RangeStart(a, j)
    decreases i
  {
    if j :| j in a.Keys && n < j < i && RangeStart(a, j) {
      LeastStart(a, n, j);
    } else {
      assert forall j | j in a.Keys :: n < j < i ==> !RangeStart(a, j);
    }
  }

  method NextGap<V(!new)>(a: Archive<V>, n: nat) returns (start: Option<nat>)
    ensures NextStart(a, n, start)
  {
    if exists i :: i in a.Keys && i > n && RangeStart(a, i) {
      var i :| i in a.Keys && i > n && RangeStart(a, i);
      LeastStart(a, n, i);
      var s :| s in a.Keys && s > n && RangeStart(a, s)
               && forall j | j in a.Keys :: n < j < s ==> !RangeStart(a, j);
      start := Some(s);
    } else {
      start := None;
    }
  }

  class Actor {
    const p: Primitives
    const activityTimeout: nat
    const tx: TokenChannel
    var verified: Archive<Block>
    var verifiedFloor: nat
    var notarized: Archive<Certified>
    var notarizedFloor: nat
    var finalized: Archive<Certificate>
    var blocks: Archive<Block>
    var latestView: nat
    var lastViewProcessed: nat
    var requestedBlocks: set<nat>
    var outstandingNotarize: set<nat>
    var outstanding: set<Value>
    var fetched: set<Value>

    ghost function Now(): State
      reads this, tx
    {
      State(verified, verifiedFloor, notarized, notarizedFloor, finalized, blocks, latestView,
                   lastViewProcessed, requestedBlocks, outstandingNotarize, outstanding, fetched, tx.tokens)
    }

    constructor (p: Primitives, activityTimeout: nat, tx: TokenChannel,
                 verified: Archive<Block>, verifiedFloor: nat, notarized: Archive<Certified>, notarizedFloor: nat,
                 finalized: Archive<Certificate>, blocks: Archive<Block>)
      requires tx.tokens == 0
      ensures Now() == Booted(verified, verifiedFloor, notarized, notarizedFloor, finalized, blocks)
      ensures this.tx == tx && this.activityTimeout == activityTimeout
    {
      this.p, this.activityTimeout, this.tx := p, activityTimeout, tx;
      this.verified, this.verifiedFloor := verified, verifiedFloor;
      this.notarized, this.notarizedFloor := notarized, notarizedFloor;
      this.finalized, this.blocks := finalized, blocks;
      latestView, lastViewProcessed := 0, 0;
      requestedBlocks, outstandingNotarize, outstanding, fetched := {}, {}, {}, {};
    }

    method ResolverFetch(key: Value)
      modifies this`outstanding, this`fetched
      ensures Now() == Fetch(old(Now()), key)
    {
      outstanding := outstanding + {key};
      fetched := fetched + {key};
    }

    method ResolverCancel(key: Value)
      modifies this`outstanding
      ensures Now() == Cancel(old(Now()), key)
    {
      outstanding := outstanding - {key};
    }

    /** The head of the loop. After it no request of the set is below the latest view. */
    method CancelUseless()
      modifies this`outstandingNotarize, this`outstanding
      ensures Now() == Tidied(old(Now()))
      ensures forall v :: v in outstandingNotarize ==> v >= latestView
    {
      var toCancel := TakeStale();
      CancelAll(toCancel);
    }

    /** `retain`: what does not stay is handed back. */
    method TakeStale() returns (toCancel: set<nat>)
      modifies this`outstandingNotarize
      ensures toCancel == set v | v in old(outstandingNotarize) && v < latestView
      ensures outstandingNotarize == old(outstandingNotarize) - toCancel
    {
      toCancel := {};
      var unseen := outstandingNotarize;
      while unseen != {}
        invariant unseen <= old(outstandingNotarize)
        invariant toCancel == set v | v in old(outstandingNotarize) - unseen && v < latestView
        invariant outstandingNotarize == old(outstandingNotarize) - toCancel
        decreases |unseen|
      {
        var v :| v in unseen;
        unseen := unseen - {v};
        if v < latestView {
          toCancel := toCancel + {v};
          outstandingNotarize := outstandingNotarize - {v};
        }
      }
    }

    method CancelAll(views: set<nat>)
      modifies this`outstanding
      ensures outstanding == old(outstanding) - Notarizations(views)
    {
      var rest := views;
      while rest != {}
        invariant rest <= views
        invariant outstanding == old(outstanding) - Notarizations(views - rest)
        decreases |rest|
      {
        var v :| v in rest;
        ResolverCancel(Value.Notarized(v));
        assert views - (rest - {v}) == (views - rest) + {v};
        assert Notarizations((views - rest) + {v}) == Notarizations(views - rest) + {Value.Notarized(v)};
        rest := rest - {v};
      }
      assert views - rest == views;
    }

    /** `None` when the caller is left subscribed to the buffer. */
    method Get(view: Option<nat>, payload: Bytes32, buffered: Option<Block>) returns (reply: Option<Block>, source: Source)
      modifies this`outstanding, this`fetched
      ensures Lookup(old(Now()), payload, buffered, source, reply)
      ensures Now() == AfterGet(old(Now()), view, reply)
    {
      if buffered.Some? { return buffered, InBuffer; }
      var inVerified := Find(verified, payload);
      if inVerified.Some? { return inVerified, InVerified; }
      var inNotarized := Find(notarized, payload);
      if inNotarized.Some? { return Some(inNotarized.value.block), InNotarized; }
      reply := Find(blocks, payload);
      if reply.Some? { return reply, InBlocks; }
      if view.Some? { ResolverFetch(Value.Notarized(view.value)); }
      source := Nowhere;
    }

    method StoreVerified(view: nat, payload: Block)
      modifies this`verified
      ensures Now() == AfterStoreVerified(old(Now()), view, payload)
    {
      verified := Put(verified, verifiedFloor, view, payload.digest, payload);
    }

    /** Where the two archives cut is their own choice, at or below the view they are told. */
    method Finalize(finalization: Certificate, buffered: Option<Block>, verifiedCut: nat, notarizedCut: nat)
      returns (found: Option<Block>)
      requires verifiedCut <= MinView(lastViewProcessed, activityTimeout)
      requires notarizedCut <= MinView(lastViewProcessed, activityTimeout)
      modifies this, tx
      ensures Fresh(old(Now()), finalization.payload, buffered, found)
      ensures Now() == AfterFinalize(old(Now()), finalization, found, verifiedCut, notarizedCut, tx.capacity)
      ensures found.Some? ==> found.value.height in finalized && found.value.height in blocks
      ensures found.Some? && found.value.height !in old(finalized) ==>
                finalized[found.value.height] == Keyed(finalization.payload, finalization)
    {
      found := FindFresh(finalization.payload, buffered);
      if found.None? {
        ResolverFetch(Value.Digest(finalization.payload));
        return;
      }
      var digest, height := finalization.payload, found.value.height;
      finalized := Put(finalized, 0, height, digest, finalization);
      blocks := Put(blocks, 0, height, digest, found.value);
      Prune(verifiedCut, notarizedCut);
      var _ := tx.TrySend();
      latestView := finalization.view;
    }

    method Prune(verifiedCut: nat, notarizedCut: nat)
      modifies this`verified, this`verifiedFloor, this`notarized, this`notarizedFloor
      ensures verified == Pruned(old(verified), verifiedCut) && notarized == Pruned(old(notarized), notarizedCut)
      ensures verifiedFloor == Higher(old(verifiedFloor), verifiedCut)
      ensures notarizedFloor == Higher(old(notarizedFloor), notarizedCut)
    {
      verified := Pruned(verified, verifiedCut);
      notarized := Pruned(notarized, notarizedCut);
      verifiedFloor := Higher(verifiedFloor, verifiedCut);
      notarizedFloor := Higher(notarizedFloor, notarizedCut);
    }

    method FindFresh(digest: Bytes32, buffered: Option<Block>) returns (found: Option<Block>)
      ensures Fresh(Now(), digest, buffered, found)
    {
      found := buffered;
      if found.None? { found := Find(verified, digest); }
      if found.None? {
        var n := Find(notarized, digest);
        found := if n.Some? then Some(n.value.block) else None;
      }
    }

    method Notarize(notarization: Certificate, buffered: Option<Block>) returns (found: Option<Block>)
      modifies this
      ensures Proposed(old(Now()), notarization.payload, buffered, found)
      ensures Now() == AfterNotarize(old(Now()), notarization, found)
    {
      found := buffered;
      if found.None? { found := Find(verified, notarization.payload); }
      if found.Some? {
        notarized := Put(notarized, notarizedFloor, notarization.view, notarization.payload,
                         Certified(notarization, found.value));
        return;
      }
      outstandingNotarize := outstandingNotarize + {notarization.view};
      ResolverFetch(Value.Notarized(notarization.view));
    }

    method OrchestrationGet(next: nat) returns (block: Option<Block>)
      ensures block == At(Now().blocks, next)
    {
      block := if next in blocks then Some(blocks[next].value) else None;
    }

    method Processed(next: nat, digest: Bytes32)
      modifies this
      ensures Now() == AfterProcessed(old(Now()), next, digest)
    {
      ResolverCancel(Value.Finalized(next));
      ResolverCancel(Value.Digest(digest));
      var finalization := At(finalized, next);
      if finalization.Some? { lastViewProcessed := finalization.value.view; }
      requestedBlocks := set h | h in requestedBlocks && h > next;
    }

    method Repair(next: nat) returns (progress: bool, ghost start: Option<nat>, ghost found: Option<Block>)
      modifies this
      ensures NextStart(old(blocks), next, start)
      ensures start.Some? && next > 0 ==> Recent(old(Now()), old(blocks)[start.value].value.parent, found)
      ensures (Now(), progress) == AfterRepair(old(Now()), next, start, found)
      ensures start.Some? && !progress ==>
                forall h :: next <= h < start.value && h < next + 20 ==> h in requestedBlocks
    {
      found := None;
      var gap := NextGap(blocks, next);
      start := gap;
      if gap.None? { return false, start, found; }
      if next > 0 {
        var target := blocks[gap.value].value.parent;
        var inVerified := Find(verified, target);
        if inVerified.Some? {
          found := inVerified;
          blocks := Put(blocks, 0, inVerified.value.height, target, inVerified.value);
          return true, start, found;
        }
        var inNotarized := Find(notarized, target);
        if inNotarized.Some? {
          var block := inNotarized.value.block;
          found := Some(block);
          blocks := Put(blocks, 0, block.height, target, block);
          return true, start, found;
        }
        ResolverFetch(Value.Digest(target));
      }
      RequestRange(next, RequestEnd(next, gap.value));
      progress := false;
    }

    method RequestRange(from: nat, to: nat)
      modifies this`requestedBlocks, this`outstanding, this`fetched
      ensures Now() == AfterRequests(old(Now()), from, to)
    {
      ghost var before := Now();
      ghost var asked: set<nat> := {};
      var height := from;
      while height < to
        invariant from <= height
        invariant height <= to || (height == from && Missing(before, from, to) == {})
        invariant asked == Missing(before, from, height)
        invariant requestedBlocks == before.requestedBlocks + asked
        invariant outstanding == before.outstanding + Finalizations(asked)
        invariant fetched == before.fetched + Finalizations(asked)
      {
        MissingGrows(before, from, height);
        if height !in requestedBlocks {
          FinalizationsGrow(asked, height);
          ResolverFetch(Value.Finalized(height));
          requestedBlocks := requestedBlocks + {height};
          asked := asked + {height};
        }
        height := height + 1;
      }
    }

    method Deliver(key: Value, value: seq<Byte>) returns (outcome: Outcome)
      modifies this, tx
      ensures outcome == Verdict(p, key, value)
      ensures Now() == AfterDeliver(p, old(Now()), key, value, tx.capacity)
      ensures outcome.Accepted? ==> key !in outstanding
      ensures outcome.Accepted? && key.Notarized? ==> key.view in notarized || key.view < notarizedFloor
      ensures outcome.Accepted? && key.Finalized? ==> key.height in finalized && key.height in blocks
    {
      match key {
        case Notarized(view) =>
          var r := DecodeCertified(p, value);
          if r.Panics? { return Crashed; }
          if r.Invalid? || !p.notarizationValid(r.value.proof) || r.value.proof.view != view { return Rejected; }
          outcome := Accepted;
          ResolverCancel(key);
          notarized := Put(notarized, notarizedFloor, view, r.value.block.digest, r.value);
        case Finalized(height) =>
          var r := DecodeCertified(p, value);
          if r.Panics? { return Crashed; }
          if r.Invalid? || !p.finalizationValid(r.value.proof) || r.value.block.height != height { return Rejected; }
          outcome := Accepted;
          ResolverCancel(key);
          finalized := Put(finalized, 0, height, r.value.block.digest, r.value.proof);
          blocks := Put(blocks, 0, height, r.value.block.digest, r.value.block);
          var _ := tx.TrySend();
        case Digest(digest) =>
          var r := DecodeBlock(p, value);
          if r.Panics? { return Crashed; }
          if r.Invalid? || r.value.digest != digest { return Rejected; }
          outcome := Accepted;
          ResolverCancel(key);
          blocks := Put(blocks, 0, r.value.height, digest, r.value);
          var _ := tx.TrySend();
      }
    }

    /** The key comes from a peer; one with an unknown tag cannot be unpacked, and panics. */
    method Produce(key: MultiIndex, buffered: Option<Block>) returns (panics: bool, answer: Option<seq<Byte>>)
      ensures panics <==> key[0] > 2
      ensures panics ==> answer.None?
      ensures !panics ==> Produces(p, Now(), ToValue(key).value, buffered, answer)
    {
      var value := ToValue(key);
      if value.None? { return true, None; }
      panics := false;
      match value.value {
        case Notarized(view) =>
          answer := if view in notarized then Some(notarized[view].value.WriteBytes(p)) else None;
        case Finalized(height) =>
          if height !in finalized { return false, None; }
          if height !in blocks { return false, None; }
          answer := Some(Certified(finalized[height].value, blocks[height].value).WriteBytes(p));
        case Digest(digest) =>
          answer := ProduceDigest(digest, buffered);
      }
    }

    method ProduceDigest(digest: Bytes32, buffered: Option<Block>) returns (answer: Option<seq<Byte>>)
      ensures Produces(p, Now(), Value.Digest(digest), buffered, answer)
    {
      if buffered.Some? {
        assert Lookup(Now(), digest, buffered, InBuffer, buffered);
        return Some(buffered.value.WriteBytes());
      }
      var inVerified := Find(verified, digest);
      if inVerified.Some? {
        assert Lookup(Now(), digest, buffered, InVerified, inVerified);
        return Some(inVerified.value.WriteBytes());
      }
      var inNotarized := Find(notarized, digest);
      if inNotarized.Some? {
        assert Lookup(Now(), digest, buffered, InNotarized, Some(inNotarized.value.block));
        return Some(inNotarized.value.WriteBytes(p));
      }
      var inBlocks := Find(blocks, digest);
      if inBlocks.Some? {
        assert Lookup(Now(), digest, buffered, InBlocks, inBlocks);
        return Some(inBlocks.value.WriteBytes());
      }
      assert Lookup(Now(), digest, buffered, Nowhere, None);
      answer := None;
    }
  }

  lemma MissingGrows(s: State, from: nat, height: nat)
    requires from <= height
    ensures height !in Missing(s, from, height)
    ensures Missing(s, from, height + 1)
         == Missing(s, from, height) + if height in s.requestedBlocks then {} else {height}
  {
  }

  lemma FinalizationsGrow(heights: set<nat>, height: nat)
    ensures Finalizations(heights + {height}) == Finalizations(heights) + {Value.Finalized(height)}
  {
  }
}
