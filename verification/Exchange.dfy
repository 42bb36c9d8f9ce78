/** What one honest node answers, another accepts: Produce on one side, Deliver on the other. */
module Exchange {
  import opened Bytes
  import opened Wrappers
  import opened Blocks
  import opened Chain
  import opened System
  import opened Runs
  import opened Effects
  import Key
  import S = Syncer

  lemma StoredNotarizedAccepted(cfg: Config, t: S.State, view: nat)
    requires Sensible(cfg) && ProofCodec(cfg.p) && CanonSync(cfg, t) && view in t.notarized
    ensures S.Verdict(cfg.p, Key.Notarized(view), t.notarized[view].value.WriteBytes(cfg.p)).Accepted?
  {
    var c := t.notarized[view].value;
    assert Sendable(cfg.p, c.block);
    WholeCertified(cfg.p, c);
  }

  lemma StoredFinalizedAccepted(cfg: Config, t: S.State, h: nat)
    requires Sensible(cfg) && ProofCodec(cfg.p) && CanonSync(cfg, t) && h in t.finalized && h in t.blocks
    ensures S.Verdict(cfg.p, Key.Finalized(h), Certified(t.finalized[h].value, t.blocks[h].value).WriteBytes(cfg.p)).Accepted?
  {
    var c := Certified(t.finalized[h].value, t.blocks[h].value);
    assert Sendable(cfg.p, c.block);
    PlaceOnChain(cfg.p, cfg.w, c.block, h);
    WholeCertified(cfg.p, c);
  }

  lemma KnownBlockAccepted(cfg: Config, b: Block)
    requires Sensible(cfg) && b in cfg.w.known
    ensures S.Verdict(cfg.p, Key.Digest(b.digest), b.WriteBytes()).Accepted?
  {
    assert Sendable(cfg.p, b);
    WholeExact(cfg.p, b.WriteBytes(), b);
  }

  /**
   * A certificate in front of the block is never taken for the block: what is decoded would have the
   * same hashed bytes, hence the same length, but the answer is longer.
   */
  lemma CertifiedIsNotABlock(cfg: Config, c: Certified)
    requires Sensible(cfg) && ProofCodec(cfg.p) && c.block in cfg.w.known
    requires Authentic(cfg, Key.Digest(c.block.digest), c.WriteBytes(cfg.p))
    ensures !S.Verdict(cfg.p, Key.Digest(c.block.digest), c.WriteBytes(cfg.p)).Accepted?
  {
    var bytes := c.WriteBytes(cfg.p);
    assert cfg.p.proofBytes(c.proof) + [] == cfg.p.proofBytes(c.proof) != [];
    assert |bytes| > |c.block.WriteBytes()|;
    var r := DecodeBlock(cfg.p, bytes);
    if r.Ok? && r.value.digest == c.block.digest {
      WholeExact(cfg.p, bytes, r.value);
      KnownTwins(cfg.p, cfg.w, r.value, c.block);
      SamePreimageSameLength(r.value, c.block);
    }
  }

  lemma SamePreimageSameLength(a: Block, b: Block)
    requires a.Preimage() == b.Preimage()
    ensures |a.SszBytes()| == |b.SszBytes()|
  {
    PreimageFixes(a, b);
    Layout(a);
    Layout(b);
  }

  /** What a node in this state may answer; its buffer, asked for a digest, holds blocks of the run. */
  ghost predicate Answered(cfg: Config, t: S.State, key: Key.Value, buffered: Option<Block>, bytes: seq<Byte>) {
    && (key.Digest? ==> Buffer(cfg, key.digest, buffered))
    && S.Produces(cfg.p, t, key, buffered, Some(bytes))
  }

  /** What is asked for is stored: the pair of that view, both parts at that height, or a block of that digest. */
  ghost predicate Has(t: S.State, key: Key.Value, buffered: Option<Block>) {
    match key
    case Notarized(view) => view in t.notarized
    case Finalized(height) => height in t.finalized && height in t.blocks
    case Digest(digest) =>
      buffered.Some? || Holds(t.verified, digest) || Holds(t.notarized, digest) || Holds(t.blocks, digest)
  }

  /** A node answers exactly when it has what is asked for. */
  lemma AnsweredExactly(p: Primitives, t: S.State, key: Key.Value, buffered: Option<Block>, answer: Option<seq<Byte>>)
    requires S.Produces(p, t, key, buffered, answer)
    ensures answer.Some? <==> Has(t, key, buffered)
  {
    if key.Digest? {
      var source, found :| S.Lookup(t, key.digest, buffered, source, found)
                           && S.Written(p, t, key.digest, source, found, answer);
      LookupExactly(t, key.digest, buffered, source, found);
    }
  }

  /** A digest that neither the buffer nor the verified blocks have, but the notarized ones do. */
  ghost predicate OnlyNotarized(t: S.State, key: Key.Value, buffered: Option<Block>) {
    && key.Digest? && buffered.None?
    && (forall i :: i in t.verified ==> t.verified[i].key != key.digest)
    && exists i :: i in t.notarized && t.notarized[i].key == key.digest
  }

  /**
   * What becomes of an honest answer. It is accepted, unless its key is a digest that only the notarized
   * blocks have: then the certificate is sent along, and the receiver takes its first bytes for a
   * length; it panics if the answer is shorter than that length, and rejects the answer otherwise.
   */
  lemma HonestAnswers(cfg: Config, t: S.State, key: Key.Value, buffered: Option<Block>, bytes: seq<Byte>)
    requires Sensible(cfg) && ProofCodec(cfg.p) && CanonSync(cfg, t)
    requires Answered(cfg, t, key, buffered, bytes) && Authentic(cfg, key, bytes)
    ensures S.Verdict(cfg.p, key, bytes) ==
            if !OnlyNotarized(t, key, buffered) then S.Accepted else if Short(bytes) then S.Crashed else S.Rejected
  {
    match key {
      case Notarized(view) => StoredNotarizedAccepted(cfg, t, view);
      case Finalized(h) => StoredFinalizedAccepted(cfg, t, h);
      case Digest(digest) => DigestAnswer(cfg, t, digest, buffered, bytes);
    }
  }

  lemma DigestAnswer(cfg: Config, t: S.State, digest: Bytes32, buffered: Option<Block>, bytes: seq<Byte>)
    requires Sensible(cfg) && ProofCodec(cfg.p) && CanonSync(cfg, t)
    requires Answered(cfg, t, Key.Digest(digest), buffered, bytes) && Authentic(cfg, Key.Digest(digest), bytes)
    ensures S.Verdict(cfg.p, Key.Digest(digest), bytes) ==
            if !OnlyNotarized(t, Key.Digest(digest), buffered) then S.Accepted
            else if Short(bytes) then S.Crashed else S.Rejected
  {
    var source, found :| S.Lookup(t, digest, buffered, source, found)
                         && S.Written(cfg.p, t, digest, source, found, Some(bytes));
    SourceOnState(t, digest, buffered, source, found);
    if source.InNotarized? {
      var c: Certified :| S.Hit(t.notarized, digest, Some(c)) && bytes == c.WriteBytes(cfg.p);
      NotarizedIsOwn(cfg, t, digest, c);
      CertifiedIsNotABlock(cfg, c);
      S.CrashedExactly(cfg.p, Key.Digest(digest), bytes);
    } else {
      AnswerIsKnown(cfg, t, digest, buffered, source, found);
      KnownBlockAccepted(cfg, found.value);
    }
  }

  /** Which branch answers can be told from the stores. */
  lemma SourceOnState(t: S.State, digest: Bytes32, buffered: Option<Block>, source: S.Source, found: Option<Block>)
    requires S.Lookup(t, digest, buffered, source, found)
    ensures source.InNotarized? <==> OnlyNotarized(t, Key.Digest(digest), buffered)
  {
    if source.InNotarized? {
      var c: Certified :| c.block == found.value && S.Hit(t.notarized, digest, Some(c));
      var i :| i in t.notarized && t.notarized[i] == S.Keyed(digest, c);
      assert t.notarized[i].key == digest;
    }
    if source.InVerified? {
      var i :| i in t.verified && t.verified[i] == S.Keyed(digest, found.value);
      assert t.verified[i].key == digest;
    }
  }

  lemma NotarizedIsOwn(cfg: Config, t: S.State, digest: Bytes32, c: Certified)
    requires CanonSync(cfg, t) && S.Hit(t.notarized, digest, Some(c))
    ensures c.block.digest == digest && c.block in cfg.w.known
  {
    var i :| i in t.notarized && t.notarized[i] == S.Keyed(digest, c);
  }

  lemma AnswerIsKnown(cfg: Config, t: S.State, digest: Bytes32, buffered: Option<Block>, source: S.Source, found: Option<Block>)
    requires CanonSync(cfg, t) && Buffer(cfg, digest, buffered)
    requires S.Lookup(t, digest, buffered, source, found) && found.Some?
    ensures found.value.digest == digest && found.value in cfg.w.known
  {
    ReturnedIsKnown(cfg, t, digest, found.value);
  }

  /** So it is in every state of every run of the answering node. */
  lemma HonestAnswersInRuns(cfg: Config, states: seq<Sys>, events: seq<Event>, i: nat, key: Key.Value,
                            buffered: Option<Block>, bytes: seq<Byte>)
    requires Sensible(cfg) && ProofCodec(cfg.p) && Run(cfg, states, events) && i < |states|
    requires Answered(cfg, states[i].sync, key, buffered, bytes) && Authentic(cfg, key, bytes)
    ensures S.Verdict(cfg.p, key, bytes) ==
            if !OnlyNotarized(states[i].sync, key, buffered) then S.Accepted
            else if Short(bytes) then S.Crashed else S.Rejected
  {
    InvThroughout(cfg, states, events, i);
    HonestAnswers(cfg, states[i].sync, key, buffered, bytes);
  }

  /**
   * A finalized height passes from one node to another: what the first answers for it, in any state of its
   * run, the second stores, unless it has that height already, and then under the same digest.
   */
  lemma HeightTransfers(cfg: Config, there: S.State, buffered: Option<Block>,
                        states: seq<Sys>, events: seq<Event>, i: nat, height: nat)
    requires Sensible(cfg) && ProofCodec(cfg.p) && CanonSync(cfg, there) && Run(cfg, states, events)
    requires i < |events| && events[i].Deliver? && events[i].key == Key.Finalized(height)
    requires S.Produces(cfg.p, there, Key.Finalized(height), buffered, Some(events[i].bytes))
    ensures var t, u := states[i].sync, states[i + 1].sync;
            && height in there.finalized && height in there.blocks
            && height in u.finalized && u.finalized[height].key == there.finalized[height].key
            && height in u.blocks && u.blocks[height].key == there.blocks[height].key
            && (height !in t.finalized ==> u.finalized[height] == there.finalized[height])
            && (height !in t.blocks ==> u.blocks[height] == there.blocks[height])
  {
    AnsweredExactly(cfg.p, there, Key.Finalized(height), buffered, Some(events[i].bytes));
    StoredFinalizedAccepted(cfg, there, height);
    S.AcceptedExactly(cfg.p, events[i].key, events[i].bytes);
    var c := DeliveredFinalization(cfg, states, events, i);
    var sent := Certified(there.finalized[height].value, there.blocks[height].value);
    SentIsCarried(cfg, events[i].bytes, sent, c);
    InvThroughout(cfg, states, events, i + 1);
  }

  lemma SentIsCarried(cfg: Config, bytes: seq<Byte>, sent: Certified, c: Certified)
    requires ProofCodec(cfg.p) && Sendable(cfg.p, sent.block) && sent.proof.payload == sent.block.digest
    requires bytes == sent.WriteBytes(cfg.p) && Carries(cfg.p, bytes, c)
    ensures c == sent
  {
    WrittenIsCarried(cfg.p, sent);
    CarriesExactly(cfg.p, bytes, sent);
    CarriesExactly(cfg.p, bytes, c);
  }

  /** So does a notarized view, unless it is taken or pruned away where it arrives. */
  lemma ViewTransfers(cfg: Config, there: S.State, buffered: Option<Block>,
                      states: seq<Sys>, events: seq<Event>, i: nat, view: nat)
    requires Sensible(cfg) && ProofCodec(cfg.p) && CanonSync(cfg, there) && Run(cfg, states, events)
    requires i < |events| && events[i].Deliver? && events[i].key == Key.Notarized(view)
    requires S.Produces(cfg.p, there, Key.Notarized(view), buffered, Some(events[i].bytes))
    ensures var t, u := states[i].sync, states[i + 1].sync;
            && view in there.notarized
            && (view in u.notarized || view < u.notarizedFloor)
            && (view in u.notarized && view !in t.notarized ==> u.notarized[view] == there.notarized[view])
  {
    AnsweredExactly(cfg.p, there, Key.Notarized(view), buffered, Some(events[i].bytes));
    StoredNotarizedAccepted(cfg, there, view);
    S.AcceptedExactly(cfg.p, events[i].key, events[i].bytes);
    var c := DeliveredNotarization(cfg, states, events, i);
    assert Sendable(cfg.p, there.notarized[view].value.block);
    SentIsCarried(cfg, events[i].bytes, there.notarized[view].value, c);
  }

  /**
   * The exception is met after one message: a node that is told of a notarization whose block is in
   * its buffer, and later no longer is, answers the digest with bytes that no node accepts.
   */
  lemma UnusableAnswer(cfg: Config, n: Certificate, b: Block)
    requires Sensible(cfg) && ProofCodec(cfg.p) && b in cfg.w.known
    requires n.payload == b.digest && cfg.p.notarizationValid(n)
    requires Authentic(cfg, Key.Digest(b.digest), Certified(n, b).WriteBytes(cfg.p))
    ensures var e := Notarize(n, Some(b), Some(b));
            && Enabled(cfg, Initial(cfg), e)
            && var bytes := Certified(n, b).WriteBytes(cfg.p);
               && S.Produces(cfg.p, After(cfg, Initial(cfg), e).sync, Key.Digest(b.digest), None, Some(bytes))
               && S.Verdict(cfg.p, Key.Digest(b.digest), bytes) == if Short(bytes) then S.Crashed else S.Rejected
  {
    var e := Notarize(n, Some(b), Some(b));
    var t := After(cfg, Initial(cfg), e).sync;
    var bytes := Certified(n, b).WriteBytes(cfg.p);
    assert t.notarized[n.view] == S.Keyed(b.digest, Certified(n, b));
    assert S.Hit(t.notarized, b.digest, Some(Certified(n, b)));
    assert S.Lookup(t, b.digest, None, S.InNotarized, Some(b));
    assert S.Written(cfg.p, t, b.digest, S.InNotarized, Some(b), Some(bytes));
    CertifiedIsNotABlock(cfg, Certified(n, b));
    S.CrashedExactly(cfg.p, Key.Digest(b.digest), bytes);
  }

  /**
   * A panic on a delivery is met as soon: after one finalization whose block is missing, its digest has
   * been fetched, and an empty delivery for it is read past its end.
   */
  lemma ShortDeliveryCrashes(cfg: Config, f: Certificate)
    requires Sensible(cfg) && f in cfg.w.finals
    ensures var e := Finalize(f, None, None, 0, 0);
            && Enabled(cfg, Initial(cfg), e)
            && Key.Digest(f.payload) in After(cfg, Initial(cfg), e).sync.fetched
            && S.Verdict(cfg.p, Key.Digest(f.payload), []) == S.Crashed
  {
    S.CrashedExactly(cfg.p, Key.Digest(f.payload), []);
  }
}
