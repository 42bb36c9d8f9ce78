/** application/src/actor.rs: proposing, broadcasting and verifying blocks. */
module Application {
  import opened Bytes
  import opened Wrappers
  import opened Blocks
  import opened Chain
  import opened System
  import opened Commits
  import opened Waiters
  import opened Runs
  import F = Finalizer

  /** What the execution layer has built: a payload, its requests and its value. */
  datatype Envelope = Envelope(payload: Payload, requests: seq<seq<Byte>>, blockValue: Bytes32)

  /** The clock, moved past the parent if it is not already; in wrapping u64 arithmetic. */
  function ProposalTime(clock: U64, parentTime: U64): U64 {
    if clock <= parentTime then WrapU64(parentTime + 1) else clock
  }

  function Proposed(p: Primitives, parent: Block, clock: U64, built: Envelope): Block {
    Seal(p, parent.digest, WrapU64(parent.height + 1), ProposalTime(clock, parent.timestamp),
         built.payload, built.requests, built.blockValue)
  }

  /** The execution layer builds on the head it is given. */
  predicate BuildsOn(built: Envelope, head: Bytes32) {
    built.payload[..32] == head
  }

  /**
   * A proposal passes verification against its parent exactly when the forkchoice it was built on is
   * the parent's execution hash and there is a u64 time after the parent's; for every clock reading.
   */
  lemma ProposalVerifies(p: Primitives, parent: Block, clock: U64, built: Envelope, head: Bytes32)
    requires BuildsOn(built, head)
    ensures HandleVerify(Proposed(p, parent, clock, built), parent) <==>
            (head == parent.EthBlockHash() && parent.timestamp < U64_LIMIT - 1)
  {
  }

  /**
   * What is proposed: one block above the parent, with exactly what the execution layer built, sealed; its
   * time is the earliest that is neither before the clock nor at or before the parent, if there is one in u64.
   */
  lemma ProposalExactly(p: Primitives, parent: Block, clock: U64, built: Envelope)
    ensures var b := Proposed(p, parent, clock, built);
            && b.parent == parent.digest && b.height == (parent.height + 1) % 0x1_0000_0000_0000_0000
            && b.payload == built.payload && b.requests == built.requests && b.blockValue == built.blockValue
            && b.digest == p.sha(b.Preimage())
            && (clock > parent.timestamp || parent.timestamp < U64_LIMIT - 1 ==>
                  && b.timestamp >= clock && b.timestamp > parent.timestamp
                  && (b.timestamp == clock || b.timestamp == parent.timestamp + 1))
            && (clock <= parent.timestamp == U64_LIMIT - 1 ==> b.timestamp == 0)
  {
  }

  /**
   * A proposer woken by the commit of its parent's height, and reading the forkchoice of that commit,
   * proposes a block that verifies.
   */
  lemma WokenProposalVerifies(cfg: Config, states: seq<Sys>, events: seq<Event>, i: nat, k: nat,
                              parent: Block, clock: U64, built: Envelope)
    requires Sensible(cfg) && Run(cfg, states, events) && i < |states| && k < |states[i].fin.fired|
    requires var firing := states[i].fin.fired[k];
             firing.byCommit && Carried(cfg.w, firing.waiter.height, parent) && BuildsOn(built, firing.head)
    requires parent.timestamp < U64_LIMIT - 1
    ensures HandleVerify(Proposed(cfg.p, parent, clock, built), parent)
  {
    InvThroughout(cfg, states, events, i);
    var firing := states[i].fin.fired[k];
    CarriedHash(cfg, parent, firing.waiter.height);
    ProposalVerifies(cfg.p, parent, clock, built, firing.head);
  }

  /** On a node that has never indexed anything, a proposal on genesis verifies. */
  lemma FirstProposalVerifies(cfg: Config, states: seq<Sys>, events: seq<Event>, i: nat, clock: U64, built: Envelope)
    requires Sensible(cfg) && Run(cfg, states, events) && i < |states|
    requires states[i].fin.lastIndexed == 0 && !states[i].fin.pc.Published? && !states[i].fin.pc.Persisted?
    requires BuildsOn(built, states[i].fin.head) && cfg.w.genesis.timestamp == 0
    ensures HandleVerify(Proposed(cfg.p, cfg.w.genesis, clock, built), cfg.w.genesis)
  {
    ForkchoiceShown(cfg, states, events, i);
    ProposalVerifies(cfg.p, cfg.w.genesis, clock, built, states[i].fin.head);
  }

  /**
   * A proposer whose height was already indexed when it asked finds the forkchoice at the indexed
   * height, or at genesis in a life that has committed nothing: its block verifies exactly when the
   * chain has the parent's execution hash there.
   */
  lemma LateProposalVerifies(cfg: Config, states: seq<Sys>, events: seq<Event>, i: nat,
                             parent: Block, h: nat, clock: U64, built: Envelope)
    requires Sensible(cfg) && Run(cfg, states, events) && i < |states|
    requires states[i].fin.pc.Waiting? && BuildsOn(built, states[i].fin.head)
    requires Carried(cfg.w, h, parent) && h <= states[i].fin.lastIndexed && parent.timestamp < U64_LIMIT - 1
    ensures states[i].fin.lastIndexed < |cfg.w.chain|
    ensures HandleVerify(Proposed(cfg.p, parent, clock, built), parent) <==>
            EthHash(cfg.w, h) == EthHash(cfg.w, if states[i].fin.live then states[i].fin.lastIndexed else 0)
  {
    ForkchoiceShown(cfg, states, events, i);
    CarriedHash(cfg, parent, h);
    ProposalVerifies(cfg.p, parent, clock, built, states[i].fin.head);
  }

  /** The last block of a chain. */
  function Tip(path: seq<Block>): Block
    requires path != []
  {
    path[|path| - 1]
  }

  /** A block extends an accepted chain exactly when it passes verification against its tip. */
  lemma ExtendsExactly(genesis: Block, path: seq<Block>, block: Block)
    requires Ancestry(genesis, path)
    ensures HandleVerify(block, Tip(path)) <==> Ancestry(genesis, path + [block])
  {
    var longer := path + [block];
    if HandleVerify(block, Tip(path)) {
      forall i | 0 < i < |longer| ensures HandleVerify(longer[i], longer[i - 1]) {
        if i < |path| { assert HandleVerify(path[i], path[i - 1]); }
      }
    }
    if Ancestry(genesis, longer) {
      assert HandleVerify(longer[|path|], longer[|path| - 1]);
    }
  }

  class Actor {
    const p: Primitives
    const genesisHash: Bytes32
    const genesisPayload: Payload
    const forkchoice: F.Forkchoice
    var builtBlock: Option<Block>
    ghost var answered: Option<Bytes32>

    /** What is kept for the broadcast is the sealed block of the last digest answered to consensus. */
    ghost predicate Valid()
      reads this
    {
      if answered.None? then builtBlock.None?
      else builtBlock.Some? && Sealed(p, builtBlock.value) && builtBlock.value.digest == answered.value
    }

    constructor (p: Primitives, genesisHash: Bytes32, genesisPayload: Payload, forkchoice: F.Forkchoice)
      ensures this.p == p && this.genesisHash == genesisHash && this.genesisPayload == genesisPayload
      ensures this.forkchoice == forkchoice && Valid() && answered == None
    {
      this.p, this.genesisHash, this.genesisPayload := p, genesisHash, genesisPayload;
      this.forkchoice := forkchoice;
      builtBlock, answered := None, None;
    }

    /** The parent a message means: genesis by its hash, otherwise what the syncer returns. */
    function Parent(digest: Bytes32, fetched: Block): Block {
      if digest == genesisHash then Genesis(genesisHash, genesisPayload) else fetched
    }

    /** After the wake-up: `None` when the execution layer has nothing to build. */
    method HandleProposal(parentDigest: Bytes32, fetched: Block, clock: U64, built: Option<Envelope>)
      returns (block: Option<Block>)
      requires built.Some? ==> BuildsOn(built.value, forkchoice.head)
      ensures block.Some? <==> built.Some?
      ensures block.Some? ==>
                var parent := if parentDigest == genesisHash then Genesis(genesisHash, genesisPayload) else fetched;
                && Sealed(p, block.value) && block.value.parent == parent.digest
                && block.value.payload == built.value.payload && block.value.requests == built.value.requests
                && block.value.blockValue == built.value.blockValue
                && block.value == Proposed(p, parent, clock, built.value)
                && (HandleVerify(block.value, parent) <==>
                     (forkchoice.head == parent.EthBlockHash() && parent.timestamp < U64_LIMIT - 1))
    {
      var parent := if parentDigest == genesisHash then Genesis(genesisHash, genesisPayload) else fetched;
      var current := clock;
      if current <= parent.timestamp {
        current := WrapU64(parent.timestamp + 1);
      }
      if built.None? { return None; }
      var b := ComputeDigest(p, parent.digest, WrapU64(parent.height + 1), current, built.value.payload,
                             built.value.requests, built.value.blockValue);
      ProposalVerifies(p, parent, clock, built.value, forkchoice.head);
      block := Some(b);
    }

    /** The block is kept for the broadcast, and its digest is the answer; a failure keeps what was there. */
    method Propose(parentDigest: Bytes32, fetched: Block, clock: U64, built: Option<Envelope>)
      returns (response: Option<Bytes32>)
      requires built.Some? ==> BuildsOn(built.value, forkchoice.head)
      requires Valid()
      modifies this`builtBlock, this`answered
      ensures Valid() && answered == if response.Some? then response else old(answered)
      ensures built.None? ==> response.None? && builtBlock == old(builtBlock)
      ensures built.Some? ==>
                && builtBlock == Some(Proposed(p, Parent(parentDigest, fetched), clock, built.value))
                && response == Some(builtBlock.value.digest)
    {
      var block := HandleProposal(parentDigest, fetched, clock, built);
      if block.None? { return None; }
      builtBlock, answered := block, Some(block.value.digest);
      response := Some(block.value.digest);
    }

    /**
     * Sends the sealed block of the last digest answered, whatever digest is asked for, and nothing if
     * none was; the two differ exactly when `matches` is false, which is only logged.
     */
    method Broadcast(payload: Bytes32) returns (sent: Option<Block>, matches: bool)
      requires Valid()
      ensures sent.Some? <==> answered.Some?
      ensures sent.Some? ==> Sealed(p, sent.value) && sent.value.digest == answered.value
      ensures matches <==> answered == Some(payload)
    {
      sent := builtBlock;
      matches := sent.Some? && payload == sent.value.digest;
    }

    /**
     * The vote: the block names its parent by digest, and by execution hash in its payload; it stands one
     * higher, in u64 arithmetic; and it is later. A block that is voted for, and it alone, is handed to the syncer to store:
     * it extends its parent's chain.
     */
    method Verify(parentDigest: Bytes32, fetched: Block, block: Block) returns (vote: bool, stored: Option<Block>)
      ensures forall path :: Ancestry(Genesis(genesisHash, genesisPayload), path)
                             && Tip(path) == Parent(parentDigest, fetched) ==>
                (vote <==> Ancestry(Genesis(genesisHash, genesisPayload), path + [block]))
      ensures var parent := if parentDigest == genesisHash then Genesis(genesisHash, genesisPayload) else fetched;
              vote <==>
                && block.parent == parent.digest
                && block.payload[..32] == (if parent.height == 0 then parent.digest else parent.payload[472..504])
                && block.height == (parent.height + 1) % 0x1_0000_0000_0000_0000
                && block.timestamp > parent.timestamp
      ensures stored.Some? <==> vote
      ensures stored.Some? ==> stored.value == block
    {
      var parent := if parentDigest == genesisHash then Genesis(genesisHash, genesisPayload) else fetched;
      vote := HandleVerify(block, parent);
      stored := if vote then Some(block) else None;
      forall path | Ancestry(Genesis(genesisHash, genesisPayload), path) && Tip(path) == parent
        ensures vote <==> Ancestry(Genesis(genesisHash, genesisPayload), path + [block])
      {
        ExtendsExactly(Genesis(genesisHash, genesisPayload), path, block);
      }
    }
  }
}
