/** application/src/finalizer.rs: walking the finalized heights one by one, and waking who waits for them. */
module Finalizer {
  import opened Bytes
  import opened Wrappers
  import opened Blocks

  /** A sender, named by a number, and the height its owner waits for. */
  datatype Waiter = Waiter(height: nat, sender: nat)

  /** Those waiting, by height and, at one height, in order of arrival. */
  type Pending = map<nat, seq<Waiter>>

  // ----- HeightNotifier

  function Registered(pending: Pending, w: Waiter): Pending {
    pending[w.height := At(pending, w.height) + [w]]
  }

  /** What remains after `notify_up_to(h)`. */
  function Above(pending: Pending, h: nat): Pending {
    map k | k in pending && k > h :: pending[k]
  }

  function At(pending: Pending, h: nat): seq<Waiter> {
    if h in pending then pending[h] else []
  }

  /** Everyone waiting for a height up to `h`, lowest height first. */
  function UpTo(pending: Pending, h: nat): seq<Waiter> {
    (if h == 0 then [] else UpTo(pending, h - 1)) + At(pending, h)
  }

  lemma UpToUnfolds(pending: Pending, n: nat)
    requires n > 0
    ensures UpTo(pending, n) == UpTo(pending, n - 1) + At(pending, n)
  {
  }

  lemma Reassociate(a: seq<Waiter>, b: seq<Waiter>, c: seq<Waiter>)
    ensures (a + b) + c == a + (b + c)
  {
  }

  ghost predicate Within(pending: Pending, n: nat) {
    forall k :: k in pending ==> k <= n
  }

  lemma {:induction false} UpToSame(a: Pending, b: Pending, h: nat)
    requires forall k: nat :: k <= h ==> At(a, k) == At(b, k)
    ensures UpTo(a, h) == UpTo(b, h)
  {
    if h > 0 { UpToSame(a, b, h - 1); }
  }

  lemma {:induction false} UpToStops(pending: Pending, n: nat, m: nat)
    requires Within(pending, n) && n <= m
    ensures UpTo(pending, m) == UpTo(pending, n)
    decreases m
  {
    if n < m { UpToStops(pending, n, m - 1); }
  }

  lemma {:induction false} UpToNobody(pending: Pending, h: nat)
    requires forall k :: k in pending ==> k > h
    ensures UpTo(pending, h) == []
  {
    if h > 0 { UpToNobody(pending, h - 1); }
  }

  /** Those up to `n` are those up to `h` and, of the others, those up to `n`. */
  lemma {:induction false} SplitAt(pending: Pending, h: nat, n: nat)
    requires h <= n
    ensures UpTo(pending, n) == UpTo(pending, h) + UpTo(Above(pending, h), n)
    decreases n
  {
    if n == h {
      UpToNobody(Above(pending, h), h);
    } else {
      SplitAt(pending, h, n - 1);
      UpToUnfolds(pending, n);
      UpToUnfolds(Above(pending, h), n);
      Reassociate(UpTo(pending, h), UpTo(Above(pending, h), n - 1), At(pending, n));
    }
  }

  lemma BagOf(a: seq<Waiter>, b: seq<Waiter>)
    ensures multiset(a + b) == multiset(a) + multiset(b)
  {
  }

  lemma OneMoreHere(before: Pending, after: Pending, w: Waiter)
    requires At(after, w.height) == At(before, w.height) + [w]
    requires forall k: nat :: k < w.height ==> At(after, k) == At(before, k)
    ensures HasOneMore(before, after, w, w.height)
  {
    if w.height > 0 { UpToSame(after, before, w.height - 1); }
    assert UpTo(after, w.height) == UpTo(before, w.height) + [w];
    BagOf(UpTo(before, w.height), [w]);
  }

  lemma OneMoreAbove(a: seq<Waiter>, b: seq<Waiter>, same: seq<Waiter>, w: Waiter)
    requires multiset(b) == multiset(a) + multiset{w}
    ensures multiset(b + same) == multiset(a + same) + multiset{w}
  {
    BagOf(a, same);
    BagOf(b, same);
  }

  /** The waiters of `after` up to `n` are, as a bag, those of `before` and `w`. */
  ghost predicate HasOneMore(before: Pending, after: Pending, w: Waiter, n: nat) {
    multiset(UpTo(after, n)) == multiset(UpTo(before, n)) + multiset{w}
  }

  lemma OneMoreStep(before: Pending, after: Pending, w: Waiter, n: nat)
    requires n > 0 && HasOneMore(before, after, w, n - 1) && At(after, n) == At(before, n)
    ensures HasOneMore(before, after, w, n)
  {
    UpToUnfolds(before, n);
    UpToUnfolds(after, n);
    OneMoreAbove(UpTo(before, n - 1), UpTo(after, n - 1), At(before, n), w);
  }

  lemma {:induction false} OneMore(before: Pending, after: Pending, w: Waiter, n: nat)
    requires At(after, w.height) == At(before, w.height) + [w] && w.height <= n
    requires forall k: nat :: k != w.height ==> At(after, k) == At(before, k)
    ensures HasOneMore(before, after, w, n)
    decreases n
  {
    if w.height == n {
      OneMoreHere(before, after, w);
    } else {
      OneMore(before, after, w, n - 1);
      OneMoreStep(before, after, w, n);
    }
  }

  /** Registering adds one waiter. */
  lemma RegisterAdds(pending: Pending, w: Waiter, n: nat)
    requires w.height <= n
    ensures multiset(UpTo(Registered(pending, w), n)) == multiset(UpTo(pending, n)) + multiset{w}
  {
    OneMore(pending, Registered(pending, w), w, n);
  }

  /** Taking out the lowest height takes its waiters off the front. */
  lemma {:induction false} LowestFirst(pending: Pending, k: nat, h: nat)
    requires k in pending && k <= h && forall j :: j in pending ==> k <= j
    ensures UpTo(pending, h) == At(pending, k) + UpTo(pending - {k}, h)
    decreases h
  {
    if h == k {
      if h > 0 { UpToNobody(pending, h - 1); }
      UpToNobody(pending - {k}, h);
    } else {
      LowestFirst(pending, k, h - 1);
      var a, u, w := At(pending, k), UpTo(pending - {k}, h - 1), At(pending, h);
      assert w == At(pending - {k}, h);
      assert (a + u) + w == a + (u + w);
    }
  }

  lemma {:induction false} SomeLowest(pending: Pending, k: nat)
    requires k in pending
    ensures exists j :: j in pending.Keys && forall i | i in pending.Keys :: j <= i
    decreases k
  {
    if j :| j in pending.Keys && j < k { SomeLowest(pending, j); }
  }

  class HeightNotifier {
    var pending: Pending

    constructor ()
      ensures pending == map[]
    {
      pending := map[];
    }

    method Register(w: Waiter)
      modifies this
      ensures pending == Registered(old(pending), w)
    {
      var senders := if w.height in pending then pending[w.height] else [];
      pending := pending[w.height := senders + [w]];
    }

    /** Fires everyone up to the height, lowest height and earliest arrival first, and keeps the rest. */
    method NotifyUpTo(height: nat) returns (fired: seq<Waiter>)
      modifies this
      ensures fired == UpTo(old(pending), height)
      ensures pending == Above(old(pending), height)
      ensures forall k :: k in pending ==> k > height
    {
      var toNotify := Above(pending, height);
      var remaining := pending - toNotify.Keys;
      pending := toNotify;
      assert forall k: nat :: k <= height ==> At(remaining, k) == At(old(pending), k);
      UpToSame(remaining, old(pending), height);
      fired := FireAll(remaining, height);
    }
  }

  method FireAll(pending: Pending, height: nat) returns (fired: seq<Waiter>)
    requires Within(pending, height)
    ensures fired == UpTo(pending, height)
  {
    fired := [];
    var remaining := pending;
    while remaining.Keys != {}
      invariant Within(remaining, height)
      invariant fired + UpTo(remaining, height) == UpTo(pending, height)
      decreases |remaining.Keys|
    {
      var any :| any in remaining.Keys;
      SomeLowest(remaining, any);
      var k :| k in remaining.Keys && forall j | j in remaining.Keys :: k <= j;
      LowestFirst(remaining, k, height);
      var woken := FireEach(remaining[k]);
      Reassociate(fired, woken, UpTo(remaining - {k}, height));
      fired := fired + woken;
      remaining := remaining - {k};
    }
    UpToNobody(remaining, height);
  }

  method FireEach(senders: seq<Waiter>) returns (fired: seq<Waiter>)
    ensures fired == senders
  {
    fired := [];
    for i := 0 to |senders|
      invariant fired == senders[..i]
    {
      fired := fired + [senders[i]];
    }
  }

  // ----- the loop

  /** Where the loop stands; `rejected` is the next block if it is stored but its payload was not valid. */
  datatype Pc =
    | AtHead
    | AwaitGet
    | Deciding(reply: Option<Block>)
    | Committing(block: Block)
    | Committed(block: Block)
    | Published(block: Block)
    | Persisted(block: Block)
    | Notifying(block: Block)
    | Reporting(block: Block)
    | Gap(rejected: Option<Block>)
    | AwaitRepair(rejected: Option<Block>)
    | Repaired(rejected: Option<Block>, progress: bool)
    | Waiting(rejected: Option<Block>)

  datatype Message = Get(next: nat) | Processed(next: nat, digest: Bytes32) | Repair(next: nat)

  /** A head the execution layer was told to adopt, with its height and the process life it was sent in. */
  datatype Commit = Commit(height: nat, head: Bytes32, life: nat)

  /** A sender that was fired, with the index and the shared forkchoice at that moment. */
  datatype Firing = Firing(waiter: Waiter, index: nat, head: Bytes32, byCommit: bool)

  /**
   * `persisted` and `log` outlive the process; everything else starts anew with each life. `live` says
   * that this life has published a forkchoice, `taken` lists the waiters read from the mailbox.
   */
  datatype State = State(
    pc: Pc,
    lastIndexed: nat,
    persisted: nat,
    head: Bytes32,
    live: bool,
    pending: Pending,
    taken: seq<Waiter>,
    fired: seq<Firing>,
    queue: seq<Message>,
    log: seq<Commit>,
    life: nat)
  {
    function Next(): nat {
      lastIndexed + 1
    }
  }

  /** A fresh process: the index comes from the metadata, the forkchoice from genesis. */
  function Booted(persisted: nat, genesis: Bytes32, log: seq<Commit>, life: nat): State {
    State(AtHead, persisted, persisted, genesis, false, map[], [], [], [], log, life)
  }

  function Ask(f: State): State {
    f.(pc := AwaitGet, queue := f.queue + [Get(f.Next())])
  }

  function Judge(f: State, reply: Option<Block>, valid: bool): State {
    f.(pc := if reply.Some? && valid then Committing(reply.value) else Gap(reply))
  }

  function CommitHead(f: State, block: Block): State {
    f.(pc := Committed(block), log := f.log + [Commit(f.Next(), block.EthBlockHash(), f.life)])
  }

  function Publish(f: State, block: Block): State {
    f.(pc := Published(block), head := block.EthBlockHash(), live := true)
  }

  function Persist(f: State, block: Block): State {
    f.(pc := Persisted(block), persisted := f.Next())
  }

  function Advance(f: State, block: Block): State {
    f.(pc := Notifying(block), lastIndexed := f.Next())
  }

  function Firings(waiters: seq<Waiter>, index: nat, head: Bytes32): seq<Firing> {
    seq(|waiters|, i requires 0 <= i < |waiters| => Firing(waiters[i], index, head, true))
  }

  function Notify(f: State, block: Block): State {
    f.(pc := Reporting(block),
       pending := Above(f.pending, f.lastIndexed),
       fired := f.fired + Firings(UpTo(f.pending, f.lastIndexed), f.lastIndexed, f.head))
  }

  function Report(f: State, block: Block): State {
    f.(pc := AtHead, queue := f.queue + [Processed(f.lastIndexed, block.digest)])
  }

  function AskRepair(f: State, rejected: Option<Block>): State {
    f.(pc := AwaitRepair(rejected), queue := f.queue + [Repair(f.Next())])
  }

  function Resume(f: State, rejected: Option<Block>, progress: bool): State {
    f.(pc := if progress then AtHead else Waiting(rejected))
  }

  function Wake(f: State): State {
    f.(pc := AtHead)
  }

  function TakeMail(f: State, w: Waiter): State {
    if f.lastIndexed >= w.height then
      f.(pc := AtHead, taken := f.taken + [w], fired := f.fired + [Firing(w, f.lastIndexed, f.head, false)])
    else
      f.(pc := AtHead, taken := f.taken + [w], pending := Registered(f.pending, w))
  }

  /** The stretch of the loop from a valid payload to the next turn. */
  function OneCommit(f: State, block: Block): State {
    var durable := Persist(Publish(CommitHead(f, block), block), block);
    Report(Notify(Advance(durable, block), block), block)
  }

  /** The head shared with the application, which reads it when it proposes. */
  class Forkchoice {
    var head: Bytes32

    constructor (head: Bytes32)
      ensures this.head == head
    {
      this.head := head;
    }
  }

  class Finalizer {
    const forkchoice: Forkchoice
    const notifier: HeightNotifier
    var lastIndexed: nat
    var metadata: Option<nat>
    ghost var live: bool
    ghost var taken: seq<Waiter>
    var fired: seq<Firing>
    var outbox: seq<Message>
    ghost var log: seq<Commit>
    ghost const life: nat
    var heads: seq<Bytes32>

    ghost function Now(pc: Pc): State
      reads this, forkchoice, notifier
    {
      State(pc, lastIndexed, if metadata.Some? then metadata.value else 0, forkchoice.head, live,
            notifier.pending, taken, fired, outbox, log, life)
    }

    /** Recovery: the persisted index, or 0 when nothing was ever persisted. */
    constructor (metadata: Option<nat>, forkchoice: Forkchoice, ghost log: seq<Commit>, ghost life: nat)
      ensures Now(AtHead) == Booted(if metadata.Some? then metadata.value else 0, forkchoice.head, log, life)
      ensures this.forkchoice == forkchoice && fresh(notifier) && heads == []
    {
      this.metadata := metadata;
      this.forkchoice := forkchoice;
      lastIndexed := if metadata.Some? then metadata.value else 0;
      notifier := new HeightNotifier();
      live, taken, fired, outbox, heads := false, [], [], [], [];
      this.log, this.life := log, life;
    }

    /** A valid block is committed, published, persisted and announced, in this order. */
    method CommitBlock(block: Block)
      modifies this, forkchoice, notifier
      ensures Now(AtHead) == OneCommit(old(Now(Committing(block))), block)
      ensures heads == old(heads) + [block.EthBlockHash()]
    {
      Adopt(block);
      Announce(block);
    }

    method Adopt(block: Block)
      modifies this`heads, this`log, this`live, this`metadata, forkchoice
      ensures Now(Persisted(block)) == Persist(Publish(CommitHead(old(Now(Committing(block))), block), block), block)
      ensures heads == old(heads) + [block.EthBlockHash()]
    {
      var next := lastIndexed + 1;
      var ethHash := block.EthBlockHash();
      heads := heads + [ethHash];
      log := log + [Commit(next, ethHash, life)];
      forkchoice.head := ethHash;
      live := true;
      metadata := Some(next);
    }

    method Announce(block: Block)
      modifies this`lastIndexed, this`fired, this`outbox, notifier
      ensures Now(AtHead) == Report(Notify(Advance(old(Now(Persisted(block))), block), block), block)
    {
      lastIndexed := lastIndexed + 1;
      var woken := notifier.NotifyUpTo(lastIndexed);
      fired := fired + Firings(woken, lastIndexed, forkchoice.head);
      outbox := outbox + [Processed(lastIndexed, block.digest)];
    }

    /** A message from the height mailbox: answered at once if the height is reached, else kept. */
    method OnMail(w: Waiter)
      modifies this, notifier
      ensures Now(AtHead) == TakeMail(old(Now(Waiting(None))), w)
    {
      taken := taken + [w];
      if lastIndexed >= w.height {
        fired := fired + [Firing(w, lastIndexed, forkchoice.head, false)];
        return;
      }
      notifier.Register(w);
    }
  }
}
