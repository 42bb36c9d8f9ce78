/** Those who wait for a height: none is lost, none fired twice, none fired early. */
module Waiters {
  import opened Bytes
  import opened Blocks
  import opened Chain
  import opened System
  import opened Commits
  import F = Finalizer

  function Woken(fired: seq<F.Firing>): seq<F.Waiter> {
    if fired == [] then [] else Woken(fired[..|fired| - 1]) + [fired[|fired| - 1].waiter]
  }

  /** Everyone taken from the mailbox in this life is, with multiplicity, either pending or fired. */
  ghost predicate Conserved(f: F.State) {
    forall n: nat :: F.Within(f.pending, n) ==>
      multiset(f.taken) == multiset(F.UpTo(f.pending, n)) + multiset(Woken(f.fired))
  }

  /** Nobody is filed under another height, or under one that is already reached and announced. */
  ghost predicate Filed(f: F.State) {
    && (forall h :: h in f.pending ==> forall w :: w in f.pending[h] ==> w.height == h)
    && (forall h :: h in f.pending ==> h > f.lastIndexed || (f.pc.Notifying? && h == f.lastIndexed))
  }

  /**
   * No sender fires before its height is indexed; one fired by a commit waited for exactly the height
   * just committed, and finds the shared forkchoice at that height of the chain.
   */
  ghost predicate FiredInTime(w: World, fired: seq<F.Firing>) {
    forall i :: 0 <= i < |fired| ==>
      && fired[i].waiter.height <= fired[i].index
      && (fired[i].byCommit ==>
            fired[i].waiter.height == fired[i].index < |w.chain| && fired[i].head == EthHash(w, fired[i].index))
  }

  /** Those of them who wait for height `h`. */
  function Of(waiters: seq<F.Waiter>, h: nat): seq<F.Waiter> {
    if waiters == [] then []
    else
      var last := waiters[|waiters| - 1];
      Of(waiters[..|waiters| - 1], h) + if last.height == h then [last] else []
  }

  /** At every height, first come, first served. */
  ghost predicate InOrder(f: F.State) {
    forall h: nat :: InOrderAt(f.taken, f.fired, f.pending, h)
  }

  predicate InOrderAt(taken: seq<F.Waiter>, fired: seq<F.Firing>, pending: F.Pending, h: nat) {
    Of(taken, h) == Of(Woken(fired), h) + F.At(pending, h)
  }

  ghost predicate WaitersOk(cfg: Config, f: F.State) {
    Conserved(f) && InOrder(f) && Filed(f) && FiredInTime(cfg.w, f.fired)
  }

  lemma {:induction false} OfConcat(a: seq<F.Waiter>, b: seq<F.Waiter>, h: nat)
    ensures Of(a + b, h) == Of(a, h) + Of(b, h)
  {
    if b == [] {
      assert a + b == a;
    } else {
      OfConcat(a, b[..|b| - 1], h);
      assert (a + b)[..|a + b| - 1] == a + b[..|b| - 1];
    }
  }

  lemma {:induction false} OfOne(waiters: seq<F.Waiter>, n: nat, h: nat)
    requires forall w :: w in waiters ==> w.height == n
    ensures Of(waiters, h) == if h == n then waiters else []
  {
    if waiters != [] {
      OfOne(waiters[..|waiters| - 1], n, h);
      assert waiters == waiters[..|waiters| - 1] + [waiters[|waiters| - 1]];
    }
  }

  /** When nobody waits below `n`, those up to `n` are those at `n`. */
  lemma OnlyThere(pending: F.Pending, n: nat)
    requires forall h :: h in pending ==> h >= n
    ensures F.UpTo(pending, n) == F.At(pending, n)
  {
    if n > 0 { F.UpToNobody(pending, n - 1); }
  }

  lemma InOrderAfterNotify(f: F.State, b: Block)
    requires InOrder(f) && Filed(f) && f.pc.Notifying?
    ensures InOrder(F.Notify(f, b))
  {
    var g, n := F.Notify(f, b), f.lastIndexed;
    OnlyThere(f.pending, n);
    NewlyWoken(f.fired, F.At(f.pending, n), n, f.head);
    forall h: nat ensures InOrderAt(f.taken, g.fired, g.pending, h) {
      assert InOrderAt(f.taken, f.fired, f.pending, h);
      WokenInOrder(f.taken, f.fired, g.fired, f.pending, n, h);
    }
  }

  /** Those at the lowest pending height move, in their order, behind those fired before. */
  lemma WokenInOrder(taken: seq<F.Waiter>, before: seq<F.Firing>, after: seq<F.Firing>, pending: F.Pending, n: nat, h: nat)
    requires InOrderAt(taken, before, pending, h)
    requires forall k :: k in pending ==> k >= n && forall w :: w in pending[k] ==> w.height == k
    requires Woken(after) == Woken(before) + F.At(pending, n)
    ensures InOrderAt(taken, after, F.Above(pending, n), h)
  {
    OfConcat(Woken(before), F.At(pending, n), h);
    OfOne(F.At(pending, n), n, h);
    Moved(Of(taken, h), Of(Woken(before), h), F.At(pending, h), Of(F.At(pending, n), h), F.At(F.Above(pending, n), h));
  }

  lemma NewlyWoken(fired: seq<F.Firing>, waiters: seq<F.Waiter>, index: nat, head: Bytes32)
    ensures Woken(fired + F.Firings(waiters, index, head)) == Woken(fired) + waiters
  {
    WokenConcat(fired, F.Firings(waiters, index, head));
    WokenFirings(waiters, index, head);
  }

  lemma AnsweredAtOnce(fired: seq<F.Firing>, firing: F.Firing)
    ensures Woken(fired + [firing]) == Woken(fired) + [firing.waiter]
  {
    assert (fired + [firing])[..|fired|] == fired;
  }

  lemma InOrderAfterMail(f: F.State, w: F.Waiter)
    requires InOrder(f) && Filed(f) && f.pc.Waiting?
    ensures InOrder(F.TakeMail(f, w))
  {
    if f.lastIndexed >= w.height { LateInOrder(f, w); } else { EarlyInOrder(f, w); }
  }

  lemma LateInOrder(f: F.State, w: F.Waiter)
    requires InOrder(f) && w.height !in f.pending
    ensures var firing := F.Firing(w, f.lastIndexed, f.head, false);
            forall h: nat :: InOrderAt(f.taken + [w], f.fired + [firing], f.pending, h)
  {
    var firing := F.Firing(w, f.lastIndexed, f.head, false);
    AnsweredAtOnce(f.fired, firing);
    forall h: nat ensures InOrderAt(f.taken + [w], f.fired + [firing], f.pending, h) {
      assert InOrderAt(f.taken, f.fired, f.pending, h);
      LateAt(f.taken, f.fired, f.fired + [firing], f.pending, w, h);
    }
  }

  lemma LateAt(taken: seq<F.Waiter>, before: seq<F.Firing>, after: seq<F.Firing>, pending: F.Pending, w: F.Waiter, h: nat)
    requires InOrderAt(taken, before, pending, h) && w.height !in pending
    requires Woken(after) == Woken(before) + [w]
    ensures InOrderAt(taken + [w], after, pending, h)
  {
    OfConcat(taken, [w], h);
    OfConcat(Woken(before), [w], h);
    OfOne([w], w.height, h);
    Behind(Of(taken, h), Of(Woken(before), h), F.At(pending, h), Of([w], h));
  }

  lemma Behind(all: seq<F.Waiter>, before: seq<F.Waiter>, rest: seq<F.Waiter>, more: seq<F.Waiter>)
    requires all == before + rest && (rest == [] || more == [])
    ensures all + more == (before + more) + rest
  {
  }

  lemma Moved(all: seq<F.Waiter>, before: seq<F.Waiter>, rest: seq<F.Waiter>, moved: seq<F.Waiter>, left: seq<F.Waiter>)
    requires all == before + rest && rest == moved + left
    ensures all == (before + moved) + left
  {
  }

  lemma EarlyInOrder(f: F.State, w: F.Waiter)
    requires InOrder(f)
    ensures forall h: nat :: InOrderAt(f.taken + [w], f.fired, F.Registered(f.pending, w), h)
  {
    forall h: nat ensures InOrderAt(f.taken + [w], f.fired, F.Registered(f.pending, w), h) {
      assert InOrderAt(f.taken, f.fired, f.pending, h);
      OfConcat(f.taken, [w], h);
      OfOne([w], w.height, h);
    }
  }

  lemma {:induction false} WokenConcat(a: seq<F.Firing>, b: seq<F.Firing>)
    ensures Woken(a + b) == Woken(a) + Woken(b)
  {
    if b == [] {
      assert a + b == a;
    } else {
      WokenConcat(a, b[..|b| - 1]);
      assert (a + b)[..|a + b| - 1] == a + b[..|b| - 1];
    }
  }

  lemma {:induction false} WokenFirings(waiters: seq<F.Waiter>, index: nat, head: Bytes32)
    ensures Woken(F.Firings(waiters, index, head)) == waiters
  {
    if waiters != [] {
      var init := waiters[..|waiters| - 1];
      WokenFirings(init, index, head);
      assert F.Firings(waiters, index, head)[..|waiters| - 1] == F.Firings(init, index, head);
      assert waiters == init + [waiters[|waiters| - 1]];
    }
  }

  lemma {:induction false} AllUpTo(pending: F.Pending, low: nat, h: nat)
    requires forall k :: k in pending ==> k >= low && forall w :: w in pending[k] ==> w.height == k
    ensures forall w :: w in F.UpTo(pending, h) ==> low <= w.height <= h
  {
    if h > 0 { AllUpTo(pending, low, h - 1); }
  }

  lemma Regroup(taken: multiset<F.Waiter>, woken: seq<F.Waiter>, rest: seq<F.Waiter>, fired: seq<F.Waiter>)
    requires taken == multiset(woken + rest) + multiset(fired)
    ensures taken == multiset(rest) + multiset(fired + woken)
  {
    F.BagOf(woken, rest);
    F.BagOf(fired, woken);
  }

  /** Those still pending after a notification, up to `n`, are those before it without the ones woken. */
  lemma PendingSplits(pending: F.Pending, h: nat, n: nat) returns (m: nat)
    requires F.Within(F.Above(pending, h), n)
    ensures F.Within(pending, m)
    ensures F.UpTo(pending, m) == F.UpTo(pending, h) + F.UpTo(F.Above(pending, h), n)
  {
    m := if n < h then h else n;
    forall k | k in pending ensures k <= m {
      if k > h { assert k in F.Above(pending, h); }
    }
    F.SplitAt(pending, h, m);
    F.UpToStops(F.Above(pending, h), n, m);
  }

  lemma ConservedAfterNotify(f: F.State, b: Block)
    requires Conserved(f)
    ensures Conserved(F.Notify(f, b))
  {
    var g := F.Notify(f, b);
    var h := f.lastIndexed;
    var woken := F.UpTo(f.pending, h);
    WokenConcat(f.fired, F.Firings(woken, h, f.head));
    WokenFirings(woken, h, f.head);
    forall n: nat | F.Within(g.pending, n)
      ensures multiset(g.taken) == multiset(F.UpTo(g.pending, n)) + multiset(Woken(g.fired))
    {
      var m := PendingSplits(f.pending, h, n);
      Regroup(multiset(f.taken), woken, F.UpTo(g.pending, n), Woken(f.fired));
    }
  }

  lemma NotifyInTime(cfg: Config, f: F.State, b: Block)
    requires Filed(f) && FiredInTime(cfg.w, f.fired) && f.pc.Notifying?
    requires f.lastIndexed < |cfg.w.chain| && f.head == EthHash(cfg.w, f.lastIndexed)
    ensures Filed(F.Notify(f, b)) && FiredInTime(cfg.w, F.Notify(f, b).fired)
  {
    var woken := F.UpTo(f.pending, f.lastIndexed);
    AllUpTo(f.pending, f.lastIndexed, f.lastIndexed);
    forall i | 0 <= i < |woken| ensures woken[i].height == f.lastIndexed {
      assert woken[i] in woken;
    }
  }

  lemma MailConserved(f: F.State, w: F.Waiter)
    requires Conserved(f)
    ensures Conserved(F.TakeMail(f, w))
  {
    var g := F.TakeMail(f, w);
    F.BagOf(f.taken, [w]);
    if f.lastIndexed >= w.height {
      var firing := F.Firing(w, f.lastIndexed, f.head, false);
      assert (f.fired + [firing])[..|f.fired|] == f.fired;
      F.BagOf(Woken(f.fired), [w]);
    } else {
      forall n: nat | F.Within(g.pending, n)
        ensures multiset(g.taken) == multiset(F.UpTo(g.pending, n)) + multiset(Woken(g.fired))
      {
        RegisteredWithin(f.pending, w, n);
        F.RegisterAdds(f.pending, w, n);
      }
    }
  }

  lemma RegisteredWithin(pending: F.Pending, w: F.Waiter, n: nat)
    requires F.Within(F.Registered(pending, w), n)
    ensures w.height <= n && F.Within(pending, n)
  {
    assert w.height in F.Registered(pending, w);
    forall k | k in pending ensures k <= n { assert k in F.Registered(pending, w); }
  }

  lemma MailKeepsWaiters(cfg: Config, f: F.State, w: F.Waiter)
    requires WaitersOk(cfg, f) && f.pc.Waiting?
    ensures WaitersOk(cfg, F.TakeMail(f, w))
  {
    MailConserved(f, w);
    InOrderAfterMail(f, w);
  }

  lemma WaitersFin(cfg: Config, f: F.State, e: Event)
    requires CanonFin(cfg.w, f) && FinEvent(e) && FinEnabled(f, e)
    requires WaitersOk(cfg, f) && HeadShown(cfg, f)
    ensures WaitersOk(cfg, FinStep(f, e))
  {
    match e {
      case Notify =>
        ConservedAfterNotify(f, f.pc.block);
        InOrderAfterNotify(f, f.pc.block);
        NotifyInTime(cfg, f, f.pc.block);
      case Mail(w) => MailKeepsWaiters(cfg, f, w);
      case _ =>
    }
  }

  lemma WaitersAfter(cfg: Config, s: Sys, e: Event)
    requires Canon(cfg, s) && InStep(s) && Enabled(cfg, s, e)
    requires WaitersOk(cfg, s.fin) && HeadShown(cfg, s.fin)
    ensures WaitersOk(cfg, After(cfg, s, e).fin)
  {
    if FinEvent(e) {
      WaitersFin(cfg, s.fin, e);
    } else if !SyncEvent(e) {
      WaitersJoint(cfg, s, e);
    }
  }

  lemma WaitersJoint(cfg: Config, s: Sys, e: Event)
    requires JointEvent(e) && JointEnabled(s, e) && WaitersOk(cfg, s.fin)
    ensures WaitersOk(cfg, JointStep(cfg, s, e).fin)
  {
    if e.Crash? { NobodyYet(JointStep(cfg, s, e).fin); }
  }

  lemma NobodyYet(f: F.State)
    requires f.pending == map[] && f.taken == [] && f.fired == []
    ensures Conserved(f)
  {
    forall n: nat | F.Within(f.pending, n)
      ensures multiset(f.taken) == multiset(F.UpTo(f.pending, n)) + multiset(Woken(f.fired))
    {
      F.UpToNobody(f.pending, n);
    }
  }
}
