/** Left to itself, the node commits and repairs what it can and then goes to sleep. */
module Settling {
  import opened Bytes
  import opened Wrappers
  import opened Blocks
  import opened Chain
  import opened System
  import opened Wakeups
  import opened Runs
  import S = Syncer
  import F = Finalizer

  // ----- how much is left to do

  lemma {:induction false} SomeHighest(keys: set<nat>)
    requires keys != {}
    ensures exists k :: k in keys && forall j :: j in keys ==> j <= k
    decreases |keys|
  {
    var k :| k in keys;
    if keys - {k} == {} {
      assert keys == {k};
    } else {
      SomeHighest(keys - {k});
      var m :| m in keys - {k} && forall j :: j in keys - {k} ==> j <= m;
      var top := if k <= m then m else k;
      assert top in keys;
      forall j | j in keys ensures j <= top {
        if j != k { assert j in keys - {k}; }
      }
    }
  }

  /** The highest stored height, 0 when there is none. */
  ghost function Highest(a: S.Archive<Block>): (h: nat)
    ensures forall k :: k in a ==> k <= h
    ensures a != map[] ==> h in a
  {
    if a.Keys == {} then 0
    else
      SomeHighest(a.Keys);
      var k :| k in a.Keys && forall j :: j in a.Keys ==> j <= k;
      k
  }

  /** How many heights from 1 to `n` are not stored. */
  function Holes(a: S.Archive<Block>, n: nat): nat {
    if n == 0 then 0 else Holes(a, n - 1) + if n in a then 0 else 1
  }

  lemma {:induction false} FillingAHole(a: S.Archive<Block>, h: nat, e: S.Keyed<Block>, n: nat)
    requires h !in a && h > 0
    ensures Holes(a[h := e], n) == if h <= n then Holes(a, n) - 1 else Holes(a, n)
  {
    if n > 0 { FillingAHole(a, h, e, n - 1); }
  }

  /** Heights still to commit below the highest stored one, and holes to fill. */
  ghost function Work(s: Sys): nat {
    var top := Highest(s.sync.blocks);
    (if top > s.fin.lastIndexed then top - s.fin.lastIndexed else 0) + Holes(s.sync.blocks, top)
  }

  /** Position within one turn of the loop. */
  function Place(f: F.State): nat {
    (match f.pc
     case Waiting(_) => 0
     case Repaired(_, progress) => if progress then 14 else 1
     case AwaitRepair(_) => 2
     case Gap(_) => 3
     case Persisted(_) => 4
     case Published(_) => 5
     case Committed(_) => 6
     case Committing(_) => 7
     case Deciding(_) => 8
     case AwaitGet => 9
     case AtHead => 10
     case Reporting(_) => 12
     case Notifying(_) => 13)
    + if f.queue != [] && f.queue[0].Processed? then 1 else 0
  }

  ghost function Rank(s: Sys): nat {
    16 * (Work(s) + s.sync.tokens) + Place(s.fin)
  }

  lemma SameWork(a: Sys, b: Sys)
    requires a.sync.blocks == b.sync.blocks && a.fin.lastIndexed == b.fin.lastIndexed
    ensures Work(a) == Work(b)
  {
  }

  /** A repair that reports progress fills the height just below the stretch above the gap, which was a hole. */
  lemma RepairFillsHole(cfg: Config, t: S.State, next: nat, start: Option<nat>, found: Option<Block>)
    requires Sensible(cfg) && CanonSync(cfg, t) && next > 0 && S.NextStart(t.blocks, next, start)
    requires start.Some? ==> S.Recent(t, t.blocks[start.value].value.parent, found)
    requires S.AfterRepair(t, next, start, found).1
    ensures start.Some? && start.value > 1 && start.value - 1 !in t.blocks && start.value in t.blocks
    ensures var u := S.AfterRepair(t, next, start, found).0;
            && start.value - 1 in u.blocks
            && u.blocks == t.blocks[start.value - 1 := u.blocks[start.value - 1]]
            && u.tokens == t.tokens
  {
    ParentOfStart(cfg, t.blocks, start.value);
    FoundIsKnown(cfg, t, t.blocks[start.value].value.parent, found);
    PlaceOnChain(cfg.p, cfg.w, found.value, start.value - 1);
  }

  lemma SameHighest(a: S.Archive<Block>, b: S.Archive<Block>, h: nat, above: nat)
    requires above in a && h < above && b.Keys == a.Keys + {h}
    ensures Highest(b) == Highest(a)
  {
    assert Highest(a) in b && Highest(b) in b;
  }

  lemma HoleFilled(s: Sys, t: Sys, h: nat)
    requires t.fin.lastIndexed == s.fin.lastIndexed
    requires h > 0 && h !in s.sync.blocks && h + 1 in s.sync.blocks && h in t.sync.blocks
    requires t.sync.blocks == s.sync.blocks[h := t.sync.blocks[h]]
    ensures Work(t) == Work(s) - 1
  {
    var a, b := s.sync.blocks, t.sync.blocks;
    SameHighest(a, b, h, h + 1);
    FillingAHole(a, h, b[h], Highest(a));
  }

  lemma ServedRepair(cfg: Config, s: Sys, start: Option<nat>, found: Option<Block>)
    requires InStep(s) && Enabled(cfg, s, ServeRepair(start, found))
    ensures var t := After(cfg, s, ServeRepair(start, found));
            && t.sync == S.AfterRepair(s.sync, s.fin.Next(), start, found).0
            && t.fin.lastIndexed == s.fin.lastIndexed && Place(t.fin) < 16
  {
  }

  lemma RepairLowersWork(cfg: Config, s: Sys, start: Option<nat>, found: Option<Block>)
    requires Sensible(cfg) && Canon(cfg, s) && InStep(s) && Enabled(cfg, s, ServeRepair(start, found))
    requires S.AfterRepair(s.sync, s.fin.Next(), start, found).1
    ensures var t := After(cfg, s, ServeRepair(start, found));
            Work(t) == Work(s) - 1 && t.sync.tokens == s.sync.tokens && Place(t.fin) < 16
  {
    RepairFillsHole(cfg, s.sync, s.fin.Next(), start, found);
    ServedRepair(cfg, s, start, found);
    HoleFilled(s, After(cfg, s, ServeRepair(start, found)), start.value - 1);
  }

  /** Every step the node takes on its own brings it closer to sleep. */
  lemma InternalStepDescends(cfg: Config, s: Sys, e: Event)
    requires Sensible(cfg) && Inv(cfg, s) && Internal(e) && Enabled(cfg, s, e)
    ensures Rank(After(cfg, s, e)) < Rank(s)
  {
    var t := After(cfg, s, e);
    if e.ServeRepair? && S.AfterRepair(s.sync, s.fin.Next(), e.start, e.found).1 {
      RepairLowersWork(cfg, s, e.start, e.found);
    } else if e.Advance? {
      AdvanceLowersWork(cfg, s);
    } else {
      QuietStep(cfg, s, e);
      SameWork(s, t);
    }
    Lower(Work(s), s.sync.tokens, Place(s.fin), Work(t), t.sync.tokens, Place(t.fin));
  }

  lemma Lower(w: nat, k: nat, p: nat, w': nat, k': nat, p': nat)
    requires w' <= w && k' <= k && p' < 16 && (w' < w || k' < k || p' < p)
    ensures 16 * (w' + k') + p' < 16 * (w + k) + p
  {
  }

  lemma AdvanceLowersWork(cfg: Config, s: Sys)
    requires InStep(s) && InHandStored(s) && Enabled(cfg, s, Event.Advance)
    ensures Work(After(cfg, s, Event.Advance)) == Work(s) - 1
    ensures After(cfg, s, Event.Advance).sync == s.sync && Place(After(cfg, s, Event.Advance).fin) < 16
  {
    assert s.fin.Next() in s.sync.blocks;
  }

  /** Nothing stored, nothing indexed, no token gained, and a token spent or the place in the turn lowered. */
  ghost predicate Lowers(s: Sys, t: Sys) {
    && t.sync.blocks == s.sync.blocks && t.fin.lastIndexed == s.fin.lastIndexed
    && t.sync.tokens <= s.sync.tokens
    && (t.sync.tokens < s.sync.tokens || Place(t.fin) < Place(s.fin))
    && Place(t.fin) < 16
  }

  lemma QuietFin(s: Sys, e: Event)
    requires InStep(s) && FinEvent(e) && FinEnabled(s.fin, e) && Internal(e) && !e.Advance?
    ensures Lowers(s, s.(fin := FinStep(s.fin, e)))
  {
  }

  lemma QuietJoint(cfg: Config, s: Sys, e: Event)
    requires InStep(s) && JointEvent(e) && JointEnabled(s, e) && Internal(e)
    requires e.ServeRepair? ==> !S.AfterRepair(s.sync, s.fin.Next(), e.start, e.found).1
    ensures Lowers(s, JointStep(cfg, s, e))
  {
  }

  lemma QuietStep(cfg: Config, s: Sys, e: Event)
    requires InStep(s) && Internal(e) && Enabled(cfg, s, e) && !e.Advance?
    requires e.ServeRepair? ==> !S.AfterRepair(s.sync, s.fin.Next(), e.start, e.found).1
    ensures Lowers(s, After(cfg, s, e))
  {
    if FinEvent(e) { QuietFin(s, e); } else { QuietJoint(cfg, s, e); }
  }

  // ----- where it stops

  predicate Asleep(s: Sys) {
    s.fin.pc.Waiting? && s.sync.tokens == 0
  }

  lemma GapAnswer(a: S.Archive<Block>, n: nat) returns (start: Option<nat>)
    ensures S.NextStart(a, n, start)
  {
    if exists i :: i > n && S.RangeStart(a, i) {
      var i :| i > n && S.RangeStart(a, i);
      S.LeastStart(a, n, i);
      var x :| x in a.Keys && x > n && S.RangeStart(a, x)
               && forall j | j in a.Keys :: n < j < x ==> !S.RangeStart(a, j);
      start := Some(x);
    } else {
      start := None;
    }
  }

  lemma HitExists<V(!new)>(a: S.Archive<V>, key: Bytes32) returns (found: Option<V>)
    ensures S.Hit(a, key, found)
  {
    if exists i :: i in a && a[i].key == key {
      var i :| i in a && a[i].key == key;
      assert a[i] == S.Keyed(key, a[i].value);
      found := Some(a[i].value);
    } else {
      found := None;
    }
  }

  lemma RecentAnswer(t: S.State, digest: Bytes32) returns (found: Option<Block>)
    ensures S.Recent(t, digest, found)
  {
    found := HitExists(t.verified, digest);
    if found.None? {
      var c := HitExists(t.notarized, digest);
      found := if c.Some? then Some(c.value.block) else None;
    }
  }

  lemma SomeInternalStep(cfg: Config, s: Sys) returns (e: Event)
    requires InStep(s) && !Asleep(s)
    ensures Internal(e) && Enabled(cfg, s, e) && (e.Judge? ==> e.valid)
  {
    match s.fin.pc {
      case AtHead => e := Ask;
      case AwaitGet => e := if s.fin.queue[0].Processed? then ServeProcessed else ServeGet;
      case Deciding(_) => e := Judge(true);
      case Committing(_) => e := CommitHead;
      case Committed(_) => e := Publish;
      case Published(_) => e := Persist;
      case Persisted(_) => e := Advance;
      case Notifying(_) => e := Notify;
      case Reporting(_) => e := Report;
      case Gap(_) => e := AskRepair;
      case AwaitRepair(_) =>
        var start := GapAnswer(s.sync.blocks, s.fin.Next());
        var found := None;
        if start.Some? { found := RecentAnswer(s.sync, s.sync.blocks[start.value].value.parent); }
        e := ServeRepair(start, found);
      case Repaired(_, _) => e := Resume;
      case Waiting(_) => e := Wake;
    }
  }

  /** The node can do nothing on its own exactly when it is asleep with no token waiting. */
  lemma StopsExactlyAsleep(cfg: Config, s: Sys)
    requires InStep(s)
    ensures Asleep(s) <==> forall e :: Internal(e) ==> !Enabled(cfg, s, e)
  {
    if !Asleep(s) {
      var e := SomeInternalStep(cfg, s);
    }
  }

  /** A stretch of a run without any input. */
  ghost predicate InternalRun(cfg: Config, states: seq<Sys>, events: seq<Event>) {
    && |states| == |events| + 1
    && forall i :: 0 <= i < |events| ==>
         Internal(events[i]) && Enabled(cfg, states[i], events[i]) && states[i + 1] == After(cfg, states[i], events[i])
  }

  /** No stretch without input is longer than the rank of the state it starts from. */
  lemma {:induction false} InternalRunsAreShort(cfg: Config, states: seq<Sys>, events: seq<Event>)
    requires Sensible(cfg) && InternalRun(cfg, states, events) && Inv(cfg, states[0])
    ensures Inv(cfg, states[|events|])
    ensures |events| + Rank(states[|events|]) <= Rank(states[0])
    decreases |events|
  {
    if events != [] {
      var n := |events| - 1;
      assert InternalRun(cfg, states[..n + 1], events[..n]);
      InternalRunsAreShort(cfg, states[..n + 1], events[..n]);
      InternalStepDescends(cfg, states[n], events[n]);
      InvAfter(cfg, states[n], events[n]);
    }
  }

  /** From any state of any run, some stretch without input ends asleep; by the bound above, all do if prolonged. */
  lemma {:induction false} Settles(cfg: Config, s: Sys) returns (states: seq<Sys>, events: seq<Event>)
    requires Sensible(cfg) && Inv(cfg, s)
    ensures InternalRun(cfg, states, events) && states[0] == s && Asleep(states[|events|])
    decreases Rank(s)
  {
    if Asleep(s) {
      states, events := [s], [];
    } else {
      var e := SomeInternalStep(cfg, s);
      InternalStepDescends(cfg, s, e);
      InvAfter(cfg, s, e);
      var rest, more := Settles(cfg, After(cfg, s, e));
      states, events := [s] + rest, [e] + more;
      InternalRunPrepend(cfg, s, e, rest, more);
    }
  }

  lemma InternalRunPrepend(cfg: Config, s: Sys, e: Event, rest: seq<Sys>, more: seq<Event>)
    requires InternalRun(cfg, rest, more) && Internal(e) && Enabled(cfg, s, e) && rest[0] == After(cfg, s, e)
    ensures InternalRun(cfg, [s] + rest, [e] + more)
  {
    forall i | 0 <= i < |more| + 1
      ensures Internal(([e] + more)[i]) && Enabled(cfg, ([s] + rest)[i], ([e] + more)[i])
      ensures ([s] + rest)[i + 1] == After(cfg, ([s] + rest)[i], ([e] + more)[i])
    {
      if i > 0 { assert Internal(more[i - 1]); }
    }
  }
}
