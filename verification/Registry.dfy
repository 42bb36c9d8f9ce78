/** syncer/src/registry.rs: the validator set, in numbered snapshots that never change. */
module Registry {
  import opened Bytes
  import opened Wrappers

  type PublicKey = Bytes32

  /** The list of validators and, for each, its position in the list. */
  datatype Participants = Participants(list: seq<PublicKey>, index: map<PublicKey, nat>)

  /** `latest` is the highest version; `views` holds every version there has been. */
  datatype Snapshots = Snapshots(views: map<nat, Participants>, latest: nat)

  datatype Op = Add(key: PublicKey) | Remove(key: PublicKey)

  // ----- one snapshot

  /** Collecting (key, position) pairs into a map: a later pair overwrites an earlier one. */
  function Collected(list: seq<PublicKey>): map<PublicKey, nat> {
    if list == [] then map[]
    else Collected(list[..|list| - 1])[list[|list| - 1] := |list| - 1]
  }

  /** Every indexed key is where the index says. */
  ghost predicate Indexed(p: Participants) {
    forall k :: k in p.index ==> p.index[k] < |p.list| && p.list[p.index[k]] == k
  }

  /** The index is the inverse of the list: `index[k] = i` exactly when `list[i] = k`. */
  ghost predicate Inverse(p: Participants) {
    && Indexed(p)
    && forall i :: 0 <= i < |p.list| ==> p.list[i] in p.index && p.index[p.list[i]] == i
  }

  ghost predicate NoDuplicates(list: seq<PublicKey>) {
    forall i, j :: 0 <= i < j < |list| ==> list[i] != list[j]
  }

  function Members(p: Participants): set<PublicKey> {
    set k | k in p.list
  }

  /** `Vec::swap_remove`: the last element takes the place of the one removed. */
  function SwapRemove(list: seq<PublicKey>, i: nat): seq<PublicKey>
    requires i < |list|
  {
    list[i := list[|list| - 1]][..|list| - 1]
  }

  function Added(p: Participants, key: PublicKey): Option<Participants> {
    if key in p.index then None
    else Some(Participants(p.list + [key], p.index[key := |p.list|]))
  }

  function Removed(p: Participants, key: PublicKey): Option<Participants>
    requires Indexed(p)
  {
    if key !in p.index then None
    else
      var i := p.index[key];
      var list := SwapRemove(p.list, i);
      var index := p.index - {key};
      Some(Participants(list, if i < |list| then index[list[i] := i] else index))
  }

  /**
   * The order that leader election goes by: a newcomer comes last and moves nobody; whoever leaves is
   * replaced by the last member, and nobody else moves.
   */
  lemma OrderAfterChange(p: Participants, key: PublicKey)
    requires Inverse(p)
    ensures Added(p, key).Some? <==> key !in p.list
    ensures Added(p, key).Some? ==> Added(p, key).value.list == p.list + [key]
    ensures Removed(p, key).Some? <==> key in p.list
    ensures Removed(p, key).Some? ==>
              var list := Removed(p, key).value.list;
              && |list| == |p.list| - 1
              && forall j :: 0 <= j < |list| ==> list[j] == if p.list[j] == key then p.list[|list|] else p.list[j]
  {
  }

  /** A snapshot built from a list is always indexed, and is an inverse exactly when nothing repeats. */
  lemma {:induction false} CollectedIndex(list: seq<PublicKey>)
    ensures Indexed(Participants(list, Collected(list)))
    ensures Inverse(Participants(list, Collected(list))) <==> NoDuplicates(list)
  {
    CollectedIndexed(list);
    if Inverse(Participants(list, Collected(list))) {
      forall i, j | 0 <= i < j < |list| ensures list[i] != list[j] {
        assert Collected(list)[list[i]] == i && Collected(list)[list[j]] == j;
      }
    }
    if NoDuplicates(list) {
      forall i | 0 <= i < |list| ensures Collected(list)[list[i]] == i {
        var j := Collected(list)[list[i]];
        assert list[j] == list[i];
      }
    }
  }

  lemma {:induction false} CollectedIndexed(list: seq<PublicKey>)
    ensures Indexed(Participants(list, Collected(list)))
    ensures forall i :: 0 <= i < |list| ==> list[i] in Collected(list)
  {
    if list != [] {
      var init := list[..|list| - 1];
      CollectedIndexed(init);
      forall i | 0 <= i < |list| ensures list[i] in Collected(list) {
        if i < |init| { assert init[i] == list[i]; }
      }
    }
  }

  lemma AddedKeepsIndex(p: Participants, key: PublicKey)
    requires Indexed(p) && Added(p, key).Some?
    ensures Indexed(Added(p, key).value)
    ensures Inverse(p) ==> Inverse(Added(p, key).value) && Members(Added(p, key).value) == Members(p) + {key}
  {
  }

  lemma RemovedKeepsIndex(p: Participants, key: PublicKey)
    requires Indexed(p) && Removed(p, key).Some?
    ensures Indexed(Removed(p, key).value)
    ensures Inverse(p) ==> Inverse(Removed(p, key).value) && Members(Removed(p, key).value) == Members(p) - {key}
  {
    var q := Removed(p, key).value;
    var i, last := p.index[key], |p.list| - 1;
    forall k | k in q.index ensures q.index[k] < |q.list| && q.list[q.index[k]] == k {
    }
    if Inverse(p) {
      forall j | 0 <= j < |q.list| ensures q.list[j] in q.index && q.index[q.list[j]] == j {
        assert q.list[j] == if j == i then p.list[last] else p.list[j];
      }
      forall k ensures k in Members(q) <==> k in Members(p) - {key} {
        if k in Members(p) - {key} {
          var j := p.index[k];
          assert q.list[if j == last then i else j] == k;
        }
        if k in q.list {
          var j :| 0 <= j < |q.list| && q.list[j] == k;
          assert k == if j == i then p.list[last] else p.list[j];
        }
      }
    }
  }

  // ----- all snapshots

  /** Versions 1 to `latest`, and nothing else, each with a sound index. */
  ghost predicate Valid(s: Snapshots) {
    && s.latest >= 1
    && (forall v :: v in s.views <==> 1 <= v <= s.latest)
    && (forall v :: v in s.views ==> Indexed(s.views[v]))
  }

  function Start(list: seq<PublicKey>): Snapshots {
    Snapshots(map[1 := Participants(list, Collected(list))], 1)
  }

  function Applied(s: Snapshots, op: Op): Option<Participants>
    requires Valid(s)
  {
    match op
    case Add(key) => Added(s.views[s.latest], key)
    case Remove(key) => Removed(s.views[s.latest], key)
  }

  lemma AppliedIndexed(s: Snapshots, op: Op)
    requires Valid(s) && Applied(s, op).Some?
    ensures Indexed(Applied(s, op).value)
  {
    match op {
      case Add(key) => AddedKeepsIndex(s.views[s.latest], key);
      case Remove(key) => RemovedKeepsIndex(s.views[s.latest], key);
    }
  }

  function Step(s: Snapshots, op: Op): (t: Snapshots)
    requires Valid(s)
    ensures Valid(t)
  {
    match Applied(s, op)
    case None => s
    case Some(p) =>
      AppliedIndexed(s, op);
      Snapshots(s.views[s.latest + 1 := p], s.latest + 1)
  }

  function Run(s: Snapshots, ops: seq<Op>): (t: Snapshots)
    requires Valid(s)
    ensures Valid(t)
    decreases |ops|
  {
    if ops == [] then s else Run(Step(s, ops[0]), ops[1..])
  }

  /** The operations on a plain set: adding a member and removing a stranger fail. */
  function SetStep(members: set<PublicKey>, op: Op): set<PublicKey> {
    match op
    case Add(key) => members + {key}
    case Remove(key) => members - {key}
  }

  predicate Succeeds(members: set<PublicKey>, op: Op) {
    match op
    case Add(key) => key !in members
    case Remove(key) => key in members
  }

  function SetRun(members: set<PublicKey>, ops: seq<Op>): set<PublicKey>
    decreases |ops|
  {
    if ops == [] then members else SetRun(SetStep(members, ops[0]), ops[1..])
  }

  function Successes(members: set<PublicKey>, ops: seq<Op>): nat
    decreases |ops|
  {
    if ops == [] then 0
    else (if Succeeds(members, ops[0]) then 1 else 0) + Successes(SetStep(members, ops[0]), ops[1..])
  }

  lemma StepRefinesSet(s: Snapshots, op: Op)
    requires Valid(s) && Inverse(s.views[s.latest])
    ensures var p, t := s.views[s.latest], Step(s, op);
            && Inverse(t.views[t.latest])
            && Members(t.views[t.latest]) == SetStep(Members(p), op)
            && (Applied(s, op).Some? <==> Succeeds(Members(p), op))
            && t.latest == s.latest + if Succeeds(Members(p), op) then 1 else 0
  {
    var p := s.views[s.latest];
    assert forall k :: k in p.index <==> k in Members(p);
    match op {
      case Add(key) => if key !in p.index { AddedKeepsIndex(p, key); }
      case Remove(key) => if key in p.index { RemovedKeepsIndex(p, key); }
    }
  }

  /**
   * From a list without repeats, after any operations: list and index are inverse to one another, the
   * members are those of the plain set after the same operations, and there is one new version for
   * each operation that succeeds on that set.
   */
  lemma {:induction false} RunRefinesSet(s: Snapshots, ops: seq<Op>)
    requires Valid(s) && Inverse(s.views[s.latest])
    ensures var t := Run(s, ops);
            && Inverse(t.views[t.latest])
            && Members(t.views[t.latest]) == SetRun(Members(s.views[s.latest]), ops)
            && t.latest == s.latest + Successes(Members(s.views[s.latest]), ops)
    decreases |ops|
  {
    if ops != [] {
      StepRefinesSet(s, ops[0]);
      RunRefinesSet(Step(s, ops[0]), ops[1..]);
    }
  }

  /** Whatever the start and the operations, a snapshot once there stays, unchanged. */
  lemma {:induction false} SnapshotsPersist(s: Snapshots, ops: seq<Op>)
    requires Valid(s)
    ensures var t := Run(s, ops);
            && t.latest >= s.latest
            && (forall v :: v in s.views ==> v in t.views && t.views[v] == s.views[v])
            && (forall v :: v in t.views <==> 1 <= v <= t.latest)
    decreases |ops|
  {
    if ops != [] {
      SnapshotsPersist(Step(s, ops[0]), ops[1..]);
    }
  }

  // ----- leaders

  function Leader(p: Participants, view: nat): Option<PublicKey> {
    if p.list == [] then None else Some(p.list[view % |p.list|])
  }

  /** In any stretch of views as long as the list, each member leads. */
  lemma EveryMemberLeads(p: Participants, first: nat, key: PublicKey)
    requires Inverse(p) && key in Members(p)
    ensures exists view :: first <= view < first + |p.list| && Leader(p, view) == Some(key)
  {
    var n, i := |p.list|, p.index[key];
    var q, turn := first / n, first % n;
    var view := n * (if turn <= i then q else q + 1) + i;
    assert first == n * q + turn;
    assert n * (q + 1) == n * q + n;
    DivMod(if turn <= i then q else q + 1, i, n);
    assert Leader(p, view) == Some(key);
  }

  /** And no member leads twice in it. */
  lemma NoMemberLeadsTwice(p: Participants, v: nat, w: nat)
    requires Inverse(p) && p.list != [] && Leader(p, v) == Leader(p, w)
    requires v <= w < v + |p.list|
    ensures v == w
  {
    var n := |p.list|;
    assert p.index[p.list[v % n]] == v % n && p.index[p.list[w % n]] == w % n;
    var d := w / n - v / n;
    assert v == n * (v / n) + v % n && w == n * (w / n) + w % n;
    assert w - v == n * d by { assert n * d == n * (w / n) - n * (v / n); }
    Multiples(n, d);
  }

  lemma Multiples(n: nat, d: int)
    ensures d >= 1 ==> n * d >= n
    ensures d <= -1 ==> n * d <= 0 - n
  {
    if d >= 1 { assert n * d == n + n * (d - 1); }
    if d <= -1 { assert n * d == n * (d + 1) - n; }
  }

  lemma DivMod(q: nat, i: nat, n: nat)
    requires i < n
    ensures (n * q + i) % n == i
  {
    var x := n * q + i;
    var d := x / n - q;
    assert x == n * (x / n) + x % n;
    assert n * d == n * (x / n) - n * q;
    Multiples(n, d);
  }

  // ----- the object

  class Registry {
    var views: map<nat, Participants>
    var latestView: nat

    ghost function State(): Snapshots
      reads this
    {
      Snapshots(views, latestView)
    }

    constructor (participants: seq<PublicKey>)
      ensures State() == Start(participants) && Valid(State())
    {
      var index: map<PublicKey, nat> := map[];
      for i := 0 to |participants|
        invariant index == Collected(participants[..i])
      {
        assert participants[..i + 1][..i] == participants[..i];
        index := index[participants[i] := i];
      }
      assert participants[..|participants|] == participants;
      CollectedIndexed(participants);
      latestView := 1;
      views := map[1 := Participants(participants, index)];
    }

    /** False where the source returns an error. */
    method AddParticipant(participant: PublicKey) returns (ok: bool)
      requires Valid(State())
      modifies this
      ensures State() == Step(old(State()), Add(participant)) && Valid(State())
      ensures ok == (participant !in old(views[latestView].index))
      ensures !ok ==> State() == old(State())
    {
      var current := views[latestView];
      if participant in current.index { return false; }
      var list := current.list + [participant];
      var index := current.index[participant := |list| - 1];
      AddedKeepsIndex(current, participant);
      latestView := latestView + 1;
      views := views[latestView := Participants(list, index)];
      ok := true;
    }

    method RemoveParticipant(participant: PublicKey) returns (ok: bool)
      requires Valid(State())
      modifies this
      ensures State() == Step(old(State()), Remove(participant)) && Valid(State())
      ensures ok == (participant in old(views[latestView].index))
      ensures !ok ==> State() == old(State())
    {
      var current := views[latestView];
      if participant !in current.index { return false; }
      var i := current.index[participant];
      var list := SwapRemove(current.list, i);
      var index := current.index - {participant};
      if i < |list| {
        index := index[list[i] := i];
      }
      RemovedKeepsIndex(current, participant);
      latestView := latestView + 1;
      views := views[latestView := Participants(list, index)];
      ok := true;
    }

    /** The position returned is the one place the candidate leads from. */
    method IsParticipant(candidate: PublicKey) returns (position: Option<nat>)
      requires Valid(State())
      ensures position.Some? ==> position.value < |views[latestView].list|
                                 && views[latestView].list[position.value] == candidate
      ensures Inverse(views[latestView]) ==> (position.None? <==> candidate !in Members(views[latestView]))
    {
      var current := views[latestView];
      position := if candidate in current.index then Some(current.index[candidate]) else None;
    }

    method LeaderOf(view: nat) returns (leader: Option<PublicKey>)
      requires Valid(State())
      ensures leader == Leader(views[latestView], view)
      ensures leader.Some? ==> leader.value in Members(views[latestView])
    {
      var current := views[latestView];
      if current.list == [] { return None; }
      leader := Some(current.list[view % |current.list|]);
    }

    method Peers() returns (peers: seq<PublicKey>)
      requires Valid(State())
      ensures peers == views[latestView].list
      ensures Inverse(views[latestView]) ==> NoDuplicates(peers)
    {
      peers := views[latestView].list;
    }
  }
}
