/** syncer/src/key.rs: what the resolver is asked for, packed into 33 bytes. */
module Key {
  import opened Bytes
  import opened Wrappers

  const SIZE := 33

  datatype Value =
    | Notarized(view: nat)
    | Finalized(height: nat)
    | Digest(digest: Bytes32)
  {
    /** Views and heights are u64 in the source. */
    predicate Fits() {
      match this
      case Notarized(view) => view < U64_LIMIT
      case Finalized(height) => height < U64_LIMIT
      case Digest(_) => true
    }

    function Tag(): Byte {
      match this
      case Notarized(_) => 0
      case Finalized(_) => 1
      case Digest(_) => 2
    }

    /** The part of the key that follows the tag. */
    function Body(): (s: seq<Byte>)
      ensures |s| == 32
    {
      match this
      case Notarized(view) => BigEndian(view, 8) + seq(24, _ => 0)
      case Finalized(height) => BigEndian(height, 8) + seq(24, _ => 0)
      case Digest(digest) => digest
    }
  }

  type MultiIndex = s: seq<Byte> | |s| == 33 witness seq(33, _ => 0)

  function Pack(value: Value): MultiIndex {
    [value.Tag()] + value.Body()
  }

  /** `None` is the `unreachable!()` arm: a tag no `New` writes. */
  function ToValue(key: MultiIndex): Option<Value> {
    if key[0] == 0 then Some(Notarized(FromBigEndian(key[1..9])))
    else if key[0] == 1 then Some(Finalized(FromBigEndian(key[1..9])))
    else if key[0] == 2 then Some(Digest(key[1..]))
    else None
  }

  /** `MultiIndex::new`: a zeroed array, a tag byte, and the value copied in place. */
  method New(value: Value) returns (bytes: array<Byte>)
    ensures fresh(bytes) && bytes.Length == SIZE
    ensures bytes[..] == Pack(value)
  {
    bytes := new Byte[SIZE](_ => 0);
    bytes[0] := value.Tag();
    var body := match value
      case Notarized(view) => BigEndian(view, 8)
      case Finalized(height) => BigEndian(height, 8)
      case Digest(digest) => digest;
    for i := 0 to |body|
      invariant bytes[0] == value.Tag()
      invariant forall j :: 0 <= j < i ==> bytes[1 + j] == body[j]
      invariant forall j :: 1 + i <= j < SIZE ==> bytes[j] == 0
    {
      bytes[1 + i] := body[i];
    }
    assert bytes[..] == Pack(value);
  }

  /** Unpacking gives back exactly what was packed. */
  lemma UnpackPack(value: Value)
    requires value.Fits()
    ensures ToValue(Pack(value)) == Some(value)
  {
    var key := Pack(value);
    match value {
      case Notarized(view) => assert key[1..9] == BigEndian(view, 8); U64Bytes(view);
      case Finalized(height) => assert key[1..9] == BigEndian(height, 8); U64Bytes(height);
      case Digest(digest) => assert key[1..] == digest;
    }
  }

  /** Packing is one-to-one, so the resolver can use the bytes as the identity of a request. */
  lemma PackInjective(a: Value, b: Value)
    requires a.Fits() && b.Fits()
    ensures Pack(a) == Pack(b) <==> a == b
  {
    UnpackPack(a);
    UnpackPack(b);
  }

  /**
   * A key read from the network is one that `New` writes exactly when its tag is known and, for a
   * view or a height, its last 24 bytes are zero; every other known key stands for a value whose
   * own key differs from it.
   */
  lemma PackUnpack(key: MultiIndex)
    requires key[0] <= 2
    ensures ToValue(key).Some? && ToValue(key).value.Fits()
    ensures Pack(ToValue(key).value) == key <==> (key[0] == 2 || key[9..] == seq(24, _ => 0))
  {
    assert key == [key[0]] + key[1..];
    if key[0] != 2 {
      EightBytes(key[1..9]);
      assert key[1..] == key[1..9] + key[9..];
      assert Pack(ToValue(key).value) == [key[0]] + (key[1..9] + seq(24, _ => 0));
      assert Pack(ToValue(key).value)[9..] == seq(24, _ => 0);
    }
  }

  /** Tag first, then the number, or the bytes of the digest. */
  predicate Before(a: Value, b: Value) {
    match (a, b)
    case (Notarized(m), Notarized(n)) => m < n
    case (Finalized(m), Finalized(n)) => m < n
    case (Digest(d), Digest(e)) => Less(d, e)
    case (_, _) => a.Tag() < b.Tag()
  }

  /** The derived order of the packed keys is the order of the values they stand for. */
  lemma OrderOfKeys(a: Value, b: Value)
    requires a.Fits() && b.Fits()
    ensures Less(Pack(a), Pack(b)) <==> Before(a, b)
  {
    LessOnConcat([a.Tag()], [b.Tag()], a.Body(), b.Body());
    if a.Tag() == b.Tag() && !a.Digest? {
      var m, n := if a.Notarized? then a.view else a.height, if b.Notarized? then b.view else b.height;
      var zeros: seq<Byte> := seq(24, _ => 0);
      LessOnConcat(BigEndian(m, 8), BigEndian(n, 8), zeros, zeros);
      LessIsIrreflexive(zeros);
      Widths();
      BigEndianOrder(m, n, 8);
    }
  }

  function PackAll(values: set<Value>): set<seq<Byte>> {
    set v | v in values :: Pack(v)
  }

  /** Cancelling one request by its packed key removes that request and no other. */
  lemma CancelOnlyOne(requests: set<Value>, cancelled: Value)
    requires cancelled.Fits() && forall v :: v in requests ==> v.Fits()
    ensures PackAll(requests - {cancelled}) == PackAll(requests) - {Pack(cancelled)}
  {
    forall k | k in PackAll(requests) && k != Pack(cancelled)
      ensures k in PackAll(requests - {cancelled})
    {
      var v :| v in requests && k == Pack(v);
      assert v in requests - {cancelled};
    }
    forall v | v in requests - {cancelled}
      ensures Pack(v) in PackAll(requests) - {Pack(cancelled)}
    {
      PackInjective(v, cancelled);
    }
  }
}
