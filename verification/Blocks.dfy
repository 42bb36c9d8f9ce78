/** types/src/block.rs: blocks, their digest and their wire form, alone and under a certificate. */
module Blocks {
  import opened Bytes
  import opened Wrappers
  import opened Ssz

  const FIXED_LENGTH := 88
  const PAYLOAD_FIXED_LENGTH := 528
  const BLOCK_HASH_AT := 472

  /**
   * An execution payload, held as its own SSZ form: a 528-byte fixed part that starts with the
   * parent hash and has the block hash at 472, then the variable parts.
   */
  type Payload = s: seq<Byte> | |s| >= 528 witness seq(528, _ => 0)

  datatype Block = Block(
    parent: Bytes32,
    height: U64,
    timestamp: U64,
    payload: Payload,
    requests: seq<seq<Byte>>,
    blockValue: Bytes32,
    digest: Bytes32)
  {
    function EthBlockHash(): Bytes32 {
      if height == 0 then digest else payload[BLOCK_HASH_AT..BLOCK_HASH_AT + 32]
    }

    function EthParentHash(): Bytes32 {
      payload[..32]
    }

    /** Everything the hasher is fed; payload and requests are not delimited. */
    function Preimage(): seq<Byte> {
      parent + BigEndian(height, 8) + BigEndian(timestamp, 8) + payload + ListBytes(requests) + blockValue
    }

    function FixedPart(): (s: seq<Byte>)
      ensures |s| == FIXED_LENGTH
    {
      parent + LittleEndian(height, 8) + LittleEndian(timestamp, 8)
      + Offset(FIXED_LENGTH) + Offset(FIXED_LENGTH + |payload|) + blockValue
    }

    function SszBytes(): seq<Byte> {
      FixedPart() + payload + ListBytes(requests)
    }

    /** No offset of the container or of its request list is cut. */
    predicate Fits() {
      FIXED_LENGTH + |payload| < U32_LIMIT && ListFits(requests)
    }

    /** `ssz_bytes_len`, which counts one offset of the container but not the other. */
    function SszBytesLen(): nat {
      32 + 8 + 8 + |payload| + (4 * |requests| + |Concat(requests)|) + BYTES_PER_LENGTH_OFFSET + 32
    }

    function EncodeSize(): nat {
      SszBytesLen() + BYTES_PER_LENGTH_OFFSET * 2
    }

    function WriteBytes(): seq<Byte> {
      BigEndian(|SszBytes()|, 4) + SszBytes()
    }
  }

  /** What a quorum signed, and its signatures. Notarizations and finalizations have this one shape. */
  datatype Certificate = Certificate(
    view: nat,
    parentView: nat,
    payload: Bytes32,
    proposalSignature: seq<Byte>,
    seedSignature: seq<Byte>)

  /** `Notarized` and `Finalized`: a certificate with the block it is for. */
  datatype Certified = Certified(proof: Certificate, block: Block) {
    function WriteBytes(p: Primitives): seq<Byte> {
      p.proofBytes(proof) + block.WriteBytes()
    }

    function EncodeSize(p: Primitives): nat {
      |p.proofBytes(proof)| + block.EncodeSize()
    }
  }

  /** The cryptography and the codecs that come from libraries. */
  datatype Primitives = Primitives(
    sha: seq<Byte> -> Bytes32,
    payloadOk: seq<Byte> -> bool,
    proofBytes: Certificate -> seq<Byte>,
    readProof: seq<Byte> -> Option<(Certificate, seq<Byte>)>,
    notarizationValid: Certificate -> bool,
    finalizationValid: Certificate -> bool)

  /** What is asked of the certificate codec: it reads back what it writes, and writes something. */
  ghost predicate ProofCodec(p: Primitives) {
    forall proof: Certificate, suffix: seq<Byte> {:trigger p.proofBytes(proof) + suffix} ::
      p.readProof(p.proofBytes(proof) + suffix) == Some((proof, suffix)) && p.proofBytes(proof) != []
  }

  /** A block as `compute_digest` leaves it: the digest is that of its own fields. */
  predicate Sealed(p: Primitives, b: Block) {
    b.digest == p.sha(b.Preimage())
  }

  /** A block that crosses the wire unchanged. */
  predicate Sendable(p: Primitives, b: Block) {
    Sealed(p, b) && p.payloadOk(b.payload) && |b.SszBytes()| < U32_LIMIT
  }

  function Seal(p: Primitives, parent: Bytes32, height: U64, timestamp: U64, payload: Payload,
                requests: seq<seq<Byte>>, blockValue: Bytes32): (b: Block)
    ensures Sealed(p, b)
  {
    var draft := Block(parent, height, timestamp, payload, requests, blockValue, parent);
    draft.(digest := p.sha(draft.Preimage()))
  }

  function Genesis(hash: Bytes32, defaultPayload: Payload): Block {
    Block(hash, 0, 0, defaultPayload, [], seq(32, _ => 0), hash)
  }

  // ----- the step-by-step forms

  class Hasher {
    var fed: seq<Byte>

    constructor ()
      ensures fed == []
    {
      fed := [];
    }

    method Update(bytes: seq<Byte>)
      modifies this
      ensures fed == old(fed) + bytes
    {
      fed := fed + bytes;
    }

    method Finalize(p: Primitives) returns (digest: Bytes32)
      ensures digest == p.sha(fed)
    {
      digest := p.sha(fed);
    }
  }

  method ComputeDigest(p: Primitives, parent: Bytes32, height: U64, timestamp: U64, payload: Payload,
                       requests: seq<seq<Byte>>, blockValue: Bytes32)
    returns (b: Block)
    ensures Sealed(p, b)
    ensures b == Seal(p, parent, height, timestamp, payload, requests, blockValue)
  {
    var hasher := new Hasher();
    hasher.Update(parent);
    hasher.Update(BigEndian(height, 8));
    hasher.Update(BigEndian(timestamp, 8));
    hasher.Update(payload);
    hasher.Update(ListBytes(requests));
    hasher.Update(blockValue);
    var digest := hasher.Finalize(p);
    b := Block(parent, height, timestamp, payload, requests, blockValue, digest);
    assert hasher.fed == b.Preimage();
  }

  method ListOf(items: seq<seq<Byte>>) returns (bytes: seq<Byte>)
    ensures bytes == ListBytes(items)
  {
    var buf := new Buffer();
    AppendList(buf, items);
    bytes := buf.bytes;
  }

  /** The order in which the encoder lays down the parts of a block after `start`. */
  lemma EncoderOrder(start: seq<Byte>, b: Block)
    ensures start + b.parent + LittleEndian(b.height, 8) + LittleEndian(b.timestamp, 8)
            + Offset(FIXED_LENGTH) + Offset(FIXED_LENGTH + |b.payload|) + b.blockValue
            + ([] + b.payload + ListBytes(b.requests))
         == start + b.SszBytes()
  {
    assert [] + b.payload == b.payload;
    var fixed := start + b.parent + LittleEndian(b.height, 8) + LittleEndian(b.timestamp, 8)
                 + Offset(FIXED_LENGTH) + Offset(FIXED_LENGTH + |b.payload|) + b.blockValue;
    assert fixed == start + b.FixedPart();
  }

  method SszAppend(b: Block, buf: Buffer)
    modifies buf
    ensures buf.bytes == old(buf.bytes) + b.SszBytes()
  {
    var encoder := new Encoder(buf, 32 + 8 * 2 + 4 + 4 + 32);
    encoder.AppendFixed(b.parent);
    encoder.AppendFixed(LittleEndian(b.height, 8));
    encoder.AppendFixed(LittleEndian(b.timestamp, 8));
    encoder.AppendVariable(b.payload);
    var requests := ListOf(b.requests);
    encoder.AppendVariable(requests);
    encoder.AppendFixed(b.blockValue);
    EncoderOrder(old(buf.bytes), b);
    encoder.Finish();
  }

  method Write(b: Block, buf: Buffer)
    modifies buf
    ensures buf.bytes == old(buf.bytes) + b.WriteBytes()
  {
    var ssz := new Buffer();
    SszAppend(b, ssz);
    var bytesLen := |ssz.bytes|;
    buf.Extend(BigEndian(bytesLen, 4));
    buf.Extend(ssz.bytes);
  }

  method WriteCertified(p: Primitives, c: Certified, buf: Buffer)
    modifies buf
    ensures buf.bytes == old(buf.bytes) + c.WriteBytes(p)
  {
    buf.Extend(p.proofBytes(c.proof));
    Write(c.block, buf);
  }

  // ----- reading

  /** `Panics` is a read past the end of the buffer, which the source does not guard. */
  datatype Read<+T> = Ok(value: T, rest: seq<Byte>) | Invalid | Panics

  function FromSsz(p: Primitives, bytes: seq<Byte>): Option<Block> {
    if |bytes| < FIXED_LENGTH then None
    else
      var first := FromLittleEndian(bytes[48..52]);
      var second := FromLittleEndian(bytes[52..56]);
      if first != FIXED_LENGTH || second > |bytes| || first > second then None
      else
        var payload := bytes[first..second];
        if |payload| < PAYLOAD_FIXED_LENGTH || !p.payloadOk(payload) then None
        else
          EightBytes(bytes[32..40]);
          EightBytes(bytes[40..48]);
          match DecodeList(bytes[second..])
          case None => None
          case Some(requests) =>
            Some(Seal(p, bytes[..32], FromLittleEndian(bytes[32..40]), FromLittleEndian(bytes[40..48]),
                      payload, requests, bytes[56..88]))
  }

  function ReadBlock(p: Primitives, bytes: seq<Byte>): Read<Block> {
    if |bytes| < 4 then Panics
    else
      var length := FromBigEndian(bytes[..4]);
      if |bytes| - 4 < length then Panics
      else
        match FromSsz(p, bytes[4..4 + length])
        case None => Invalid
        case Some(b) => Ok(b, bytes[4 + length..])
  }

  /** Too short for its length prefix, or for the length it announces. */
  predicate Short(bytes: seq<Byte>) {
    |bytes| < 4 || |bytes| < 4 + FromBigEndian(bytes[..4])
  }

  function ReadCertified(p: Primitives, bytes: seq<Byte>): Read<Certified> {
    match p.readProof(bytes)
    case None => Invalid
    case Some((proof, rest)) =>
      match ReadBlock(p, rest)
      case Invalid => Invalid
      case Panics => Panics
      case Ok(b, left) => if proof.payload != b.digest then Invalid else Ok(Certified(proof, b), left)
  }

  /** `DecodeExt::decode`: a read that must use up the buffer. */
  function Whole<T>(r: Read<T>): Read<T> {
    if r.Ok? && r.rest != [] then Invalid else r
  }

  function DecodeBlock(p: Primitives, bytes: seq<Byte>): Read<Block> {
    Whole(ReadBlock(p, bytes))
  }

  function DecodeCertified(p: Primitives, bytes: seq<Byte>): Read<Certified> {
    Whole(ReadCertified(p, bytes))
  }

  /** The buffer a message is read from; reading moves past what was read. */
  class Cursor {
    var rest: seq<Byte>

    constructor (bytes: seq<Byte>)
      ensures rest == bytes
    {
      rest := bytes;
    }

    /** `get_u32` and `copy_to_bytes`: `None` where they panic. */
    method Take(count: nat) returns (taken: Option<seq<Byte>>)
      modifies this
      ensures taken == if count <= |old(rest)| then Some(old(rest)[..count]) else None
      ensures rest == if count <= |old(rest)| then old(rest)[count..] else old(rest)
    {
      if count > |rest| { return None; }
      taken := Some(rest[..count]);
      rest := rest[count..];
    }
  }

  method ReadFrom(p: Primitives, cursor: Cursor) returns (r: Read<Block>)
    modifies cursor
    ensures r == ReadBlock(p, old(cursor.rest))
    ensures r.Ok? ==> cursor.rest == r.rest
  {
    var prefix := cursor.Take(4);
    if prefix.None? { return Panics; }
    var length := FromBigEndian(prefix.value);
    var body := cursor.Take(length);
    if body.None? { return Panics; }
    assert body.value == old(cursor.rest)[4..4 + length];
    var decoded := FromSsz(p, body.value);
    if decoded.None? { return Invalid; }
    r := Ok(decoded.value, cursor.rest);
  }

  // ----- the codec theorems

  /**
   * Where decoding panics: a block exactly when its bytes are short, a certified block exactly when its
   * certificate is read and what is left is short. Everything else is decoded or refused.
   */
  lemma PanicsExactly(p: Primitives, bytes: seq<Byte>)
    ensures DecodeBlock(p, bytes).Panics? <==> Short(bytes)
    ensures DecodeCertified(p, bytes).Panics? <==> (p.readProof(bytes).Some? && Short(p.readProof(bytes).value.1))
  {
  }

  lemma {:induction false} SmallOffsetsFit(items: seq<seq<Byte>>, at: nat)
    requires at + |Concat(items)| < U32_LIMIT
    ensures OffsetsFit(items, at)
  {
    if items != [] {
      SmallOffsetsFit(items[1..], at + |items[0]|);
    }
  }

  lemma SmallBlockFits(b: Block)
    requires |b.SszBytes()| < U32_LIMIT
    ensures b.Fits()
  {
    SmallOffsetsFit(b.requests, 4 * |b.requests|);
  }

  lemma Layout(b: Block)
    ensures |b.SszBytes()| == FIXED_LENGTH + |b.payload| + |ListBytes(b.requests)|
    ensures b.SszBytes()[..32] == b.parent
    ensures b.SszBytes()[32..40] == LittleEndian(b.height, 8)
    ensures b.SszBytes()[40..48] == LittleEndian(b.timestamp, 8)
    ensures b.SszBytes()[48..52] == Offset(FIXED_LENGTH)
    ensures b.SszBytes()[52..56] == Offset(FIXED_LENGTH + |b.payload|)
    ensures b.SszBytes()[56..88] == b.blockValue
    ensures b.SszBytes()[88..88 + |b.payload|] == b.payload
    ensures b.SszBytes()[88 + |b.payload|..] == ListBytes(b.requests)
  {
  }

  /** Bytes whose parts are the fields of a block are its serialization. */
  lemma Assemble(bytes: seq<Byte>, b: Block)
    requires |bytes| >= FIXED_LENGTH + |b.payload|
    requires bytes[..32] == b.parent
    requires bytes[32..40] == LittleEndian(b.height, 8)
    requires bytes[40..48] == LittleEndian(b.timestamp, 8)
    requires bytes[48..52] == Offset(FIXED_LENGTH)
    requires bytes[52..56] == Offset(FIXED_LENGTH + |b.payload|)
    requires bytes[56..88] == b.blockValue
    requires bytes[88..88 + |b.payload|] == b.payload
    requires bytes[88 + |b.payload|..] == ListBytes(b.requests)
    ensures bytes == b.SszBytes()
  {
    Joined(bytes, 0, 32, 40);
    Joined(bytes, 0, 40, 48);
    Joined(bytes, 0, 48, 52);
    Joined(bytes, 0, 52, 56);
    Joined(bytes, 0, 56, 88);
    Joined(bytes, 0, 88, 88 + |b.payload|);
    Joined(bytes, 0, 88 + |b.payload|, |bytes|);
  }

  /**
   * Decoding the container accepts exactly the serializations of sealed blocks whose offsets fit in
   * four bytes, and gives back that block.
   */
  lemma SszExact(p: Primitives, bytes: seq<Byte>, b: Block)
    ensures FromSsz(p, bytes) == Some(b) <==>
            (bytes == b.SszBytes() && Sealed(p, b) && p.payloadOk(b.payload) && b.Fits())
  {
    if FromSsz(p, bytes) == Some(b) {
      SszSound(p, bytes);
    }
    if bytes == b.SszBytes() && Sealed(p, b) && p.payloadOk(b.payload) && b.Fits() {
      SszComplete(p, b);
    }
  }

  lemma SszSound(p: Primitives, bytes: seq<Byte>)
    requires FromSsz(p, bytes).Some?
    ensures var b := FromSsz(p, bytes).value;
            bytes == b.SszBytes() && Sealed(p, b) && p.payloadOk(b.payload) && b.Fits()
  {
    var b := FromSsz(p, bytes).value;
    HeadFields(p, bytes);
    TailFields(p, bytes);
    Assemble(bytes, b);
  }

  lemma HeadFields(p: Primitives, bytes: seq<Byte>)
    requires FromSsz(p, bytes).Some?
    ensures var b := FromSsz(p, bytes).value;
            && bytes[..32] == b.parent
            && bytes[32..40] == LittleEndian(b.height, 8)
            && bytes[40..48] == LittleEndian(b.timestamp, 8)
            && bytes[48..52] == Offset(FIXED_LENGTH)
            && bytes[56..88] == b.blockValue
            && Sealed(p, b) && p.payloadOk(b.payload)
  {
    FourBytes(bytes[48..52], FIXED_LENGTH);
    EightBytes(bytes[32..40]);
    EightBytes(bytes[40..48]);
  }

  lemma TailFields(p: Primitives, bytes: seq<Byte>)
    requires FromSsz(p, bytes).Some?
    ensures var b := FromSsz(p, bytes).value;
            && |bytes| >= FIXED_LENGTH + |b.payload|
            && bytes[52..56] == Offset(FIXED_LENGTH + |b.payload|)
            && bytes[88..88 + |b.payload|] == b.payload
            && bytes[88 + |b.payload|..] == ListBytes(b.requests)
            && b.Fits()
  {
    var b := FromSsz(p, bytes).value;
    var second := SecondOffset(p, bytes);
    FourBytes(bytes[52..56], second);
    ListExact(bytes[second..], b.requests);
  }

  /** Where the requests start. */
  lemma SecondOffset(p: Primitives, bytes: seq<Byte>) returns (second: nat)
    requires FromSsz(p, bytes).Some?
    ensures 88 <= second <= |bytes| && FromLittleEndian(bytes[52..56]) == second
    ensures FromSsz(p, bytes).value.payload == bytes[88..second]
    ensures DecodeList(bytes[second..]) == Some(FromSsz(p, bytes).value.requests)
  {
    second := FromLittleEndian(bytes[52..56]);
  }

  lemma SszComplete(p: Primitives, b: Block)
    requires Sealed(p, b) && p.payloadOk(b.payload) && b.Fits()
    ensures FromSsz(p, b.SszBytes()) == Some(b)
  {
    Layout(b);
    ListExact(ListBytes(b.requests), b.requests);
    Parsed(p, b.SszBytes(), b);
  }

  lemma Parsed(p: Primitives, bytes: seq<Byte>, b: Block)
    requires |bytes| >= FIXED_LENGTH + |b.payload|
    requires bytes[..32] == b.parent && bytes[56..88] == b.blockValue
    requires bytes[32..40] == LittleEndian(b.height, 8) && bytes[40..48] == LittleEndian(b.timestamp, 8)
    requires bytes[48..52] == Offset(FIXED_LENGTH) && bytes[52..56] == Offset(FIXED_LENGTH + |b.payload|)
    requires bytes[88..88 + |b.payload|] == b.payload
    requires DecodeList(bytes[88 + |b.payload|..]) == Some(b.requests)
    requires Sealed(p, b) && p.payloadOk(b.payload) && b.Fits()
    ensures FromSsz(p, bytes) == Some(b)
  {
    FourBytes(bytes[48..52], FIXED_LENGTH);
    FourBytes(bytes[52..56], FIXED_LENGTH + |b.payload|);
    U64Bytes(b.height);
    U64Bytes(b.timestamp);
    assert b == Seal(p, b.parent, b.height, b.timestamp, b.payload, b.requests, b.blockValue);
  }

  lemma Framed(prefix: seq<Byte>, body: seq<Byte>, rest: seq<Byte>)
    ensures var bytes := prefix + body + rest;
            && bytes[..|prefix|] == prefix
            && bytes[|prefix|..|prefix| + |body|] == body
            && bytes[|prefix| + |body|..] == rest
  {
  }

  /**
   * Reading a stream yields block `b` and leaves `rest` exactly when the stream is what writing `b`
   * produces followed by `rest`, and `b` is sealed, well formed and shorter than 2^32 bytes. So every
   * such block survives the wire, whatever follows it, and no other bytes are read as it.
   */
  lemma StreamExact(p: Primitives, bytes: seq<Byte>, b: Block, rest: seq<Byte>)
    ensures ReadBlock(p, bytes) == Ok(b, rest) <==> (bytes == b.WriteBytes() + rest && Sendable(p, b))
  {
    if ReadBlock(p, bytes) == Ok(b, rest) { StreamSound(p, bytes, b, rest); }
    if bytes == b.WriteBytes() + rest && Sendable(p, b) { StreamComplete(p, b, rest); }
  }

  lemma StreamSound(p: Primitives, bytes: seq<Byte>, b: Block, rest: seq<Byte>)
    requires ReadBlock(p, bytes) == Ok(b, rest)
    ensures bytes == b.WriteBytes() + rest && Sendable(p, b)
  {
    var length := ReadLength(p, bytes);
    SszExact(p, bytes[4..4 + length], b);
    Framing(bytes, length, b);
  }

  lemma ReadLength(p: Primitives, bytes: seq<Byte>) returns (length: nat)
    requires ReadBlock(p, bytes).Ok?
    ensures 4 + length <= |bytes| && length < 0x1_0000_0000 && bytes[..4] == BigEndian(length, 4)
    ensures FromSsz(p, bytes[4..4 + length]) == Some(ReadBlock(p, bytes).value)
    ensures ReadBlock(p, bytes).rest == bytes[4 + length..]
  {
    length := FromBigEndian(bytes[..4]);
    FourBytesBig(bytes[..4], length);
  }

  lemma Framing(bytes: seq<Byte>, length: nat, b: Block)
    requires 4 + length <= |bytes| && bytes[..4] == BigEndian(length, 4) && bytes[4..4 + length] == b.SszBytes()
    ensures bytes == b.WriteBytes() + bytes[4 + length..]
  {
    assert |b.SszBytes()| == length;
    assert bytes == bytes[..4] + bytes[4..4 + length] + bytes[4 + length..];
  }

  lemma StreamComplete(p: Primitives, b: Block, rest: seq<Byte>)
    requires Sendable(p, b)
    ensures ReadBlock(p, b.WriteBytes() + rest) == Ok(b, rest)
  {
    var ssz := b.SszBytes();
    Framed(BigEndian(|ssz|, 4), ssz, rest);
    FourBytesBig((b.WriteBytes() + rest)[..4], |ssz|);
    SmallBlockFits(b);
    SszExact(p, ssz, b);
  }

  /** A written block is read back, in front of any bytes, exactly when it is sendable. */
  lemma RoundTrip(p: Primitives, b: Block, rest: seq<Byte>)
    ensures ReadBlock(p, b.WriteBytes() + rest) == Ok(b, rest) <==> Sendable(p, b)
  {
    StreamExact(p, b.WriteBytes() + rest, b, rest);
  }

  /** The genesis block is written like any other but comes back with another digest. */
  lemma GenesisDoesNotRoundTrip(p: Primitives, hash: Bytes32, defaultPayload: Payload, rest: seq<Byte>)
    requires p.sha(Genesis(hash, defaultPayload).Preimage()) != hash
    ensures ReadBlock(p, Genesis(hash, defaultPayload).WriteBytes() + rest)
         != Ok(Genesis(hash, defaultPayload), rest)
  {
    RoundTrip(p, Genesis(hash, defaultPayload), rest);
  }

  lemma WholeExact(p: Primitives, bytes: seq<Byte>, b: Block)
    ensures DecodeBlock(p, bytes) == Ok(b, []) <==> (bytes == b.WriteBytes() && Sendable(p, b))
  {
    StreamExact(p, bytes, b, []);
    assert b.WriteBytes() + [] == b.WriteBytes();
  }

  /** A certificate and its block survive the wire exactly when the certificate is for that block. */
  lemma CertifiedRoundTrip(p: Primitives, c: Certified, rest: seq<Byte>)
    requires ProofCodec(p)
    ensures ReadCertified(p, c.WriteBytes(p) + rest) == Ok(c, rest)
       <==> (Sendable(p, c.block) && c.proof.payload == c.block.digest)
  {
    var tail := c.block.WriteBytes() + rest;
    assert c.WriteBytes(p) + rest == p.proofBytes(c.proof) + tail;
    assert p.readProof(p.proofBytes(c.proof) + tail) == Some((c.proof, tail));
    RoundTrip(p, c.block, rest);
  }

  lemma WholeCertified(p: Primitives, c: Certified)
    requires ProofCodec(p) && Sendable(p, c.block) && c.proof.payload == c.block.digest
    ensures DecodeCertified(p, c.WriteBytes(p)) == Ok(c, [])
  {
    CertifiedRoundTrip(p, c, []);
    assert c.WriteBytes(p) + [] == c.WriteBytes(p);
  }

  /** Whatever a certified read returns, the certificate names the block and the block is sendable. */
  lemma CertifiedReadSound(p: Primitives, bytes: seq<Byte>)
    requires DecodeCertified(p, bytes).Ok?
    ensures var c := DecodeCertified(p, bytes).value;
            c.proof.payload == c.block.digest && Sendable(p, c.block)
  {
    var (proof, rest) := p.readProof(bytes).value;
    var r := ReadBlock(p, rest);
    StreamExact(p, rest, r.value, r.rest);
  }

  /** The bytes are a certificate and then, to the end, a sendable block that it is for. */
  ghost predicate Carries(p: Primitives, bytes: seq<Byte>, c: Certified) {
    && p.readProof(bytes) == Some((c.proof, c.block.WriteBytes()))
    && Sendable(p, c.block) && c.proof.payload == c.block.digest
  }

  /** Decoding accepts exactly these, and gives back that pair. */
  lemma CarriesExactly(p: Primitives, bytes: seq<Byte>, c: Certified)
    ensures DecodeCertified(p, bytes) == Ok(c, []) <==> Carries(p, bytes, c)
  {
    if p.readProof(bytes).Some? {
      StreamExact(p, p.readProof(bytes).value.1, c.block, []);
      assert c.block.WriteBytes() + [] == c.block.WriteBytes();
    }
  }

  lemma WrittenIsCarried(p: Primitives, c: Certified)
    requires ProofCodec(p) && Sendable(p, c.block) && c.proof.payload == c.block.digest
    ensures Carries(p, c.WriteBytes(p), c)
  {
    assert p.readProof(p.proofBytes(c.proof) + c.block.WriteBytes()) == Some((c.proof, c.block.WriteBytes()));
  }

  /** The announced size is the size written, for a block and for a block with its certificate. */
  lemma ExactSize(p: Primitives, c: Certified)
    ensures |c.block.WriteBytes()| == c.block.EncodeSize()
    ensures |c.WriteBytes(p)| == c.EncodeSize(p)
    ensures |c.block.SszBytes()| == c.block.SszBytesLen() + BYTES_PER_LENGTH_OFFSET
  {
    Layout(c.block);
  }

  // ----- what the digest fixes

  /** Agreement on everything the pipeline looks at: the links, the clock and the execution hashes. */
  predicate Twins(a: Block, b: Block) {
    && a.digest == b.digest
    && a.parent == b.parent
    && a.height == b.height
    && a.timestamp == b.timestamp
    && a.blockValue == b.blockValue
    && a.EthBlockHash() == b.EthBlockHash()
    && a.EthParentHash() == b.EthParentHash()
  }

  /**
   * Two blocks have one preimage exactly when they agree in parent, height, timestamp, block value
   * and in payload followed by requests; the split between the last two is not fixed.
   */
  lemma PreimageFixes(a: Block, b: Block)
    ensures a.Preimage() == b.Preimage() <==>
            && a.parent == b.parent && a.height == b.height && a.timestamp == b.timestamp
            && a.blockValue == b.blockValue
            && a.payload + ListBytes(a.requests) == b.payload + ListBytes(b.requests)
  {
    PreimageParts(a);
    PreimageParts(b);
    U64Bytes(a.height);
    U64Bytes(b.height);
    U64Bytes(a.timestamp);
    U64Bytes(b.timestamp);
  }

  lemma PreimageParts(b: Block)
    ensures |b.Preimage()| >= 80
    ensures b.Preimage()[..32] == b.parent
    ensures b.Preimage()[32..40] == BigEndian(b.height, 8)
    ensures b.Preimage()[40..48] == BigEndian(b.timestamp, 8)
    ensures b.Preimage()[48..|b.Preimage()| - 32] == b.payload + ListBytes(b.requests)
    ensures b.Preimage()[|b.Preimage()| - 32..] == b.blockValue
    ensures b.Preimage() == b.parent + BigEndian(b.height, 8) + BigEndian(b.timestamp, 8)
                            + (b.payload + ListBytes(b.requests)) + b.blockValue
  {
    var head := b.parent + BigEndian(b.height, 8) + BigEndian(b.timestamp, 8);
    var body := b.payload + ListBytes(b.requests);
    assert |head| == 48;
    assert b.Preimage() == head + body + b.blockValue;
  }

  /** The execution hashes lie in the fixed part of the payload, so the preimage fixes them too. */
  lemma PreimageFixesEthHashes(a: Block, b: Block)
    requires a.Preimage() == b.Preimage() && a.digest == b.digest
    ensures Twins(a, b)
  {
    PreimageFixes(a, b);
    var x, y := a.payload + ListBytes(a.requests), b.payload + ListBytes(b.requests);
    assert a.payload[..32] == x[..32] && b.payload[..32] == y[..32];
    assert a.payload[472..504] == x[472..504] && b.payload[472..504] == y[472..504];
  }

  /** All of a block's requests moved behind its payload. */
  function Merged(b: Block): Block {
    b.(payload := b.payload + ListBytes(b.requests), requests := [])
  }

  lemma MergedFacts(b: Block)
    ensures Merged(b).Preimage() == b.Preimage()
    ensures |Merged(b).SszBytes()| == |b.SszBytes()|
    ensures b.requests != [] ==> |Merged(b).payload| > |b.payload|
  {
    var c := Merged(b);
    assert ListBytes(c.requests) == [];
    assert c.payload + ListBytes(c.requests) == b.payload + ListBytes(b.requests);
    PreimageFixes(b, c);
    Layout(b);
    Layout(c);
  }

  /**
   * The split between payload and requests is not fixed: whenever the two read as one payload, the
   * block without requests is another one that crosses the wire unchanged, under the same digest.
   */
  lemma PreimageDoesNotFixSplit(p: Primitives, b: Block)
    requires Sendable(p, b) && b.requests != [] && p.payloadOk(Merged(b).payload)
    ensures Merged(b) != b && Sendable(p, Merged(b))
    ensures Merged(b).Preimage() == b.Preimage() && Twins(Merged(b), b)
  {
    MergedFacts(b);
    PreimageFixesEthHashes(Merged(b), b);
  }

  const WITHDRAWAL_LENGTH := 44

  /** Withdrawals end a payload and take 44 bytes each, so one more can be appended to any payload. */
  ghost predicate WithdrawalsLast(p: Primitives) {
    forall payload: seq<Byte>, w: seq<Byte> {:trigger payload + w} ::
      p.payloadOk(payload) && |w| == WITHDRAWAL_LENGTH ==> p.payloadOk(payload + w)
  }

  /** One request of 40 bytes reads as one withdrawal more. */
  lemma RequestReadsAsWithdrawal(p: Primitives, b: Block, request: seq<Byte>)
    requires WithdrawalsLast(p) && Sendable(p, b) && b.requests == [request] && |request| == 40
    ensures Merged(b) != b && Sendable(p, Merged(b)) && Merged(b).digest == b.digest
    ensures |Merged(b).payload| == |b.payload| + WITHDRAWAL_LENGTH && Merged(b).requests == []
  {
    assert Concat(b.requests) == request + Concat(b.requests[1..]);
    assert |ListBytes(b.requests)| == WITHDRAWAL_LENGTH;
    assert p.payloadOk(b.payload + ListBytes(b.requests));
    PreimageDoesNotFixSplit(p, b);
  }

  /**
   * And that split is all that is open: among blocks whose offsets fit, one preimage and one digest
   * mean one block exactly when the payloads have one length.
   */
  lemma PreimageAndLengthFixBlock(a: Block, b: Block)
    requires a.Fits() && b.Fits() && a.Preimage() == b.Preimage() && a.digest == b.digest
    ensures a == b <==> |a.payload| == |b.payload|
  {
    PreimageFixes(a, b);
    if |a.payload| == |b.payload| {
      var x, y := a.payload + ListBytes(a.requests), b.payload + ListBytes(b.requests);
      assert a.payload == x[..|a.payload|] && b.payload == y[..|a.payload|];
      assert ListBytes(a.requests) == x[|a.payload|..] && ListBytes(b.requests) == y[|a.payload|..];
      ListExact(ListBytes(a.requests), a.requests);
      ListExact(ListBytes(b.requests), b.requests);
    }
  }

  /** No two of these byte strings hash alike. */
  ghost predicate NoCollision(p: Primitives, strings: set<seq<Byte>>) {
    forall x, y :: x in strings && y in strings && p.sha(x) == p.sha(y) ==> x == y
  }

  /** Without collisions among the preimages, sealed blocks with one digest are twins. */
  lemma SameDigestTwins(p: Primitives, strings: set<seq<Byte>>, a: Block, b: Block)
    requires NoCollision(p, strings) && a.Preimage() in strings && b.Preimage() in strings
    requires Sealed(p, a) && Sealed(p, b) && a.digest == b.digest
    ensures a.Preimage() == b.Preimage() && Twins(a, b)
  {
    PreimageFixesEthHashes(a, b);
  }

  /** So, without collisions, blocks that cross the wire with one digest are equal exactly then. */
  lemma SameDigestSameBlock(p: Primitives, strings: set<seq<Byte>>, a: Block, b: Block)
    requires NoCollision(p, strings) && a.Preimage() in strings && b.Preimage() in strings
    requires Sendable(p, a) && Sendable(p, b) && a.digest == b.digest
    ensures a == b <==> |a.payload| == |b.payload|
  {
    SmallBlockFits(a);
    SmallBlockFits(b);
    PreimageAndLengthFixBlock(a, b);
  }
}
