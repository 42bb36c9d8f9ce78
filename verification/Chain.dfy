/** The link between a block and its parent (application/src/actor.rs), and chains of such links. */
module Chain {
  import opened Bytes
  import opened Blocks

  /** `handle_verify`; the height is computed in wrapping u64 arithmetic. */
  predicate HandleVerify(block: Block, parent: Block) {
    && block.EthParentHash() == parent.EthBlockHash()
    && block.parent == parent.digest
    && block.height == WrapU64(parent.height + 1)
    && block.timestamp > parent.timestamp
  }

  /** A chain that starts at genesis and in which every block was accepted against its parent. */
  ghost predicate Ancestry(genesis: Block, path: seq<Block>) {
    && path != [] && path[0] == genesis
    && forall i :: 0 < i < |path| ==> HandleVerify(path[i], path[i - 1])
  }

  /** Along a chain every block is later than every block below it. */
  lemma {:induction false} TimesGrow(genesis: Block, path: seq<Block>, i: nat, j: nat)
    requires Ancestry(genesis, path) && i < j < |path|
    ensures path[i].timestamp < path[j].timestamp
  {
    assert HandleVerify(path[j], path[j - 1]);
    if i < j - 1 { TimesGrow(genesis, path, i, j - 1); }
  }

  /**
   * If any two finalized blocks lie on one ancestor chain, that is, their ancestries extend one
   * another, then a single chain carries them all.
   */
  lemma {:induction false} OneChainCarriesAll(genesis: Block, paths: set<seq<Block>>) returns (chain: seq<Block>)
    requires genesis.height == 0
    requires forall a :: a in paths ==> Ancestry(genesis, a)
    requires forall a, b :: a in paths && b in paths ==> a <= b || b <= a
    ensures Ancestry(genesis, chain) && forall a :: a in paths ==> a <= chain
    ensures paths != {} ==> chain in paths
    decreases |paths|
  {
    if paths == {} {
      chain := [genesis];
    } else {
      var a :| a in paths;
      var rest := OneChainCarriesAll(genesis, paths - {a});
      if paths - {a} == {} {
        chain := a;
        assert paths == {a};
      } else {
        assert rest in paths && (rest <= a || a <= rest);
        chain := if rest <= a then a else rest;
        forall x | x in paths ensures x <= chain {
          assert x != a ==> x in paths - {a};
          if x != a { PrefixTrans(x, rest, chain); }
        }
      }
    }
  }

  lemma PrefixTrans(x: seq<Block>, y: seq<Block>, z: seq<Block>)
    requires x <= y && y <= z
    ensures x <= z
  {
  }

  /** Two chains end in blocks with one digest. */
  ghost predicate SameTip(a: seq<Block>, b: seq<Block>) {
    a != [] && b != [] && a[|a| - 1].digest == b[|b| - 1].digest
  }

  /** Every block after genesis is sealed, is not mistaken for genesis, and has its preimage among `strings`. */
  ghost predicate SealedAfterGenesis(p: Primitives, genesis: Block, strings: set<seq<Byte>>, path: seq<Block>) {
    forall i :: 0 < i < |path| ==>
      Sealed(p, path[i]) && path[i].digest != genesis.digest && path[i].Preimage() in strings
  }

  /**
   * The digest of the tip fixes the chain: two accepted chains from genesis with one tip digest have
   * one length and, at every height, the same hashed bytes, links, clock and execution hashes.
   */
  lemma {:induction false} DigestFixesChain(p: Primitives, genesis: Block, strings: set<seq<Byte>>,
                                            a: seq<Block>, b: seq<Block>)
    requires NoCollision(p, strings)
    requires Ancestry(genesis, a) && SealedAfterGenesis(p, genesis, strings, a)
    requires Ancestry(genesis, b) && SealedAfterGenesis(p, genesis, strings, b)
    requires SameTip(a, b)
    ensures |a| == |b|
    ensures forall i :: 0 <= i < |a| ==> a[i].Preimage() == b[i].Preimage() && Twins(a[i], b[i])
    decreases |a|
  {
    if |a| > 1 && |b| > 1 {
      SameDigestTwins(p, strings, a[|a| - 1], b[|b| - 1]);
      Shorter(p, genesis, strings, a);
      Shorter(p, genesis, strings, b);
      var c, d := a[..|a| - 1], b[..|b| - 1];
      assert SameTip(c, d) by {
        assert HandleVerify(a[|a| - 1], a[|a| - 2]) && HandleVerify(b[|b| - 1], b[|b| - 2]);
      }
      DigestFixesChain(p, genesis, strings, c, d);
      forall i | 0 <= i < |a| ensures a[i].Preimage() == b[i].Preimage() && Twins(a[i], b[i]) {
        if i < |c| { assert a[i] == c[i] && b[i] == d[i]; }
      }
    }
  }

  lemma Shorter(p: Primitives, genesis: Block, strings: set<seq<Byte>>, path: seq<Block>)
    requires |path| > 1 && Ancestry(genesis, path) && SealedAfterGenesis(p, genesis, strings, path)
    ensures Ancestry(genesis, path[..|path| - 1]) && SealedAfterGenesis(p, genesis, strings, path[..|path| - 1])
  {
  }

  // ----- the world a node runs in

  /**
   * What happens outside one node during a run: the finalized chain from genesis on, every block the
   * node meets, and every finalization certificate that was formed.
   */
  datatype World = World(genesis: Block, chain: seq<Block>, known: set<Block>, finals: set<Certificate>)

  /** `d` is the digest of a finalized block after genesis, or of an ancestor of one. */
  ghost predicate Finalizes(w: World, d: Bytes32) {
    exists h :: 0 < h < |w.chain| && w.chain[h].digest == d
  }

  /** The hypotheses on a run. */
  ghost predicate Sound(p: Primitives, w: World) {
    && Ancestry(w.genesis, w.chain) && w.genesis.height == 0
    && |w.chain| <= U64_LIMIT
    && (forall h :: 0 < h < |w.chain| ==> w.chain[h] in w.known)
    && (forall b {:trigger Sendable(p, b)} :: b in w.known ==> Sendable(p, b))
    && (forall b :: b in w.known ==> b.digest != w.genesis.digest)
    && (forall a, b {:trigger a.Preimage(), b.Preimage()} ::
          a in w.known && b in w.known && a.digest == b.digest ==> a.Preimage() == b.Preimage())
    && (forall f :: f in w.finals ==> p.finalizationValid(f) && Finalizes(w, f.payload))
  }

  /** The clause on equal digests needs no more than that SHA-256 has no collision on the hashed bytes of the run. */
  lemma CollisionFreeSuffices(p: Primitives, known: set<Block>)
    requires forall b :: b in known ==> Sealed(p, b)
    requires NoCollision(p, set b | b in known :: b.Preimage())
    ensures forall a, b {:trigger a.Preimage(), b.Preimage()} ::
              a in known && b in known && a.digest == b.digest ==> a.Preimage() == b.Preimage()
  {
    forall a, b | a in known && b in known && a.digest == b.digest ensures a.Preimage() == b.Preimage() {
      SameDigestTwins(p, set c | c in known :: c.Preimage(), a, b);
    }
  }

  /** With one digest, two blocks of a run are twins; one on the chain gives the other its height. */
  lemma KnownTwins(p: Primitives, w: World, a: Block, b: Block)
    requires Sound(p, w) && a in w.known && b in w.known && a.digest == b.digest
    ensures Twins(a, b) && a.Preimage() == b.Preimage()
  {
    assert a.Preimage() == b.Preimage();
    PreimageFixesEthHashes(a, b);
  }

  lemma {:induction false} HeightOnChain(p: Primitives, w: World, h: nat)
    requires Sound(p, w) && h < |w.chain|
    ensures w.chain[h].height == h
  {
    if h > 0 {
      HeightOnChain(p, w, h - 1);
      assert HandleVerify(w.chain[h], w.chain[h - 1]);
    }
  }

  /** A block of the run with the digest of a chain block stands at that block's height. */
  lemma PlaceOnChain(p: Primitives, w: World, b: Block, h: nat)
    requires Sound(p, w) && b in w.known && 0 < h < |w.chain| && b.digest == w.chain[h].digest
    ensures b.height == h && Twins(b, w.chain[h])
    ensures b.parent == w.chain[h - 1].digest
  {
    KnownTwins(p, w, b, w.chain[h]);
    HeightOnChain(p, w, h);
    assert HandleVerify(w.chain[h], w.chain[h - 1]);
  }

  lemma ChainDigestsDiffer(p: Primitives, w: World, i: nat, j: nat)
    requires Sound(p, w) && i < |w.chain| && j < |w.chain| && w.chain[i].digest == w.chain[j].digest
    ensures i == j
  {
    HeightOnChain(p, w, i);
    HeightOnChain(p, w, j);
    if i > 0 && j > 0 { KnownTwins(p, w, w.chain[i], w.chain[j]); }
  }
}
