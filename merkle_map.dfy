/** The authenticated key-to-balance map (o1js `MerkleMap`) at the level the
    ledgers use it. A root commits to the whole map; here the root IS the map,
    kept canonical (a leaf holding 0 is absent, as an unwritten leaf reads 0),
    so two roots are equal exactly when every leaf agrees. A witness is the
    authentication path of one key: everything about the map except that key's
    own leaf. */
module MerkleMaps {
  import opened Fields

  /** An account's public key (o1js `PublicKey`: an x coordinate and a parity bit). */
  datatype PublicKey = PublicKey(x: Field, isOdd: bool)
  {
    /** `PublicKey.toFields()`. */
    function ToFields(): seq<Field> {
      [x, if isOdd then 1 else 0]
    }
  }

  /** `PublicKey.empty()`, the `from` of a deferred mint. */
  const EmptyPublicKey := PublicKey(0, false)

  /** A map key: the Poseidon digest of a list of field elements, represented by
      that list, so that distinct lists never collide. */
  datatype Key = Digest(preimage: seq<Field>)

  /** `Poseidon.hash(pk.toFields())`: the leaf an account owns. */
  function KeyOf(pk: PublicKey): Key {
    Digest(pk.ToFields())
  }

  /** Distinct accounts own distinct leaves. */
  lemma KeyOfInjective(a: PublicKey, b: PublicKey)
    requires KeyOf(a) == KeyOf(b)
    ensures a == b
  {
    assert a.ToFields()[0] == b.ToFields()[0] && a.ToFields()[1] == b.ToFields()[1];
  }

  /** A root: the map it commits to, without zero leaves. */
  type Root = m: map<Key, Field> | forall k :: k in m ==> m[k] != 0 witness map[]

  /** The root of the empty map (`new MerkleMap().getRoot()`). */
  const EmptyRoot: Root := map[]

  /** The value stored at leaf `k` (`MerkleMap.get`). */
  function Get(m: Root, k: Key): Field {
    if k in m then m[k] else 0
  }

  /** Every leaf of the empty map reads 0. */
  lemma EmptyRootIsZero(k: Key)
    ensures Get(EmptyRoot, k) == 0
  {
  }

  /** The root after writing `v` at leaf `k` (`MerkleMap.set`). */
  function Set(m: Root, k: Key, v: Field): (r: Root)
    ensures Get(r, k) == v
    ensures forall j :: j != k ==> Get(r, j) == Get(m, j)
  {
    if v == 0 then m - {k} else m[k := v]
  }

  /** A root is determined by its leaves: the collision resistance of the root. */
  lemma RootsEqual(m1: Root, m2: Root)
    requires forall k :: Get(m1, k) == Get(m2, k)
    ensures m1 == m2
  {
    forall k | k in m1
      ensures k in m2 && m2[k] == m1[k]
    {
      assert Get(m1, k) == Get(m2, k);
    }
    assert m1.Keys == m2.Keys by {
      forall k | k in m2 ensures k in m1 {
        assert Get(m1, k) == Get(m2, k);
      }
    }
  }

  /** A `MerkleMapWitness`: the path of leaf `key`, i.e. every other leaf. */
  datatype Witness = Witness(key: Key, siblings: Root)

  /** `witness.computeRootAndKeyV2(v)`: the root of the map in which leaf
      `w.key` holds `v` and every other leaf is as the path says. */
  function ComputeRoot(w: Witness, v: Field): (r: Root)
    ensures Get(r, w.key) == v
  {
    Set(w.siblings, w.key, v)
  }

  /** The path of `w` agrees with `root` on every leaf but its own. */
  ghost predicate Authenticates(w: Witness, root: Root) {
    forall j :: j != w.key ==> Get(w.siblings, j) == Get(root, j)
  }

  /** A witness recomputes `root` from `v` exactly when its path belongs to
      `root` and `root` holds `v` at the witness's key. */
  lemma ComputeRootMatches(w: Witness, v: Field, root: Root)
    ensures ComputeRoot(w, v) == root <==> Authenticates(w, root) && Get(root, w.key) == v
  {
    if Authenticates(w, root) && Get(root, w.key) == v {
      RootsEqual(ComputeRoot(w, v), root);
    }
  }

  /** Two witnesses for the same key that recompute the same root claim the
      same value: a root pins down every leaf. */
  lemma ClaimedValueUnique(w1: Witness, v1: Field, w2: Witness, v2: Field)
    requires w1.key == w2.key
    requires ComputeRoot(w1, v1) == ComputeRoot(w2, v2)
    ensures v1 == v2
  {
  }

  /** A witness that verifies `v` against `root` computes, for a new value, the
      root with only that leaf rewritten. */
  lemma RewriteLeaf(w: Witness, v: Field, root: Root, v2: Field)
    requires ComputeRoot(w, v) == root
    ensures ComputeRoot(w, v2) == Set(root, w.key, v2)
  {
    RootsEqual(ComputeRoot(w, v2), Set(root, w.key, v2));
  }

  /** Write then read back with a fresh witness: the leaf holds the written value. */
  lemma WriteThenRead(w: Witness, v: Field, root: Root, v2: Field)
    requires ComputeRoot(w, v) == root
    ensures ComputeRoot(Witness(w.key, ComputeRoot(w, v2)), v2) == ComputeRoot(w, v2)
    ensures Get(ComputeRoot(w, v2), w.key) == v2
  {
    var r2 := ComputeRoot(w, v2);
    ComputeRootMatches(Witness(w.key, r2), v2, r2);
  }
}
