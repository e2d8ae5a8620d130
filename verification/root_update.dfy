/** The batch root updater: checks an ordered list of leaf updates against the current
    root of the off-chain store, one membership witness per update, and returns the new
    root once the server's signature over it and its sequence number are accepted. */
module RootUpdate {

  import opened Wrappers
  import opened Primitives
  import opened Merkle

  /** The digest that stands for an empty leaf. */
  const EMPTY_LEAF: Field := 0

  /** One slot mutation: the leaf's content before and after (or "empty"), and the
      witness of the slot's position, which both contents share. */
  datatype Update = Update(
    leaf: seq<Field>,
    leafIsEmpty: bool,
    newLeaf: seq<Field>,
    newLeafIsEmpty: bool,
    leafWitness: Witness8)

  /** The digest a leaf contributes to the tree. */
  function LeafDigest(h: seq<Field> -> Field, isEmpty: bool, leaf: seq<Field>): Field
  {
    if isEmpty then EMPTY_LEAF else h(leaf)
  }

  function OldDigest(h: seq<Field> -> Field, u: Update): Field
  {
    LeafDigest(h, u.leafIsEmpty, u.leaf)
  }

  function NewDigest(h: seq<Field> -> Field, u: Update): Field
  {
    LeafDigest(h, u.newLeafIsEmpty, u.newLeaf)
  }

  /** The update starts from `current`: its witness recomputes `current` from the old leaf. */
  predicate Accepts(h: seq<Field> -> Field, u: Update, current: Field)
  {
    CalculateRoot(h, u.leafWitness, OldDigest(h, u)) == current
  }

  /** The root after the update: the same witness applied to the new leaf. */
  function Advance(h: seq<Field> -> Field, u: Update): Field
  {
    CalculateRoot(h, u.leafWitness, NewDigest(h, u))
  }

  /** The loop of the updater as a left-to-right fold; `None` is a failed assertion,
      which aborts the whole batch. */
  function ApplyUpdates(h: seq<Field> -> Field, root: Field, updates: seq<Update>): (r: Option<Field>)
    ensures r.Some? && |updates| == 0 ==> r.value == root
    ensures r.Some? && |updates| > 0 ==> r.value == Advance(h, updates[|updates| - 1])
    decreases |updates|
  {
    if |updates| == 0 then Some(root)
    else if !Accepts(h, updates[0], root) then None
    else ApplyUpdates(h, Advance(h, updates[0]), updates[1..])
  }

  /** The running root the update at index `i` must start from: the starting root,
      or the root the previous update moved to. */
  function Running(h: seq<Field> -> Field, root: Field, updates: seq<Update>, i: nat): Field
    requires i <= |updates|
  {
    if i == 0 then root else Advance(h, updates[i - 1])
  }

  /** Every update of the batch starts from the root its predecessor left. */
  ghost predicate AllAccepted(h: seq<Field> -> Field, root: Field, updates: seq<Update>)
  {
    forall i :: 0 <= i < |updates| ==> Accepts(h, updates[i], Running(h, root, updates, i))
  }

  /** The fold succeeds exactly when every update starts from the running root, and then
      yields the root the last update moved to. */
  lemma {:induction false} ApplyUpdatesCharacterised(h: seq<Field> -> Field, root: Field, updates: seq<Update>)
    ensures ApplyUpdates(h, root, updates)
         == if AllAccepted(h, root, updates) then Some(Running(h, root, updates, |updates|)) else None
    decreases |updates|
  {
    if |updates| > 0 {
      var u, rest := updates[0], updates[1..];
      var next := Advance(h, u);
      ApplyUpdatesCharacterised(h, next, rest);
      assert forall i :: 0 <= i <= |rest| ==> Running(h, next, rest, i) == Running(h, root, updates, i + 1);
      if Accepts(h, u, root) {
        if AllAccepted(h, next, rest) {
          forall i | 0 <= i < |updates|
            ensures Accepts(h, updates[i], Running(h, root, updates, i))
          {
            if i > 0 {
              assert updates[i] == rest[i - 1];
            }
          }
        } else {
          var j :| 0 <= j < |rest| && !Accepts(h, rest[j], Running(h, next, rest, j));
          assert updates[j + 1] == rest[j];
        }
      } else {
        assert !Accepts(h, updates[0], Running(h, root, updates, 0));
      }
    }
  }

  /** The updater: folds the batch over `root`, then checks the server's signature over
      the resulting root and the new root number, and that the number increased. */
  function AssertRootUpdateValid(
    c: Crypto,
    serverPublicKey: PublicKey,
    rootNumber: Field,
    root: Field,
    updates: seq<Update>,
    storedNewRootNumber: Field,
    storedNewRootSignature: Signature): (r: Option<Field>)
    ensures r.Some? ==> c.verify(storedNewRootSignature, serverPublicKey, [r.value, storedNewRootNumber])
    ensures r.Some? ==> rootNumber < storedNewRootNumber
    ensures r.Some? ==> ApplyUpdates(c.hash, root, updates) == r
  {
    match ApplyUpdates(c.hash, root, updates)
    case None => None
    case Some(storedNewRoot) =>
      if c.verify(storedNewRootSignature, serverPublicKey, [storedNewRoot, storedNewRootNumber])
         && rootNumber < storedNewRootNumber
      then Some(storedNewRoot)
      else None
  }

  /** The whole contract of the updater: it accepts exactly when every update starts
      from the running root, the signature covers the final running root and the new
      number, and the number strictly increases; it then returns that final root. */
  lemma RootUpdateAccepted(
    c: Crypto, pk: PublicKey, rootNumber: Field, root: Field, updates: seq<Update>,
    newNumber: Field, sig: Signature)
    ensures var r := AssertRootUpdateValid(c, pk, rootNumber, root, updates, newNumber, sig);
            var final := Running(c.hash, root, updates, |updates|);
            && (r.Some? <==> AllAccepted(c.hash, root, updates)
                             && c.verify(sig, pk, [final, newNumber])
                             && rootNumber < newNumber)
            && (r.Some? ==> r.value == final)
  {
    ApplyUpdatesCharacterised(c.hash, root, updates);
  }

  /** An empty batch re-stamps the unchanged root: it is accepted exactly when the
      signature covers the old root with the new number and the number increases. */
  lemma EmptyBatch(
    c: Crypto, pk: PublicKey, rootNumber: Field, root: Field, newNumber: Field, sig: Signature)
    ensures AssertRootUpdateValid(c, pk, rootNumber, root, [], newNumber, sig)
         == if c.verify(sig, pk, [root, newNumber]) && rootNumber < newNumber then Some(root) else None
  {
  }

  /** Atomic rejection: one update that does not start from its running root rejects
      the whole batch, whatever the others and the signature are. */
  lemma AtomicRejection(
    c: Crypto, pk: PublicKey, rootNumber: Field, root: Field, updates: seq<Update>,
    newNumber: Field, sig: Signature, i: nat)
    requires i < |updates|
    requires !Accepts(c.hash, updates[i], Running(c.hash, root, updates, i))
    ensures AssertRootUpdateValid(c, pk, rootNumber, root, updates, newNumber, sig) == None
  {
    RootUpdateAccepted(c, pk, rootNumber, root, updates, newNumber, sig);
  }

  /** A stale or replayed root number is rejected, whatever the batch. */
  lemma StaleNumberRejected(
    c: Crypto, pk: PublicKey, rootNumber: Field, root: Field, updates: seq<Update>,
    newNumber: Field, sig: Signature)
    requires newNumber <= rootNumber
    ensures AssertRootUpdateValid(c, pk, rootNumber, root, updates, newNumber, sig) == None
  {
  }

  /** Continue a fold from a possibly failed intermediate result. */
  function Then(h: seq<Field> -> Field, prior: Option<Field>, updates: seq<Update>): Option<Field>
  {
    match prior
    case None => None
    case Some(root) => ApplyUpdates(h, root, updates)
  }

  /** The fold is sequential: a batch applies as its first part followed by the rest,
      each update seeing the root the earlier ones produced. */
  lemma {:induction false} BatchesCompose(h: seq<Field> -> Field, root: Field, first: seq<Update>, second: seq<Update>)
    ensures ApplyUpdates(h, root, first + second) == Then(h, ApplyUpdates(h, root, first), second)
    decreases |first|
  {
    if |first| > 0 {
      assert (first + second)[0] == first[0];
      assert (first + second)[1..] == first[1..] + second;
      if Accepts(h, first[0], root) {
        BatchesCompose(h, Advance(h, first[0]), first[1..], second);
      }
    } else {
      assert first + second == second;
    }
  }

  /** Round trip: after an accepted batch, each update's witness recomputes from its new
      leaf the root the next update started from, and the last one recomputes the
      returned root. Any leaf digest the last witness maps to the returned root is the
      new leaf's digest, unless the hash has a collision. */
  lemma InsertedLeafRecovered(
    c: Crypto, pk: PublicKey, rootNumber: Field, root: Field, updates: seq<Update>,
    newNumber: Field, sig: Signature, digest: Field)
    returns (x: seq<Field>, y: seq<Field>)
    requires |updates| > 0
    requires AssertRootUpdateValid(c, pk, rootNumber, root, updates, newNumber, sig).Some?
    requires CalculateRoot(c.hash, updates[|updates| - 1].leafWitness, digest)
          == AssertRootUpdateValid(c, pk, rootNumber, root, updates, newNumber, sig).value
    ensures forall i :: 0 < i < |updates| ==>
              CalculateRoot(c.hash, updates[i - 1].leafWitness, NewDigest(c.hash, updates[i - 1]))
              == CalculateRoot(c.hash, updates[i].leafWitness, OldDigest(c.hash, updates[i]))
    ensures CalculateRoot(c.hash, updates[|updates| - 1].leafWitness, NewDigest(c.hash, updates[|updates| - 1]))
         == AssertRootUpdateValid(c, pk, rootNumber, root, updates, newNumber, sig).value
    ensures digest == NewDigest(c.hash, updates[|updates| - 1]) || IsCollision(c.hash, x, y)
  {
    RootUpdateAccepted(c, pk, rootNumber, root, updates, newNumber, sig);
    assert forall i :: 0 < i < |updates| ==> Accepts(c.hash, updates[i], Running(c.hash, root, updates, i));
    var last := updates[|updates| - 1];
    x, y := WitnessBinding(c.hash, last.leafWitness, digest, NewDigest(c.hash, last));
  }

  /** The updater as the loop the contract runs: it climbs each witness twice, rejects
      as soon as an update does not start from the running root, and performs the final
      checks after the loop. */
  method CheckRootUpdate(
    c: Crypto,
    serverPublicKey: PublicKey,
    rootNumber: Field,
    root: Field,
    updates: seq<Update>,
    storedNewRootNumber: Field,
    storedNewRootSignature: Signature)
    returns (ok: bool, storedNewRoot: Field)
    ensures ok <==> AllAccepted(c.hash, root, updates)
                    && c.verify(storedNewRootSignature, serverPublicKey,
                                [Running(c.hash, root, updates, |updates|), storedNewRootNumber])
                    && rootNumber < storedNewRootNumber
    ensures ok ==> storedNewRoot == Running(c.hash, root, updates, |updates|)
  {
    RootUpdateAccepted(c, serverPublicKey, rootNumber, root, updates, storedNewRootNumber, storedNewRootSignature);
    var currentRoot := root;
    var i := 0;
    while i < |updates|
      invariant i <= |updates|
      invariant ApplyUpdates(c.hash, root, updates) == ApplyUpdates(c.hash, currentRoot, updates[i..])
    {
      var u := updates[i];
      assert updates[i..][0] == u && updates[i..][1..] == updates[i + 1..];
      var leafHash := LeafDigest(c.hash, u.leafIsEmpty, u.leaf);
      var computed := ComputeRoot(c.hash, u.leafWitness, leafHash);
      if computed != currentRoot {
        return false, currentRoot;
      }
      var newLeafHash := LeafDigest(c.hash, u.newLeafIsEmpty, u.newLeaf);
      currentRoot := ComputeRoot(c.hash, u.leafWitness, newLeafHash);
      i := i + 1;
    }
    assert updates[i..] == [];
    storedNewRoot := currentRoot;
    ok := c.verify(storedNewRootSignature, serverPublicKey, [storedNewRoot, storedNewRootNumber])
          && rootNumber < storedNewRootNumber;
  }

}
