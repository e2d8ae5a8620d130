/** Merkle membership witnesses: the authentication path of one leaf, and the root it
    recomputes from a leaf digest. The hash is a parameter of every member. */
module Merkle {

  import opened Primitives

  /** One level of an authentication path: the digest of the sibling subtree, and
      whether the node being climbed from is the left child. */
  datatype PathStep = PathStep(isLeft: bool, sibling: Field)

  /** An authentication path, listed from the leaf level upwards. */
  datatype Witness = Witness(path: seq<PathStep>)

  /** A tree of `height` levels has `height - 1` levels above its leaves. */
  predicate HasHeight(w: Witness, height: nat)
  {
    |w.path| + 1 == height
  }

  const WITNESS8_HEIGHT: nat := 8

  /** The witness of a tree of height 8 (128 leaves), the one batch updates carry. */
  type Witness8 = w: Witness | HasHeight(w, WITNESS8_HEIGHT)
    witness Witness(seq(7, _ => PathStep(true, 0)))

  /** The parent of `node`, ordering the two children by `isLeft`. */
  function HashStep(h: seq<Field> -> Field, step: PathStep, node: Field): Field
  {
    if step.isLeft then h([node, step.sibling]) else h([step.sibling, node])
  }

  /** The digest reached by climbing `path` from `leaf`. */
  function RootOf(h: seq<Field> -> Field, path: seq<PathStep>, leaf: Field): Field
    decreases |path|
  {
    if |path| == 0 then leaf
    else HashStep(h, path[|path| - 1], RootOf(h, path[..|path| - 1], leaf))
  }

  /** The root a witness recomputes from a leaf digest. */
  function CalculateRoot(h: seq<Field> -> Field, w: Witness, leaf: Field): Field
  {
    RootOf(h, w.path, leaf)
  }

  /** The root recomputation as the loop that climbs the path one level at a time. */
  method ComputeRoot(h: seq<Field> -> Field, w: Witness, leaf: Field) returns (root: Field)
    ensures root == CalculateRoot(h, w, leaf)
  {
    root := leaf;
    var n := |w.path| + 1;
    for i := 1 to n
      invariant root == RootOf(h, w.path[..i - 1], leaf)
    {
      assert w.path[..i][..i - 1] == w.path[..i - 1];
      root := HashStep(h, w.path[i - 1], root);
    }
    assert w.path[..n - 1] == w.path;
  }

  /** A witness binds its root to one leaf digest: two digests that climb the same path
      to the same root are equal, unless the climb exhibits a hash collision. */
  lemma {:induction false} RootBinding(h: seq<Field> -> Field, path: seq<PathStep>, a: Field, b: Field)
    returns (x: seq<Field>, y: seq<Field>)
    requires RootOf(h, path, a) == RootOf(h, path, b)
    ensures a == b || IsCollision(h, x, y)
    decreases |path|
  {
    if |path| == 0 {
      x, y := [], [];
    } else {
      var prefix := path[..|path| - 1];
      var step := path[|path| - 1];
      var ra := RootOf(h, prefix, a);
      var rb := RootOf(h, prefix, b);
      if ra == rb {
        x, y := RootBinding(h, prefix, a, b);
      } else if step.isLeft {
        x, y := [ra, step.sibling], [rb, step.sibling];
        assert x[0] != y[0];
      } else {
        x, y := [step.sibling, ra], [step.sibling, rb];
        assert x[1] != y[1];
      }
    }
  }

  /** The witness form of `RootBinding`. */
  lemma WitnessBinding(h: seq<Field> -> Field, w: Witness, a: Field, b: Field)
    returns (x: seq<Field>, y: seq<Field>)
    requires CalculateRoot(h, w, a) == CalculateRoot(h, w, b)
    ensures a == b || IsCollision(h, x, y)
  {
    x, y := RootBinding(h, w.path, a, b);
  }

  /** The digest of the empty subtree `level` levels high: leaves are the empty
      sentinel `0`, and every inner node hashes two empty children. */
  function EmptySubtree(h: seq<Field> -> Field, level: nat): Field
  {
    if level == 0 then 0
    else
      var below := EmptySubtree(h, level - 1);
      h([below, below])
  }

  /** The root of a freshly created tree of `height` levels. */
  function EmptyRoot(h: seq<Field> -> Field, height: nat): Field
    requires height >= 1
  {
    EmptySubtree(h, height - 1)
  }

  /** In the empty tree every sibling is an empty subtree, so any leaf position's
      witness recomputes the empty root from the empty sentinel. */
  lemma {:induction false} EmptyPathReachesEmptyRoot(h: seq<Field> -> Field, path: seq<PathStep>)
    requires forall j :: 0 <= j < |path| ==> path[j].sibling == EmptySubtree(h, j)
    ensures RootOf(h, path, 0) == EmptySubtree(h, |path|)
    decreases |path|
  {
    if |path| > 0 {
      var prefix := path[..|path| - 1];
      assert forall j :: 0 <= j < |prefix| ==> prefix[j] == path[j];
      EmptyPathReachesEmptyRoot(h, prefix);
    }
  }

  /** The witness form of `EmptyPathReachesEmptyRoot`, for a tree of `height` levels. */
  lemma EmptyWitnessReachesEmptyRoot(h: seq<Field> -> Field, w: Witness, height: nat)
    requires HasHeight(w, height)
    requires forall j :: 0 <= j < |w.path| ==> w.path[j].sibling == EmptySubtree(h, j)
    ensures CalculateRoot(h, w, 0) == EmptyRoot(h, height)
  {
    EmptyPathReachesEmptyRoot(h, w.path);
  }

}
