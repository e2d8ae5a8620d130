/** A lottery entry (or a week's winning draw) and its commitment digest. */
module Lotto {

  import opened Primitives

  /** Every entry picks exactly six numbers. */
  const NUMBERS_COUNT: nat := 6

  type Numbers = s: seq<Field> | |s| == NUMBERS_COUNT
    witness [0, 0, 0, 0, 0, 0]

  /** Six numbers played for (or drawn in) game week `gmWeek`. */
  datatype LottoNumbers = LottoNumbers(gmWeek: Field, value: Numbers)

  /** The commitment of an entry: the numbers are hashed first, and that digest is
      hashed together with the week, so the digest names the week it was made for. */
  function Commit(h: seq<Field> -> Field, n: LottoNumbers): Field
  {
    h([n.gmWeek, h(n.value)])
  }

  /** The commitment binds the entry: two different entries with the same digest give
      away a collision of the hash. */
  lemma CommitmentBinding(h: seq<Field> -> Field, a: LottoNumbers, b: LottoNumbers)
    returns (x: seq<Field>, y: seq<Field>)
    requires Commit(h, a) == Commit(h, b)
    ensures a == b || IsCollision(h, x, y)
  {
    x, y := [], [];
    if a != b {
      var outerA, outerB := [a.gmWeek, h(a.value)], [b.gmWeek, h(b.value)];
      if outerA != outerB {
        x, y := outerA, outerB;
      } else {
        assert a.gmWeek == outerA[0] == outerB[0] == b.gmWeek;
        assert h(a.value) == outerA[1] == outerB[1] == h(b.value);
        x, y := a.value, b.value;
      }
    }
  }

  /** The same six numbers committed for two different weeks give two different
      digests, unless the hash has a collision: a stored entry cannot be replayed in
      another week. */
  lemma WeekBinding(h: seq<Field> -> Field, numbers: Numbers, week1: Field, week2: Field)
    returns (x: seq<Field>, y: seq<Field>)
    requires week1 != week2
    ensures Commit(h, LottoNumbers(week1, numbers)) != Commit(h, LottoNumbers(week2, numbers))
            || IsCollision(h, x, y)
  {
    x, y := [], [];
    if Commit(h, LottoNumbers(week1, numbers)) == Commit(h, LottoNumbers(week2, numbers)) {
      x, y := CommitmentBinding(h, LottoNumbers(week1, numbers), LottoNumbers(week2, numbers));
    }
  }

}
