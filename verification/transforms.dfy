/** The Mini-AES state and its four round transforms with their inverses. */
module Transforms {
  import opened GaloisField

  /** A 16-bit block as four nibbles, the 2x2 grid [[n0, n1], [n2, n3]] in row-major order.
      Keys and round keys have the same shape. */
  type State = s: seq<Nibble> | |s| == 4 witness [0, 0, 0, 0]

  /** Two states are equal when their four nibbles are. */
  lemma StatesEqual(a: State, b: State)
    requires a[0] == b[0] && a[1] == b[1] && a[2] == b[2] && a[3] == b[3]
    ensures a == b
  {
  }

  /** The substitution table of SubNibbles. */
  const SBox: seq<Nibble> := [
    0x9, 0x4, 0xA, 0xB,
    0xD, 0x1, 0x8, 0x5,
    0x6, 0x2, 0x0, 0x3,
    0xC, 0xE, 0xF, 0x7
  ]

  /** The substitution table of the inverse SubNibbles. */
  const InvSBox: seq<Nibble> := [
    0xA, 0x5, 0x9, 0xB,
    0x1, 0x7, 0x8, 0xF,
    0x6, 0x0, 0x2, 0x3,
    0xC, 0x4, 0xD, 0xE
  ]

  /** The two tables undo each other, so both are permutations of 0..15.
      Proved by cases over the 16 nibbles. */
  lemma SBoxInverse(n: Nibble)
    ensures InvSBox[SBox[n]] == n && SBox[InvSBox[n]] == n
  {
    if n == 0 {} else if n == 1 {} else if n == 2 {} else if n == 3 {}
    else if n == 4 {} else if n == 5 {} else if n == 6 {} else if n == 7 {}
    else if n == 8 {} else if n == 9 {} else if n == 10 {} else if n == 11 {}
    else if n == 12 {} else if n == 13 {} else if n == 14 {} else {}
  }

  function SubNibbles(s: State): State
  {
    seq(4, i requires 0 <= i < 4 => SBox[s[i]])
  }

  function InvSubNibbles(s: State): State
  {
    seq(4, i requires 0 <= i < 4 => InvSBox[s[i]])
  }

  lemma SubNibblesInverse(s: State)
    ensures InvSubNibbles(SubNibbles(s)) == s
    ensures SubNibbles(InvSubNibbles(s)) == s
  {
    forall i | 0 <= i < 4
      ensures InvSubNibbles(SubNibbles(s))[i] == s[i] && SubNibbles(InvSubNibbles(s))[i] == s[i]
    {
      SBoxInverse(s[i]);
    }
  }

  /** The bottom row of the grid swaps its two columns. */
  function ShiftRows(s: State): State
  {
    [s[0], s[1], s[3], s[2]]
  }

  /** The inverse of ShiftRows; on a 2x2 grid it is the same swap. */
  function InvShiftRows(s: State): State
  {
    [s[0], s[1], s[3], s[2]]
  }

  lemma ShiftRowsInverse(s: State)
    ensures ShiftRows(ShiftRows(s)) == s
    ensures InvShiftRows(ShiftRows(s)) == s && ShiftRows(InvShiftRows(s)) == s
    ensures InvShiftRows(s) == ShiftRows(s)
    ensures ShiftRows(s)[..2] == s[..2]
  {
  }

  /** Nibble-wise XOR of two states: AddRoundKey, and also the XOR used by the key
      schedule and by CBC chaining. */
  function Xor(a: State, b: State): State
  {
    seq(4, i requires 0 <= i < 4 => a[i] ^ b[i])
  }

  lemma XorInverse(s: State, k: State)
    ensures Xor(Xor(s, k), k) == s
  {
  }

  /** The all-zero state, e.g. the IV 0000. */
  const ZeroState: State := [0, 0, 0, 0]

  /** XOR with the zero state changes nothing. */
  lemma XorZero(s: State)
    ensures Xor(s, ZeroState) == s
  {
    StatesEqual(Xor(s, ZeroState), s);
  }

  /** A 2x2 matrix of field elements, row-major. */
  type Matrix = m: seq<seq<Nibble>> | |m| == 2 && |m[0]| == 2 && |m[1]| == 2 witness [[0, 0], [0, 0]]

  const MixColMatrix: Matrix := [[0x1, 0x4], [0x4, 0x1]]

  const InvMixColMatrix: Matrix := [[0x9, 0x2], [0x2, 0x9]]

  /** The state as the 2x2 grid [[n0, n1], [n2, n3]]. */
  function Grid(s: State): seq<seq<Nibble>>
  {
    [[s[0], s[1]], [s[2], s[3]]]
  }

  /** Entry (i, j) of the product m * Grid(s) after the first k terms:
      the XOR of m[i][k'] * Grid(s)[k'][j] for k' < k. */
  function ProductEntry(m: Matrix, s: State, i: nat, j: nat, k: nat): Nibble
    requires i < 2 && j < 2 && k <= 2
  {
    if k == 0 then 0 else ProductEntry(m, s, i, j, k - 1) ^ GfMul(m[i][k - 1], Grid(s)[k - 1][j])
  }

  /** Row (a, b) of a matrix times column (x, y) of the grid. */
  function Dot(a: Nibble, b: Nibble, x: Nibble, y: Nibble): Nibble
  {
    GfMul(a, x) ^ GfMul(b, y)
  }

  /** A dot product with both field products written out as sums. */
  lemma DotIsSum(a: Nibble, b: Nibble, x: Nibble, y: Nibble)
    ensures Dot(a, b, x, y) == GfMulSum(a, x) ^ GfMulSum(b, y)
  {
    GfMulIsSum(a, x);
    GfMulIsSum(b, y);
  }

  /** The matrix product m * Grid(s) in GF(2^4), flattened row-major. */
  function MatrixProduct(m: Matrix, s: State): State
  {
    [Dot(m[0][0], m[0][1], s[0], s[2]), Dot(m[0][0], m[0][1], s[1], s[3]),
     Dot(m[1][0], m[1][1], s[0], s[2]), Dot(m[1][0], m[1][1], s[1], s[3])]
  }

  /** The accumulated entry after both terms is the dot product of row i and column j. */
  lemma ProductEntryIsDot(m: Matrix, s: State, i: nat, j: nat)
    requires i < 2 && j < 2
    ensures ProductEntry(m, s, i, j, 2) == Dot(m[i][0], m[i][1], s[j], s[j + 2])
  {
    assert ProductEntry(m, s, i, j, 1) == GfMul(m[i][0], s[j]);
  }

  function MixColumns(s: State): State
  {
    MatrixProduct(MixColMatrix, s)
  }

  function InvMixColumns(s: State): State
  {
    MatrixProduct(InvMixColMatrix, s)
  }

  /** The triple loop that XOR-accumulates the product into a 2x2 result grid. */
  method MultiplyMatrix(m: Matrix, s: State) returns (r: State)
    ensures r == MatrixProduct(m, s)
  {
    var grid := Grid(s);
    var result := new Nibble[2, 2]((_, _) => 0);
    for i := 0 to 2
      invariant forall i', j' :: 0 <= i' < 2 && 0 <= j' < 2 ==>
        result[i', j'] == if i' < i then ProductEntry(m, s, i', j', 2) else 0
    {
      for j := 0 to 2
        invariant forall i', j' :: 0 <= i' < 2 && 0 <= j' < 2 ==>
          result[i', j'] == if i' < i || (i' == i && j' < j) then ProductEntry(m, s, i', j', 2) else 0
      {
        for k := 0 to 2
          invariant forall i', j' :: 0 <= i' < 2 && 0 <= j' < 2 ==>
            result[i', j'] ==
              if i' < i || (i' == i && j' < j) then ProductEntry(m, s, i', j', 2)
              else if i' == i && j' == j then ProductEntry(m, s, i, j, k)
              else 0
        {
          var product, _ := GfMultiply(m[i][k], grid[k][j]);
          result[i, j] := result[i, j] ^ product;
        }
      }
    }
    r := [result[0, 0], result[0, 1], result[1, 0], result[1, 1]];
    ProductEntryIsDot(m, s, 0, 0);
    ProductEntryIsDot(m, s, 0, 1);
    ProductEntryIsDot(m, s, 1, 0);
    ProductEntryIsDot(m, s, 1, 1);
  }

  /** Column (x, y) through [[1, 4], [4, 1]] and back through [[9, 2], [2, 9]], with every
      product written out as a sum. The solver settles this over the bits of x and y. */
  lemma MixThenInvMixSums(x: Nibble, y: Nibble)
    ensures GfMulSum(9, GfMulSum(1, x) ^ GfMulSum(4, y)) ^ GfMulSum(2, GfMulSum(4, x) ^ GfMulSum(1, y)) == x
    ensures GfMulSum(2, GfMulSum(1, x) ^ GfMulSum(4, y)) ^ GfMulSum(9, GfMulSum(4, x) ^ GfMulSum(1, y)) == y
  {
  }

  /** Column (x, y) through [[9, 2], [2, 9]] and back through [[1, 4], [4, 1]], with every
      product written out as a sum. */
  lemma InvMixThenMixSums(x: Nibble, y: Nibble)
    ensures GfMulSum(1, GfMulSum(9, x) ^ GfMulSum(2, y)) ^ GfMulSum(4, GfMulSum(2, x) ^ GfMulSum(9, y)) == x
    ensures GfMulSum(4, GfMulSum(9, x) ^ GfMulSum(2, y)) ^ GfMulSum(1, GfMulSum(2, x) ^ GfMulSum(9, y)) == y
  {
  }

  /** One column (x, y) through [[1, 4], [4, 1]] and back through [[9, 2], [2, 9]]
      gives back (x, y). */
  lemma MixThenInvMixColumn(x: Nibble, y: Nibble)
    ensures Dot(9, 2, Dot(1, 4, x, y), Dot(4, 1, x, y)) == x
    ensures Dot(2, 9, Dot(1, 4, x, y), Dot(4, 1, x, y)) == y
  {
    var u, v := Dot(1, 4, x, y), Dot(4, 1, x, y);
    DotIsSum(1, 4, x, y);
    DotIsSum(4, 1, x, y);
    DotIsSum(9, 2, u, v);
    DotIsSum(2, 9, u, v);
    MixThenInvMixSums(x, y);
  }

  /** One column through [[9, 2], [2, 9]] and back through [[1, 4], [4, 1]] gives back (x, y). */
  lemma InvMixThenMixColumn(x: Nibble, y: Nibble)
    ensures Dot(1, 4, Dot(9, 2, x, y), Dot(2, 9, x, y)) == x
    ensures Dot(4, 1, Dot(9, 2, x, y), Dot(2, 9, x, y)) == y
  {
    var u, v := Dot(9, 2, x, y), Dot(2, 9, x, y);
    DotIsSum(9, 2, x, y);
    DotIsSum(2, 9, x, y);
    DotIsSum(1, 4, u, v);
    DotIsSum(4, 1, u, v);
    InvMixThenMixSums(x, y);
  }

  lemma MixColumnsByRows(s: State)
    ensures MixColumns(s) ==
      [Dot(1, 4, s[0], s[2]), Dot(1, 4, s[1], s[3]), Dot(4, 1, s[0], s[2]), Dot(4, 1, s[1], s[3])]
  {
  }

  lemma InvMixColumnsByRows(s: State)
    ensures InvMixColumns(s) ==
      [Dot(9, 2, s[0], s[2]), Dot(9, 2, s[1], s[3]), Dot(2, 9, s[0], s[2]), Dot(2, 9, s[1], s[3])]
  {
  }

  /** [[9, 2], [2, 9]] is the inverse of [[1, 4], [4, 1]] over GF(2^4), so each
      column transform undoes the other. */
  lemma MixColumnsInverse(s: State)
    ensures InvMixColumns(MixColumns(s)) == s
    ensures MixColumns(InvMixColumns(s)) == s
  {
    MixColumnsByRows(s);
    InvMixColumnsByRows(MixColumns(s));
    InvMixColumnsByRows(s);
    MixColumnsByRows(InvMixColumns(s));
    MixThenInvMixColumn(s[0], s[2]);
    MixThenInvMixColumn(s[1], s[3]);
    InvMixThenMixColumn(s[0], s[2]);
    InvMixThenMixColumn(s[1], s[3]);
  }
}
