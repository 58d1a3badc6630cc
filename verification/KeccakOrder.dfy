/** The lane order of the keccak_special5 delegation. The permutation never moves lanes through
    pi; instead each round reads memory through the next row of an index table. */
module KeccakOrder {
  import opened KeccakSpec

  function Row0(j: nat): (k: nat)
    ensures k < 25
  {
    match j
    case 0 => 0 case 1 => 1 case 2 => 2 case 3 => 3 case 4 => 4
    case 5 => 5 case 6 => 6 case 7 => 7 case 8 => 8 case 9 => 9
    case 10 => 10 case 11 => 11 case 12 => 12 case 13 => 13 case 14 => 14
    case 15 => 15 case 16 => 16 case 17 => 17 case 18 => 18 case 19 => 19
    case 20 => 20 case 21 => 21 case 22 => 22 case 23 => 23 case _ => 24
  }

  function Row1(j: nat): (k: nat)
    ensures k < 25
  {
    match j
    case 0 => 0 case 1 => 6 case 2 => 12 case 3 => 18 case 4 => 24
    case 5 => 3 case 6 => 9 case 7 => 10 case 8 => 16 case 9 => 22
    case 10 => 1 case 11 => 7 case 12 => 13 case 13 => 19 case 14 => 20
    case 15 => 4 case 16 => 5 case 17 => 11 case 18 => 17 case 19 => 23
    case 20 => 2 case 21 => 8 case 22 => 14 case 23 => 15 case _ => 21
  }

  function Row2(j: nat): (k: nat)
    ensures k < 25
  {
    match j
    case 0 => 0 case 1 => 9 case 2 => 13 case 3 => 17 case 4 => 21
    case 5 => 18 case 6 => 22 case 7 => 1 case 8 => 5 case 9 => 14
    case 10 => 6 case 11 => 10 case 12 => 19 case 13 => 23 case 14 => 2
    case 15 => 24 case 16 => 3 case 17 => 7 case 18 => 11 case 19 => 15
    case 20 => 12 case 21 => 16 case 22 => 20 case 23 => 4 case _ => 8
  }

  function Row3(j: nat): (k: nat)
    ensures k < 25
  {
    match j
    case 0 => 0 case 1 => 22 case 2 => 19 case 3 => 11 case 4 => 8
    case 5 => 17 case 6 => 14 case 7 => 6 case 8 => 3 case 9 => 20
    case 10 => 9 case 11 => 1 case 12 => 23 case 13 => 15 case 14 => 12
    case 15 => 21 case 16 => 18 case 17 => 10 case 18 => 7 case 19 => 4
    case 20 => 13 case 21 => 5 case 22 => 2 case 23 => 24 case _ => 16
  }

  function Row4(j: nat): (k: nat)
    ensures k < 25
  {
    match j
    case 0 => 0 case 1 => 14 case 2 => 23 case 3 => 7 case 4 => 16
    case 5 => 11 case 6 => 20 case 7 => 9 case 8 => 18 case 9 => 2
    case 10 => 22 case 11 => 6 case 12 => 15 case 13 => 4 case 14 => 13
    case 15 => 8 case 16 => 17 case 17 => 1 case 18 => 10 case 19 => 24
    case 20 => 19 case 21 => 3 case 22 => 12 case 23 => 21 case _ => 5
  }

  function Row5(j: nat): (k: nat)
    ensures k < 25
  {
    match j
    case 0 => 0 case 1 => 20 case 2 => 15 case 3 => 10 case 4 => 5
    case 5 => 7 case 6 => 2 case 7 => 22 case 8 => 17 case 9 => 12
    case 10 => 14 case 11 => 9 case 12 => 4 case 13 => 24 case 14 => 19
    case 15 => 16 case 16 => 11 case 17 => 6 case 18 => 1 case 19 => 21
    case 20 => 23 case 21 => 18 case 22 => 13 case 23 => 8 case _ => 3
  }

  function Row6(j: nat): (k: nat)
    ensures k < 25
  {
    match j
    case 0 => 0 case 1 => 2 case 2 => 4 case 3 => 1 case 4 => 3
    case 5 => 10 case 6 => 12 case 7 => 14 case 8 => 11 case 9 => 13
    case 10 => 20 case 11 => 22 case 12 => 24 case 13 => 21 case 14 => 23
    case 15 => 5 case 16 => 7 case 17 => 9 case 18 => 6 case 19 => 8
    case 20 => 15 case 21 => 17 case 22 => 19 case 23 => 16 case _ => 18
  }

  function Row7(j: nat): (k: nat)
    ensures k < 25
  {
    match j
    case 0 => 0 case 1 => 12 case 2 => 24 case 3 => 6 case 4 => 18
    case 5 => 1 case 6 => 13 case 7 => 20 case 8 => 7 case 9 => 19
    case 10 => 2 case 11 => 14 case 12 => 21 case 13 => 8 case 14 => 15
    case 15 => 3 case 16 => 10 case 17 => 22 case 18 => 9 case 19 => 16
    case 20 => 4 case 21 => 11 case 22 => 23 case 23 => 5 case _ => 17
  }

  function Row8(j: nat): (k: nat)
    ensures k < 25
  {
    match j
    case 0 => 0 case 1 => 13 case 2 => 21 case 3 => 9 case 4 => 17
    case 5 => 6 case 6 => 19 case 7 => 2 case 8 => 10 case 9 => 23
    case 10 => 12 case 11 => 20 case 12 => 8 case 13 => 16 case 14 => 4
    case 15 => 18 case 16 => 1 case 17 => 14 case 18 => 22 case 19 => 5
    case 20 => 24 case 21 => 7 case 22 => 15 case 23 => 3 case _ => 11
  }

  function Row9(j: nat): (k: nat)
    ensures k < 25
  {
    match j
    case 0 => 0 case 1 => 19 case 2 => 8 case 3 => 22 case 4 => 11
    case 5 => 9 case 6 => 23 case 7 => 12 case 8 => 1 case 9 => 15
    case 10 => 13 case 11 => 2 case 12 => 16 case 13 => 5 case 14 => 24
    case 15 => 17 case 16 => 6 case 17 => 20 case 18 => 14 case 19 => 3
    case 20 => 21 case 21 => 10 case 22 => 4 case 23 => 18 case _ => 7
  }

  function Row10(j: nat): (k: nat)
    ensures k < 25
  {
    match j
    case 0 => 0 case 1 => 23 case 2 => 16 case 3 => 14 case 4 => 7
    case 5 => 22 case 6 => 15 case 7 => 13 case 8 => 6 case 9 => 4
    case 10 => 19 case 11 => 12 case 12 => 5 case 13 => 3 case 14 => 21
    case 15 => 11 case 16 => 9 case 17 => 2 case 18 => 20 case 19 => 18
    case 20 => 8 case 21 => 1 case 22 => 24 case 23 => 17 case _ => 10
  }

  function Row11(j: nat): (k: nat)
    ensures k < 25
  {
    match j
    case 0 => 0 case 1 => 15 case 2 => 5 case 3 => 20 case 4 => 10
    case 5 => 14 case 6 => 4 case 7 => 19 case 8 => 9 case 9 => 24
    case 10 => 23 case 11 => 13 case 12 => 3 case 13 => 18 case 14 => 8
    case 15 => 7 case 16 => 22 case 17 => 12 case 18 => 2 case 19 => 17
    case 20 => 16 case 21 => 6 case 22 => 21 case 23 => 11 case _ => 1
  }

  function Row12(j: nat): (k: nat)
    ensures k < 25
  {
    match j
    case 0 => 0 case 1 => 4 case 2 => 3 case 3 => 2 case 4 => 1
    case 5 => 20 case 6 => 24 case 7 => 23 case 8 => 22 case 9 => 21
    case 10 => 15 case 11 => 19 case 12 => 18 case 13 => 17 case 14 => 16
    case 15 => 10 case 16 => 14 case 17 => 13 case 18 => 12 case 19 => 11
    case 20 => 5 case 21 => 9 case 22 => 8 case 23 => 7 case _ => 6
  }

  function Row13(j: nat): (k: nat)
    ensures k < 25
  {
    match j
    case 0 => 0 case 1 => 24 case 2 => 18 case 3 => 12 case 4 => 6
    case 5 => 2 case 6 => 21 case 7 => 15 case 8 => 14 case 9 => 8
    case 10 => 4 case 11 => 23 case 12 => 17 case 13 => 11 case 14 => 5
    case 15 => 1 case 16 => 20 case 17 => 19 case 18 => 13 case 19 => 7
    case 20 => 3 case 21 => 22 case 22 => 16 case 23 => 10 case _ => 9
  }

  function Row14(j: nat): (k: nat)
    ensures k < 25
  {
    match j
    case 0 => 0 case 1 => 21 case 2 => 17 case 3 => 13 case 4 => 9
    case 5 => 12 case 6 => 8 case 7 => 4 case 8 => 20 case 9 => 16
    case 10 => 24 case 11 => 15 case 12 => 11 case 13 => 7 case 14 => 3
    case 15 => 6 case 16 => 2 case 17 => 23 case 18 => 19 case 19 => 10
    case 20 => 18 case 21 => 14 case 22 => 5 case 23 => 1 case _ => 22
  }

  function Row15(j: nat): (k: nat)
    ensures k < 25
  {
    match j
    case 0 => 0 case 1 => 8 case 2 => 11 case 3 => 19 case 4 => 22
    case 5 => 13 case 6 => 16 case 7 => 24 case 8 => 2 case 9 => 5
    case 10 => 21 case 11 => 4 case 12 => 7 case 13 => 10 case 14 => 18
    case 15 => 9 case 16 => 12 case 17 => 15 case 18 => 23 case 19 => 1
    case 20 => 17 case 21 => 20 case 22 => 3 case 23 => 6 case _ => 14
  }

  function Row16(j: nat): (k: nat)
    ensures k < 25
  {
    match j
    case 0 => 0 case 1 => 16 case 2 => 7 case 3 => 23 case 4 => 14
    case 5 => 19 case 6 => 5 case 7 => 21 case 8 => 12 case 9 => 3
    case 10 => 8 case 11 => 24 case 12 => 10 case 13 => 1 case 14 => 17
    case 15 => 22 case 16 => 13 case 17 => 4 case 18 => 15 case 19 => 6
    case 20 => 11 case 21 => 2 case 22 => 18 case 23 => 9 case _ => 20
  }

  function Row17(j: nat): (k: nat)
    ensures k < 25
  {
    match j
    case 0 => 0 case 1 => 5 case 2 => 10 case 3 => 15 case 4 => 20
    case 5 => 23 case 6 => 3 case 7 => 8 case 8 => 13 case 9 => 18
    case 10 => 16 case 11 => 21 case 12 => 1 case 13 => 6 case 14 => 11
    case 15 => 14 case 16 => 19 case 17 => 24 case 18 => 4 case 19 => 9
    case 20 => 7 case 21 => 12 case 22 => 17 case 23 => 22 case _ => 2
  }

  function Row18(j: nat): (k: nat)
    ensures k < 25
  {
    match j
    case 0 => 0 case 1 => 3 case 2 => 1 case 3 => 4 case 4 => 2
    case 5 => 15 case 6 => 18 case 7 => 16 case 8 => 19 case 9 => 17
    case 10 => 5 case 11 => 8 case 12 => 6 case 13 => 9 case 14 => 7
    case 15 => 20 case 16 => 23 case 17 => 21 case 18 => 24 case 19 => 22
    case 20 => 10 case 21 => 13 case 22 => 11 case 23 => 14 case _ => 12
  }

  function Row19(j: nat): (k: nat)
    ensures k < 25
  {
    match j
    case 0 => 0 case 1 => 18 case 2 => 6 case 3 => 24 case 4 => 12
    case 5 => 4 case 6 => 17 case 7 => 5 case 8 => 23 case 9 => 11
    case 10 => 3 case 11 => 16 case 12 => 9 case 13 => 22 case 14 => 10
    case 15 => 2 case 16 => 15 case 17 => 8 case 18 => 21 case 19 => 14
    case 20 => 1 case 21 => 19 case 22 => 7 case 23 => 20 case _ => 13
  }

  function Row20(j: nat): (k: nat)
    ensures k < 25
  {
    match j
    case 0 => 0 case 1 => 17 case 2 => 9 case 3 => 21 case 4 => 13
    case 5 => 24 case 6 => 11 case 7 => 3 case 8 => 15 case 9 => 7
    case 10 => 18 case 11 => 5 case 12 => 22 case 13 => 14 case 14 => 1
    case 15 => 12 case 16 => 4 case 17 => 16 case 18 => 8 case 19 => 20
    case 20 => 6 case 21 => 23 case 22 => 10 case 23 => 2 case _ => 19
  }

  function Row21(j: nat): (k: nat)
    ensures k < 25
  {
    match j
    case 0 => 0 case 1 => 11 case 2 => 22 case 3 => 8 case 4 => 19
    case 5 => 21 case 6 => 7 case 7 => 18 case 8 => 4 case 9 => 10
    case 10 => 17 case 11 => 3 case 12 => 14 case 13 => 20 case 14 => 6
    case 15 => 13 case 16 => 24 case 17 => 5 case 18 => 16 case 19 => 2
    case 20 => 9 case 21 => 15 case 22 => 1 case 23 => 12 case _ => 23
  }

  function Row22(j: nat): (k: nat)
    ensures k < 25
  {
    match j
    case 0 => 0 case 1 => 7 case 2 => 14 case 3 => 16 case 4 => 23
    case 5 => 8 case 6 => 10 case 7 => 17 case 8 => 24 case 9 => 1
    case 10 => 11 case 11 => 18 case 12 => 20 case 13 => 2 case 14 => 9
    case 15 => 19 case 16 => 21 case 17 => 3 case 18 => 5 case 19 => 12
    case 20 => 22 case 21 => 4 case 22 => 6 case 23 => 13 case _ => 15
  }

  function Row23(j: nat): (k: nat)
    ensures k < 25
  {
    match j
    case 0 => 0 case 1 => 10 case 2 => 20 case 3 => 5 case 4 => 15
    case 5 => 16 case 6 => 1 case 7 => 11 case 8 => 21 case 9 => 6
    case 10 => 7 case 11 => 17 case 12 => 2 case 13 => 12 case 14 => 22
    case 15 => 23 case 16 => 8 case 17 => 18 case 18 => 3 case 19 => 13
    case 20 => 14 case 21 => 24 case 22 => 9 case 23 => 19 case _ => 4
  }

  function Row24(j: nat): (k: nat)
    ensures k < 25
  {
    match j
    case 0 => 0 case 1 => 1 case 2 => 2 case 3 => 3 case 4 => 4
    case 5 => 5 case 6 => 6 case 7 => 7 case 8 => 8 case 9 => 9
    case 10 => 10 case 11 => 11 case 12 => 12 case 13 => 13 case 14 => 14
    case 15 => 15 case 16 => 16 case 17 => 17 case 18 => 18 case 19 => 19
    case 20 => 20 case 21 => 21 case 22 => 22 case 23 => 23 case _ => 24
  }

  /** PERMUTATIONS_ADJUSTED: the memory word that holds lane j during round r. */
  function Place(r: nat, j: nat): (k: nat)
    requires r <= 24 && j < 25
    ensures k < 25
  {
    match r
    case 0 => Row0(j) case 1 => Row1(j) case 2 => Row2(j)
    case 3 => Row3(j) case 4 => Row4(j) case 5 => Row5(j)
    case 6 => Row6(j) case 7 => Row7(j) case 8 => Row8(j)
    case 9 => Row9(j) case 10 => Row10(j) case 11 => Row11(j)
    case 12 => Row12(j) case 13 => Row13(j) case 14 => Row14(j)
    case 15 => Row15(j) case 16 => Row16(j) case 17 => Row17(j)
    case 18 => Row18(j) case 19 => Row19(j) case 20 => Row20(j)
    case 21 => Row21(j) case 22 => Row22(j) case 23 => Row23(j)
    case _ => Row24(j)
  }

  /** PiSource and its inverse, tabulated. */
  function PiTable(j: nat): (k: nat)
    ensures k < 25
  {
    match j
    case 0 => 0 case 1 => 6 case 2 => 12 case 3 => 18 case 4 => 24
    case 5 => 3 case 6 => 9 case 7 => 10 case 8 => 16 case 9 => 22
    case 10 => 1 case 11 => 7 case 12 => 13 case 13 => 19 case 14 => 20
    case 15 => 4 case 16 => 5 case 17 => 11 case 18 => 17 case 19 => 23
    case 20 => 2 case 21 => 8 case 22 => 14 case 23 => 15 case _ => 21
  }

  function PiInverseTable(k: nat): nat {
    match k
    case 0 => 0 case 1 => 10 case 2 => 20 case 3 => 5 case 4 => 15
    case 5 => 16 case 6 => 1 case 7 => 11 case 8 => 21 case 9 => 6
    case 10 => 7 case 11 => 17 case 12 => 2 case 13 => 12 case 14 => 22
    case 15 => 23 case 16 => 8 case 17 => 18 case 18 => 3 case 19 => 13
    case 20 => 14 case 21 => 24 case 22 => 9 case 23 => 19 case _ => 4
  }

  lemma PiTables(j: nat)
    requires j < 25
    ensures PiTable(j) == PiSource(j)
  {
    var x, y := j % 5, j / 5;
    assert j == 5 * y + x;
    assert y == 0 || y == 1 || y == 2 || y == 3 || y == 4;
  }

  lemma PlaceStep0(r: nat, j: nat)
    requires 0 <= r < 4 && j < 25
    ensures Place(r + 1, j) == Place(r, PiTable(j))
  {
  }

  lemma PlaceStep1(r: nat, j: nat)
    requires 4 <= r < 8 && j < 25
    ensures Place(r + 1, j) == Place(r, PiTable(j))
  {
  }

  lemma PlaceStep2(r: nat, j: nat)
    requires 8 <= r < 12 && j < 25
    ensures Place(r + 1, j) == Place(r, PiTable(j))
  {
  }

  lemma PlaceStep3(r: nat, j: nat)
    requires 12 <= r < 16 && j < 25
    ensures Place(r + 1, j) == Place(r, PiTable(j))
  {
  }

  lemma PlaceStep4(r: nat, j: nat)
    requires 16 <= r < 20 && j < 25
    ensures Place(r + 1, j) == Place(r, PiTable(j))
  {
  }

  lemma PlaceStep5(r: nat, j: nat)
    requires 20 <= r < 24 && j < 25
    ensures Place(r + 1, j) == Place(r, PiTable(j))
  {
  }

  lemma PlaceStep(r: nat, j: nat)
    requires r < 24 && j < 25
    ensures Place(r + 1, j) == Place(r, PiTable(j))
  {
    if
    case 0 <= r < 4 => PlaceStep0(r, j);
    case 4 <= r < 8 => PlaceStep1(r, j);
    case 8 <= r < 12 => PlaceStep2(r, j);
    case 12 <= r < 16 => PlaceStep3(r, j);
    case 16 <= r < 20 => PlaceStep4(r, j);
    case 20 <= r < 24 => PlaceStep5(r, j);
  }

  /** Reading through the next row is pi: the lane at position j of round r + 1 is kept where
      position PiSource(j) of round r was kept. */
  lemma PlaceFollowsPi(r: nat, j: nat)
    requires r < 24 && j < 25
    ensures Place(r + 1, j) == Place(r, PiSource(j))
  {
    PiTables(j);
    PlaceStep(r, j);
  }

  lemma PiInverse(j: nat)
    requires j < 25
    ensures PiInverseTable(PiTable(j)) == j
  {
  }

  /** Every row of the table places the 25 lanes in 25 different words. */
  lemma {:induction false} PlaceInjective(r: nat, i: nat, j: nat)
    requires r <= 24 && i < 25 && j < 25
    ensures Place(r, i) == Place(r, j) ==> i == j
  {
    if r > 0 {
      PiTables(i);
      PiTables(j);
      PiInverse(i);
      PiInverse(j);
      PlaceStep(r - 1, i);
      PlaceStep(r - 1, j);
      PlaceInjective(r - 1, PiTable(i), PiTable(j));
    }
  }

  /** After 24 rounds the lanes are back in their own words. */
  lemma PlaceCloses(j: nat)
    requires j < 25
    ensures Place(0, j) == j && Place(24, j) == j
  {
  }
}
