/** The two modulus tables of the curve BN254 that the contracts carry. */
module Bn254 {
  import opened Limbs
  import opened Cios
  import opened Poseidon

  const FP: nat := 21888242871839275222246405745257275088696311157297823662689037894645226208583
  const FR: nat := 21888242871839275222246405745257275088548364400416034343698204186575808495617
  const TWO256: nat := 0x1_0000000000000000_0000000000000000_0000000000000000_0000000000000000

  /** The base field, used by the field multiplier. */
  function BaseField(): Modulus {
    Modulus([64839, 55420, 35862, 15392, 51853, 26737, 27281, 38785, 22621, 33153, 17846, 47184,
             41001, 57649, 20082, 12388],
            25481, 20988524275117001072002809824448087578619730785600314334253784976379291040311)
  }

  /** The scalar field, used by Poseidon. */
  function ScalarField(): Modulus {
    Modulus([1, 61440, 62867, 17377, 28817, 31161, 59464, 10291, 22621, 33153, 17846, 47184,
             41001, 57649, 20082, 12388],
            65535, 9915499612839321149637521777990102151350674507940716049588462388200839649614)
  }

  /** R^2 modulo the scalar field. */
  function RSquared(): seq<int> {
    [28071, 44577, 58949, 7096, 23011, 58204, 15025, 21502, 32901, 21435, 33597, 35913, 17573, 32590, 53425, 534]
  }

  lemma {:induction false} Weights()
    ensures Pow(B, 0) == 1 && Pow(B, 1) == 0x1_0000 && Pow(B, 2) == 0x1_0000_0000 && Pow(B, 3) == 0x1_0000_0000_0000
    ensures Pow(B, 4) == 0x1_0000_0000_0000_0000
    ensures Pow(B, 8) == 0x1_0000_0000_0000_0000 * 0x1_0000_0000_0000_0000
    ensures Pow(B, 16) == TWO256
  {}

  function Quad(s: seq<int>, i: nat): int
    requires i + 4 <= |s|
  {
    s[i] + s[i + 1] * 0x1_0000 + s[i + 2] * 0x1_0000_0000 + s[i + 3] * 0x1_0000_0000_0000
  }

  lemma {:induction false} FourLimbs(s: seq<int>)
    requires |s| >= 4
    ensures Val(B, s, 4) == Quad(s, 0)
  {
    Weights();
    assert Val(B, s, 1) == s[0];
    assert Val(B, s, 2) == s[0] + s[1] * 0x1_0000;
    assert Val(B, s, 3) == s[0] + s[1] * 0x1_0000 + s[2] * 0x1_0000_0000;
  }

  lemma {:induction false} EightLimbs(s: seq<int>)
    requires |s| >= 8
    ensures Val(B, s, 8) == Quad(s, 0) + Quad(s, 4) * 0x1_0000_0000_0000_0000
  {
    Weights();
    ValSplit(B, s, 4, 4);
    FourLimbs(s);
    FourLimbs(s[4..]);
    assert Quad(s[4..], 0) == Quad(s, 4);
  }

  /** Sixteen limbs as four 64-bit words. */
  lemma {:induction false} SixteenLimbs(s: seq<int>)
    requires |s| >= 16
    ensures V(s) == Quad(s, 0) + Quad(s, 4) * 0x1_0000_0000_0000_0000
                    + (Quad(s, 8) + Quad(s, 12) * 0x1_0000_0000_0000_0000) * 0x1_0000000000000000_0000000000000000
  {
    Weights();
    ValSplit(B, s, 8, 8);
    EightLimbs(s);
    EightLimbs(s[8..]);
    assert Quad(s[8..], 0) == Quad(s, 8) && Quad(s[8..], 4) == Quad(s, 12);
  }

  lemma {:induction false} Radix()
    ensures R() == TWO256
  {
    Weights();
  }

  /** The tables spell the field moduli and satisfy the multiplier's conditions. */
  lemma {:induction false} BaseFieldValid()
    ensures ValidModulus(BaseField()) && V(BaseField().limbs) == FP
  {
    Radix();
    Weights();
    SixteenLimbs(BaseField().limbs);
    assert V(BaseField().limbs) == FP;
    assert (TWO256 * BaseField().rinv) % FP == 1;
  }

  lemma {:induction false} ScalarFieldValid()
    ensures ValidModulus(ScalarField()) && V(ScalarField().limbs) == FR && 2 * FR <= R()
  {
    Radix();
    Weights();
    SixteenLimbs(ScalarField().limbs);
    assert V(ScalarField().limbs) == FR;
    assert (TWO256 * ScalarField().rinv) % FR == 1;
  }

  lemma {:induction false} RSquaredValid()
    ensures InBase(B, RSquared(), 16) && V(RSquared()) < FR && V(RSquared()) % FR == (R() * R()) % FR
  {
    Radix();
    SixteenLimbs(RSquared());
    var r2 := 944936681149208446651664254269745548490766851729442924617792859073125903783;
    assert V(RSquared()) == r2;
    assert (TWO256 * TWO256) % FR == r2;
  }

  /** The contract's hash: the permutation modulo the scalar field, for any canonical
      constant tables in its layout. */
  method HashBn254(cc: seq<int>, mm: seq<int>, a: seq<int>, b: seq<int>) returns (out: seq<int>)
    requires Table(ScalarField(), cc, 195) && Table(ScalarField(), mm, 9) && InBase(B, a, 16) && InBase(B, b, 16)
    ensures InBase(B, out, 16)
    ensures V(ScalarField().limbs) == FR && 0 <= V(a) && 0 <= V(b)
    ensures V(out) == HashOf(FR, Elem(ScalarField(), cc), Elem(ScalarField(), mm), V(a), V(b))
  {
    ScalarFieldValid();
    RSquaredValid();
    out := Hash(ScalarField(), RSquared(), cc, mm, a, b);
  }
}
