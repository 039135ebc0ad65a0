/** The round constants of FIPS 180-4, section 4.2.2, and that the specification's table is what the standard
    defines: the first 32 bits of the fractional parts of the cube roots of the first 64 primes. The
    dashboard's own table (static/app.js) holds the same words. */
module Sha256Constants {
  import opened Sha256

  /** The first 64 primes, eight to a row. */
  function PrimeRow(row: nat): (p: seq<nat>)
    ensures |p| == 8
  {
    match row
    case 0 => [2, 3, 5, 7, 11, 13, 17, 19]
    case 1 => [23, 29, 31, 37, 41, 43, 47, 53]
    case 2 => [59, 61, 67, 71, 73, 79, 83, 89]
    case 3 => [97, 101, 103, 107, 109, 113, 127, 131]
    case 4 => [137, 139, 149, 151, 157, 163, 167, 173]
    case 5 => [179, 181, 191, 193, 197, 199, 211, 223]
    case 6 => [227, 229, 233, 239, 241, 251, 257, 263]
    case _ => [269, 271, 277, 281, 283, 293, 307, 311]
  }

  /** k is the first 32 bits of the fractional part of the cube root of p, whose whole part is r. */
  predicate IsCubeRootFraction(p: nat, r: nat, k: Word) {
    var x := r * 0x1_0000_0000 + k;
    r * r * r <= p < (r + 1) * (r + 1) * (r + 1)
    && x * x * x <= p * 0x1_0000_0000_0000_0000_0000_0000 < (x + 1) * (x + 1) * (x + 1)
  }

  function WholeRoot(p: nat): nat {
    if p < 8 then 1 else if p < 27 then 2 else if p < 64 then 3 else if p < 125 then 4 else if p < 216 then 5 else 6
  }

  lemma KRow0()
    ensures forall j :: 0 <= j < 8 ==> IsCubeRootFraction(PrimeRow(0)[j], WholeRoot(PrimeRow(0)[j]), KRow(0)[j])
  {
  }

  lemma KRow1()
    ensures forall j :: 0 <= j < 8 ==> IsCubeRootFraction(PrimeRow(1)[j], WholeRoot(PrimeRow(1)[j]), KRow(1)[j])
  {
  }

  lemma KRow2()
    ensures forall j :: 0 <= j < 8 ==> IsCubeRootFraction(PrimeRow(2)[j], WholeRoot(PrimeRow(2)[j]), KRow(2)[j])
  {
  }

  lemma KRow3()
    ensures forall j :: 0 <= j < 8 ==> IsCubeRootFraction(PrimeRow(3)[j], WholeRoot(PrimeRow(3)[j]), KRow(3)[j])
  {
  }

  lemma KRow4()
    ensures forall j :: 0 <= j < 8 ==> IsCubeRootFraction(PrimeRow(4)[j], WholeRoot(PrimeRow(4)[j]), KRow(4)[j])
  {
  }

  lemma KRow5()
    ensures forall j :: 0 <= j < 8 ==> IsCubeRootFraction(PrimeRow(5)[j], WholeRoot(PrimeRow(5)[j]), KRow(5)[j])
  {
  }

  lemma KRow6()
    ensures forall j :: 0 <= j < 8 ==> IsCubeRootFraction(PrimeRow(6)[j], WholeRoot(PrimeRow(6)[j]), KRow(6)[j])
  {
  }

  lemma KRow7()
    ensures forall j :: 0 <= j < 8 ==> IsCubeRootFraction(PrimeRow(7)[j], WholeRoot(PrimeRow(7)[j]), KRow(7)[j])
  {
  }

  /** The table is what the standard defines it to be. */
  lemma ConstantsAreCubeRoots(t: nat)
    requires t < 64
    ensures var p := PrimeRow(t / 8)[t % 8]; IsCubeRootFraction(p, WholeRoot(p), KAt(t))
  {
    hide IsCubeRootFraction, WholeRoot;
    KRow0(); KRow1(); KRow2(); KRow3(); KRow4(); KRow5(); KRow6(); KRow7();
    assert t / 8 in {0, 1, 2, 3, 4, 5, 6, 7};
    hide PrimeRow, KRow;
  }
  // ---------- The dashboard's table ----------

  /** `SHA256_K`, line by line. */
  function JsTable(): (k: seq<Word>)
    ensures |k| == 64
  {
    [0x428a2f98, 0x71374491, 0xb5c0fbcf, 0xe9b5dba5, 0x3956c25b, 0x59f111f1, 0x923f82a4, 0xab1c5ed5]
    + [0xd807aa98, 0x12835b01, 0x243185be, 0x550c7dc3, 0x72be5d74, 0x80deb1fe, 0x9bdc06a7, 0xc19bf174]
    + [0xe49b69c1, 0xefbe4786, 0x0fc19dc6, 0x240ca1cc, 0x2de92c6f, 0x4a7484aa, 0x5cb0a9dc, 0x76f988da]
    + [0x983e5152, 0xa831c66d, 0xb00327c8, 0xbf597fc7, 0xc6e00bf3, 0xd5a79147, 0x06ca6351, 0x14292967]
    + [0x27b70a85, 0x2e1b2138, 0x4d2c6dfc, 0x53380d13, 0x650a7354, 0x766a0abb, 0x81c2c92e, 0x92722c85]
    + [0xa2bfe8a1, 0xa81a664b, 0xc24b8b70, 0xc76c51a3, 0xd192e819, 0xd6990624, 0xf40e3585, 0x106aa070]
    + [0x19a4c116, 0x1e376c08, 0x2748774c, 0x34b0bcb5, 0x391c0cb3, 0x4ed8aa4a, 0x5b9cca4f, 0x682e6ff3]
    + [0x748f82ee, 0x78a5636f, 0x84c87814, 0x8cc70208, 0x90befffa, 0xa4506ceb, 0xbef9a3f7, 0xc67178f2]
  }

  /** `SHA256_K[i]`. */
  function JsK(i: nat): Word
    requires i < 64
  {
    JsTable()[i]
  }

  lemma TableRow0()
    ensures JsTable()[0..8] == KRow(0)
  {
  }

  lemma TableRow1()
    ensures JsTable()[8..16] == KRow(1)
  {
  }

  lemma TableRow2()
    ensures JsTable()[16..24] == KRow(2)
  {
  }

  lemma TableRow3()
    ensures JsTable()[24..32] == KRow(3)
  {
  }

  lemma TableRow4()
    ensures JsTable()[32..40] == KRow(4)
  {
  }

  lemma TableRow5()
    ensures JsTable()[40..48] == KRow(5)
  {
  }

  lemma TableRow6()
    ensures JsTable()[48..56] == KRow(6)
  {
  }

  lemma TableRow7()
    ensures JsTable()[56..64] == KRow(7)
  {
  }

  /** The dashboard's constants are the standard's. */
  lemma TableAgrees(i: nat)
    requires i < 64
    ensures JsK(i) == KAt(i)
  {
    TableRow0(); TableRow1(); TableRow2(); TableRow3(); TableRow4(); TableRow5(); TableRow6(); TableRow7();
    assert i == 8 * (i / 8) + i % 8 && i / 8 in {0, 1, 2, 3, 4, 5, 6, 7};
    hide KRow, JsTable;
    SliceAt(JsTable(), i);
  }

  lemma SliceAt(table: seq<Word>, i: nat)
    requires i < 64 == |table|
    ensures table[i] == table[8 * (i / 8)..8 * (i / 8) + 8][i % 8]
  {
  }
}
