// src/piece_type_generator.rs: the source of piece types for the Rust game.
// A 32-bit random word is reduced modulo 7; if that repeats the previous
// piece, the word shifted right by three bits, modulo 7, is used instead.
module PieceTypeGen {
  import opened Pieces

  type U8 = x: nat | x < 0x100
  type U32 = x: nat | x < 0x1_0000_0000

  /** The index of the type `gen(rand)` returns after `last`, as written:
      `0b111` is applied with `%`, so the first roll is below 7 and the
      test against 7 always passes (see `SevenTestIsDead`); `rand >>= 3`
      on a `u32` is `rand / 8`. */
  function GenIndex(last: nat, rand: nat): (k: nat)
    ensures k < 7
  {
    var rand0 := rand % 7;
    if rand0 != 7 && rand0 != last then rand0 else (rand / 8) % 7
  }

  /** The first roll is taken unless it repeats `last`; the result repeats
      `last` exactly when both rolls hit it. */
  lemma GenRepeatsOnlyOnDoubleHit(last: nat, rand: nat)
    ensures rand % 7 != last ==> GenIndex(last, rand) == rand % 7
    ensures GenIndex(last, rand) == last <==> rand % 7 == last && (rand / 8) % 7 == last
  {
  }

  /** A fresh generator's `last` is not an index, so its first piece is the
      first roll. */
  lemma FirstGenTakesFirstRoll(rand: nat)
    ensures GenIndex(0xff, rand) == rand % 7
  {
  }

  /** The test against 7 never fails: the first roll is a remainder modulo 7,
      so `gen` behaves as if the test were not there. */
  lemma SevenTestIsDead(last: nat, rand: nat)
    ensures rand % 7 != 7
    ensures GenIndex(last, rand) == if rand % 7 != last then rand % 7 else (rand / 8) % 7
  {
  }

  /** The roll the test against 7 is written for: the low three bits
      (`rand & 0b111`), from 0 to 7, where 7 names no type and is rolled
      again from the remaining bits. */
  function MaskedGenIndex(last: nat, rand: nat): (k: nat)
    ensures k < 7
  {
    var rand0 := rand % 8;
    if rand0 != 7 && rand0 != last then rand0 else (rand / 8) % 7
  }

  /** With the mask, a 7 in the low bits is rolled again, and the result
      repeats `last` exactly when the first roll is `last` or 7 and the
      second roll hits `last`. */
  lemma MaskedGenRerollsSeven(last: nat, rand: nat)
    requires last < 7
    ensures rand % 8 == 7 ==> MaskedGenIndex(last, rand) == (rand / 8) % 7
    ensures MaskedGenIndex(last, rand) == last <==> (rand % 8 == last || rand % 8 == 7) && (rand / 8) % 7 == last
  {
  }

  /** The word 8 tells the two apart: `8 % 7` is 1, while its low three
      bits are 0. */
  lemma ModuloDiffersFromMask()
    ensures GenIndex(0xff, 8) == 1 && MaskedGenIndex(0xff, 8) == 0
  {
  }

  class PieceTypeGenerator {
    var last: U8

    /** `new`: no previous piece (`0xff`). */
    constructor()
      ensures last == 0xff
    {
      last := 0xff;
    }

    /** `gen(rand)`: the type at `GenIndex(last, rand)` in `PieceType::list()`;
        `last` becomes that index. */
    method Gen(rand: U32) returns (t: PieceType)
      modifies this
      ensures last == GenIndex(old(last), rand)
      ensures t == List()[last]
    {
      var rand0 := rand % 7;
      var rest := rand / 8;
      if rand0 != 7 && rand0 != last {
        last := rand0;
        return List()[rand0];
      }
      var res := rest % 7;
      last := res;
      t := List()[res];
    }
  }
}
