/** 16-bit words, read as the set of the bit positions that are one. The C++
    operators become: w | (1 << b) is w + {b}, w & ~m is w - m, w & m is w * m. */
module Word16 {
  newtype bit = x: int | 0 <= x < 16

  type Word = set<bit>

  /** The masked view of a word in canopen_402_driver/include/canopen_402_driver/word_accessor.hpp. */
  function SetBit(mask: Word, word: Word, b: bit): Word { word + mask * {b} }

  function ResetBit(mask: Word, word: Word, b: bit): Word { word - mask * {b} }

  function Assign(mask: Word, word: Word, val: Word): Word { (word - mask) + val * mask }

  /** The word is a cell, since the original view holds a reference to it. */
  class Cell {
    var word: Word

    constructor (w: Word)
      ensures word == w
    {
      word := w;
    }
  }

  class WordAccessor {
    const mask: Word
    const cell: Cell

    constructor (mask: Word, cell: Cell)
      ensures this.mask == mask && this.cell == cell
    {
      this.mask := mask;
      this.cell := cell;
    }

    method Set(b: bit) returns (done: bool)
      modifies cell
      ensures cell.word == SetBit(mask, old(cell.word), b)
      ensures forall x: bit :: x in cell.word <==> x in old(cell.word) || (x == b && b in mask)
      ensures done == (b in mask)
    {
      var val := mask * {b};
      cell.word := cell.word + val;
      assert b in mask ==> b in val;
      done := val != {};
    }

    method Reset(b: bit) returns (done: bool)
      modifies cell
      ensures cell.word == ResetBit(mask, old(cell.word), b)
      ensures forall x: bit :: x in cell.word <==> x in old(cell.word) && !(x == b && b in mask)
      ensures done == (b in mask)
    {
      var val := mask * {b};
      cell.word := cell.word - val;
      assert b in mask ==> b in val;
      done := val != {};
    }

    method Get(b: bit) returns (one: bool)
      ensures one == (b in cell.word)
    {
      one := b in cell.word;
    }

    method Masked() returns (val: Word)
      ensures val == cell.word * mask
    {
      val := cell.word * mask;
    }

    method Put(val: Word)
      modifies cell
      ensures cell.word == Assign(mask, old(cell.word), val)
      ensures forall x: bit :: x in cell.word <==> if x in mask then x in val else x in old(cell.word)
    {
      cell.word := (cell.word - mask) + val * mask;
    }
  }

  /** One access through the view. */
  datatype Access = SetOne(b: bit) | ResetOne(b: bit) | AssignAll(val: Word)

  function Perform(mask: Word, word: Word, accesses: seq<Access>): Word
    decreases |accesses|
  {
    if accesses == [] then word else
    var w := match accesses[0]
             case SetOne(b) => SetBit(mask, word, b)
             case ResetOne(b) => ResetBit(mask, word, b)
             case AssignAll(val) => Assign(mask, word, val);
    Perform(mask, w, accesses[1..])
  }

  /** No sequence of accesses through the view touches a bit outside the mask. */
  lemma {:induction false} AccessesStayInMask(mask: Word, word: Word, accesses: seq<Access>)
    ensures Perform(mask, word, accesses) - mask == word - mask
    decreases |accesses|
  {
    if accesses != [] {
      var w := match accesses[0]
               case SetOne(b) => SetBit(mask, word, b)
               case ResetOne(b) => ResetBit(mask, word, b)
               case AssignAll(val) => Assign(mask, word, val);
      assert w - mask == word - mask;
      AccessesStayInMask(mask, w, accesses[1..]);
    }
  }
}
