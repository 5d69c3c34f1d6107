/** A fact about strings that the codecs share. */
module Strings {
  lemma Regroup(c: char, x: string, y: string)
    ensures ([c] + x) + y == [c] + (x + y)
  {
  }
}
