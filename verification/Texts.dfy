/** Python's `in` between strings. */
module Texts {
  predicate Contains(text: string, part: string) {
    exists i :: 0 <= i <= |text| && part <= text[i..]
  }
}
