/** What several parts of the model share. */
module Basics {

  /** A value or its absence, as for a null result. */
  datatype Option<+T> = None | Some(value: T)

  ghost predicate NoDup<T>(l: seq<T>) { forall i, j :: 0 <= i < j < |l| ==> l[i] != l[j] }

  /** c_tolower (src/util/conv.c:553-584). */
  function Lower(c: char): char { if 'A' <= c <= 'Z' then c - 'A' + 'a' else c }

  /** The same letter in another case, in ASCII. */
  predicate OtherCase(c: char, d: char) {
    (('A' <= c <= 'Z' && 'a' <= d <= 'z') || ('a' <= c <= 'z' && 'A' <= d <= 'Z'))
    && (c as int - d as int == 32 || d as int - c as int == 32)
  }

  /** It makes just the two cases of a letter the same. */
  lemma LowerTells(c: char, d: char)
    ensures Lower(c) == Lower(d) <==> c == d || OtherCase(c, d)
    ensures !('A' <= Lower(c) <= 'Z')
  {
  }
}
