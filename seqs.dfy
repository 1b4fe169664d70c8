/** Facts about sequence concatenation, proved once for any element type. */
module Seqs {

  lemma AppendAssoc<T>(x: seq<T>, y: seq<T>, z: seq<T>)
    ensures (x + y) + z == x + (y + z)
  {
  }

  /** A non-empty sequence is its front followed by its last element. */
  lemma SplitLast<T>(s: seq<T>)
    requires s != []
    ensures s == s[..|s| - 1] + [s[|s| - 1]]
  {
  }

  /** A prefix one longer is the prefix followed by the next element. */
  lemma TakeNext<T>(s: seq<T>, n: nat)
    requires n < |s|
    ensures s[..n + 1] == s[..n] + [s[n]]
  {
  }

  lemma DropFirst<T>(x: T, s: seq<T>)
    ensures ([x] + s)[1..] == s
  {
  }

  /** A suffix cut in two at j. */
  lemma SplitSuffix<T>(s: seq<T>, i: nat, j: nat)
    requires i <= j <= |s|
    ensures s[i..] == s[i..j] + s[j..]
  {
  }

  /** The three parts of a three-part concatenation, cut out again. */
  lemma ThreeParts<T>(x: seq<T>, y: seq<T>, z: seq<T>)
    ensures var s := x + y + z;
      s[..|x|] == x && s[|x|..|x| + |y|] == y && s[|x| + |y|..] == z
  {
  }
}
