/** The optional-value wrapper and the sequence facts shared by the other modules. */
module Common {

  /** A Python value that may be `None`. */
  datatype Option<+T> = None | Some(value: T) {

    /** The wrapped value, or `default` when there is none. */
    function GetOr(default: T): T {
      match this
      case Some(v) => v
      case None => default
    }
  }

  // Facts about sequence concatenation and slicing, stated for any element
  // type so that the proofs that use them stay small.

  lemma ConcatAssoc<T>(a: seq<T>, b: seq<T>, c: seq<T>)
    ensures a + b + c == a + (b + c) && |b + c| == |b| + |c|
  {
  }

  lemma Regroup<T>(w1: seq<T>, a: seq<T>, s: seq<T>, b: seq<T>, w2: seq<T>)
    ensures w1 + (a + s + b) + w2 == (w1 + a) + s + (b + w2)
  {
  }

  lemma ThreeSlices<T>(s: seq<T>, i: nat, j: nat)
    requires i <= j <= |s|
    ensures s == s[..i] + s[i..j] + s[j..]
  {
  }

  lemma MiddleIndex<T>(a: seq<T>, b: seq<T>, c: seq<T>)
    requires b != []
    ensures |a| < |a + b + c| && (a + b + c)[|a|] == b[0]
  {
  }

  lemma ShiftedIndex<T>(a: seq<T>, b: seq<T>, k: nat)
    requires k < |b|
    ensures (a + b)[|a| + k] == b[k]
  {
  }
}
