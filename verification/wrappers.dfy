/** The optional-value type used wherever the analyser returns `None` or a value, and one fact about sequences used throughout. */
module Wrappers {

  datatype Option<+T> = None | Some(value: T) {

    /** The carried value, or `default` when there is none */
    function GetOr(default: T): T {
      match this
      case Some(v) => v
      case None => default
    }
  }

  /** The members of a sequence with an element in front */
  lemma InCons<T>(a: T, rest: seq<T>, x: T)
    ensures x in [a] + rest <==> x == a || x in rest
  {
  }

  /** The members of a concatenation */
  lemma InAppend<T>(a: seq<T>, b: seq<T>, x: T)
    ensures x in a + b <==> x in a || x in b
  {
  }

  /** Concatenation is associative. */
  lemma AppendAssoc<T>(a: seq<T>, b: seq<T>, c: seq<T>)
    ensures (a + b) + c == a + (b + c)
  {
  }
}
