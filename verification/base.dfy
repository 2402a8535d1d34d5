/** Shared value types. A Java reference that may be null becomes an `Option`. */
module Base {

  datatype Option<+T> = None | Some(value: T) {

    /** The value, or `default` when it is absent. */
    function GetOr(default: T): T {
      if Some? then value else default
    }
  }

  /** How Java's string concatenation and `%s` render a possibly-null string. */
  function NullText(o: Option<string>): string {
    if o.Some? then o.value else "null"
  }

  /** Concatenation regrouped; stated once so that proofs about long element types need not redo it. */
  lemma ConcatAssoc<T>(a: seq<T>, b: seq<T>, c: seq<T>)
    ensures a + (b + c) == (a + b) + c
  {
  }
}
