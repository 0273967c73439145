/** Shared value types. */
module Basics {
  datatype Option<+T> = None | Some(value: T)

  lemma Assoc<T>(a: seq<T>, b: seq<T>, c: seq<T>)
    ensures (a + b) + c == a + (b + c)
  {
  }

  /** Taking an element out commutes with taking off the last one. */
  lemma RemoveInit<T>(s: seq<T>, j: nat)
    requires j < |s| - 1
    ensures var init := s[..|s| - 1]; s[..j] + s[j + 1..] == (init[..j] + init[j + 1..]) + [s[|s| - 1]]
  {
  }
}
