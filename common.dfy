/** Small value types and string helpers shared by the whole model. */
module Common {

  /** A Java reference that may be null. */
  datatype Option<+T> = None | Some(value: T)

  /** The result of evaluating Java code that may throw (a null dereference,
      an IllegalStateException, ...): either a value or an exception. */
  datatype Eval<+T> = Returned(value: T) | Threw

  /** The outcome of an operation whose failure is one of a few named
      exceptions the caller can tell apart. */
  datatype Result<+T, +E> = Ok(value: T) | Err(error: E)

  /** ph-commons `StringHelper.hasText`: not null and not empty. */
  predicate HasText(s: Option<string>)
  {
    s.Some? && |s.value| > 0
  }

  predicate StartsWith(s: string, prefix: string)
  {
    |prefix| <= |s| && s[..|prefix|] == prefix
  }

  /** ph-commons `StringHelper.trimStart`: drops one leading occurrence of
      `prefix`, if there is one. */
  function TrimStart(s: string, prefix: string): (r: string)
    ensures StartsWith(s, prefix) ==> s == prefix + r
    ensures !StartsWith(s, prefix) ==> r == s
  {
    if StartsWith(s, prefix) then s[|prefix|..] else s
  }

  /** `t` occurs in `s` starting at index `i`. */
  predicate OccursAt(s: string, t: string, i: int)
  {
    0 <= i && i + |t| <= |s| && s[i..i + |t|] == t
  }

  /** Java `String.contains`. */
  predicate Contains(s: string, t: string)
  {
    exists i | 0 <= i <= |s| - |t| :: OccursAt(s, t, i)
  }

  /** No object appears twice in the list. */
  predicate Distinct<T(==)>(s: seq<T>)
  {
    forall i, j :: 0 <= i < j < |s| ==> s[i] != s[j]
  }
}
