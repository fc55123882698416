/** Small shared vocabulary: optional values, record identifiers and the
    ASCII lower-casing that Mongoose applies to e-mail addresses. */
module Common {

  datatype Option<+T> = None | Some(value: T)

  /** A document identifier. Every store draws its identifiers from one
      increasing counter, so identifiers are also creation order. */
  type Id = nat

  predicate Distinct<T(==)>(s: seq<T>) {
    forall i, j :: 0 <= i < j < |s| ==> s[i] != s[j]
  }

  function LowerChar(c: char): (d: char)
    ensures 'A' <= c <= 'Z' ==> 'a' <= d <= 'z' && d as int == c as int + 32
    ensures !('A' <= c <= 'Z') ==> d == c
  {
    if 'A' <= c <= 'Z' then (c as int + 32) as char else c
  }

  predicate IsLower(s: string) {
    forall i :: 0 <= i < |s| ==> !('A' <= s[i] <= 'Z')
  }

  /** String.prototype.toLowerCase restricted to ASCII letters. */
  function Lower(s: string): (r: string)
    ensures |r| == |s| && IsLower(r)
    ensures forall i :: 0 <= i < |s| ==> r[i] == LowerChar(s[i])
  {
    if s == [] then [] else [LowerChar(s[0])] + Lower(s[1..])
  }

  /** Lower-casing twice is lower-casing once, so a stored (already lowered)
      e-mail matches a query for itself. */
  lemma {:induction false} LowerOfLower(s: string)
    requires IsLower(s)
    ensures Lower(s) == s
  {
    if s != [] {
      LowerOfLower(s[1..]);
    }
  }
}
