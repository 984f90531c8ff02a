/** The first element of a sequence with a given property. */
module Searching {

  /** Its position, or the length of the sequence. */
  function Find<T>(s: seq<T>, p: T -> bool): (k: nat)
    ensures k <= |s| && (k < |s| ==> p(s[k])) && forall i :: 0 <= i < k ==> !p(s[i])
  {
    if s == [] || p(s[0]) then 0 else 1 + Find(s[1..], p)
  }

  lemma FindIs<T>(s: seq<T>, p: T -> bool, k: nat)
    requires k <= |s| && (k < |s| ==> p(s[k])) && forall i :: 0 <= i < k ==> !p(s[i])
    ensures Find(s, p) == k
  {
  }
}
