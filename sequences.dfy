/** Small facts about sequences used by the scans and the ordered hashes. */
module Sequences {

  predicate Distinct<T(==)>(s: seq<T>)
  {
    forall i, j | 0 <= i < j < |s| :: s[i] != s[j]
  }

  /** The elements of `s` in order of first appearance, each once: the key
      order of a Ruby Hash that was filled from `s`. */
  function Dedup<T(==)>(s: seq<T>): (r: seq<T>)
    ensures Distinct(r)
    ensures forall i | 0 <= i < |s| :: s[i] in r
    ensures forall i | 0 <= i < |r| :: r[i] in s
  {
    if s == [] then []
    else
      var init := Dedup(s[..|s| - 1]);
      if s[|s| - 1] in init then init else init + [s[|s| - 1]]
  }

  /** `x` occurs in `s` before some occurrence of `y`. */
  ghost predicate InOrder<T>(s: seq<T>, x: T, y: T)
  {
    exists i, j | 0 <= i < j < |s| :: s[i] == x && s[j] == y
  }

  /** Any two elements of `r` occur in `s` in the same order: `r` was
      picked out of `s` front to back. */
  ghost predicate KeepsOrder<T>(r: seq<T>, s: seq<T>)
  {
    forall a, b | 0 <= a < b < |r| :: InOrder(s, r[a], r[b])
  }

  /** Picking the head of `s` in front of what was picked from its tail, or
      leaving it out, keeps the order. */
  lemma KeepsOrderCons<T>(s: seq<T>, rest: seq<T>, keep: bool)
    requires s != []
    requires forall k | 0 <= k < |rest| :: rest[k] in s[1..]
    requires KeepsOrder(rest, s[1..])
    ensures KeepsOrder(if keep then [s[0]] + rest else rest, s)
  {
    var r := if keep then [s[0]] + rest else rest;
    var d := if keep then 1 else 0;
    forall a, b | 0 <= a < b < |r|
      ensures InOrder(s, r[a], r[b])
    {
      var t := s[1..];
      if keep && a == 0 {
        assert rest[b - 1] in t;
        var j :| 0 <= j < |t| && t[j] == rest[b - 1];
        assert s[0] == r[a] && s[j + 1] == r[b];
      } else {
        assert InOrder(t, rest[a - d], rest[b - d]);
        var i, j :| 0 <= i < j < |t| && t[i] == rest[a - d] && t[j] == rest[b - d];
        assert s[i + 1] == r[a] && s[j + 1] == r[b];
      }
    }
  }

  lemma DedupAppend<T>(s: seq<T>, x: T)
    ensures Dedup(s + [x]) == if x in s then Dedup(s) else Dedup(s) + [x]
  {
    assert (s + [x])[..|s|] == s;
  }
}
