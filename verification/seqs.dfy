/** First-match search over sequences: the common shape of every `select_one` and
    `find_next_sibling` call of the scraper, which return the first element in document
    order that satisfies a selector. */
module Seqs {
  import opened Wrappers

  /** Index of the first element of `s` satisfying `p`, if any. */
  function FindFirst<T>(p: T -> bool, s: seq<T>): (r: Option<nat>)
    ensures r.Some? ==> r.value < |s| && p(s[r.value])
    ensures r.Some? ==> forall j :: 0 <= j < r.value ==> !p(s[j])
    ensures r.None? <==> forall j :: 0 <= j < |s| ==> !p(s[j])
  {
    if s == [] then None
    else if p(s[0]) then Some(0)
    else match FindFirst(p, s[1..])
      case Some(i) => Some(i + 1)
      case None => None
  }

  /** The first element of `s` satisfying `p`, if any. */
  function First<T>(p: T -> bool, s: seq<T>): (r: Option<T>)
    ensures r.Some? ==> r.value in s && p(r.value)
    ensures r.None? <==> forall x :: x in s ==> !p(x)
    ensures r.Some? ==> exists i :: 0 <= i < |s| && s[i] == r.value && forall j :: 0 <= j < i ==> !p(s[j])
  {
    match FindFirst(p, s)
    case Some(i) => Some(s[i])
    case None => None
  }
}
