/**
 * The two iterator adaptors the readers use: `Iterator::find` (every lookup)
 * and `Iterator::filter_map` (turning the lines of a file into records).
 */
module Seqs {
  import opened Wrappers

  /** Index of the first element satisfying `p`, or `|s|` when there is none. */
  function FirstIndex<T>(s: seq<T>, p: T -> bool): (i: nat)
    ensures i <= |s|
    ensures forall j :: 0 <= j < i ==> !p(s[j])
    ensures i < |s| ==> p(s[i])
  {
    if s == [] then 0
    else if p(s[0]) then 0
    else 1 + FirstIndex(s[1..], p)
  }

  /** `s.iter().find(p)`: the first element satisfying `p`, if any. */
  function Find<T>(s: seq<T>, p: T -> bool): (r: Option<T>)
    ensures r.None? <==> forall j :: 0 <= j < |s| ==> !p(s[j])
    ensures r.Some? ==> p(r.value)
    ensures r.Some? ==> exists i :: 0 <= i < |s| && s[i] == r.value && forall j :: 0 <= j < i ==> !p(s[j])
  {
    var i := FirstIndex(s, p);
    if i < |s| then Some(s[i]) else None
  }

  /** `s.iter().filter_map(f).collect()`: the `Some` payloads of `f`, in order. */
  function FilterMap<A, B>(s: seq<A>, f: A -> Option<B>): (r: seq<B>)
    ensures |r| <= |s|
    ensures forall k :: 0 <= k < |r| ==> exists j :: 0 <= j < |s| && f(s[j]) == Some(r[k])
    ensures (forall j :: 0 <= j < |s| ==> f(s[j]).None?) <==> r == []
  {
    if s == [] then []
    else
      var rest := FilterMap(s[1..], f);
      assert forall j :: 0 < j < |s| ==> s[j] == s[1..][j - 1];
      match f(s[0])
      case Some(b) => [b] + rest
      case None => rest
  }

  /** filter_map distributes over concatenation, so the order of `s` is kept. */
  lemma {:induction false} FilterMapAppend<A, B>(a: seq<A>, b: seq<A>, f: A -> Option<B>)
    ensures FilterMap(a + b, f) == FilterMap(a, f) + FilterMap(b, f)
  {
    if a == [] {
      assert a + b == b;
    } else {
      assert (a + b)[1..] == a[1..] + b;
      FilterMapAppend(a[1..], b, f);
    }
  }

  /** When `f` succeeds on every element, filter_map keeps them all, in order. */
  lemma {:induction false} FilterMapAllSome<A, B>(s: seq<A>, f: A -> Option<B>, t: seq<B>)
    requires |s| == |t|
    requires forall k :: 0 <= k < |s| ==> f(s[k]) == Some(t[k])
    ensures FilterMap(s, f) == t
  {
    if s != [] {
      FilterMapAllSome(s[1..], f, t[1..]);
    }
  }
}
