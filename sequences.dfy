/** Sequence operations the splitter is built from: `reverse` and `map(...).filter(Boolean)`. */
module Sequences {
  import opened Options

  /** The elements of `s` in the opposite order (`s.slice().reverse()`). */
  function Reverse<T>(s: seq<T>): (r: seq<T>)
    ensures |r| == |s|
    ensures forall i :: 0 <= i < |s| ==> r[i] == s[|s| - 1 - i]
  {
    if s == [] then [] else [s[|s| - 1]] + Reverse(s[..|s| - 1])
  }

  /** How many elements of `s` the map `f` keeps. */
  function CountSome<A, B>(f: A -> Option<B>, s: seq<A>): (n: nat)
    ensures n <= |s|
  {
    if s == [] then 0 else (if f(s[0]).Some? then 1 else 0) + CountSome(f, s[1..])
  }

  /** `s.map(f).filter(Boolean)`: the present images of the elements of `s`, in order. */
  function FilterMap<A, B>(f: A -> Option<B>, s: seq<A>): (r: seq<B>)
    ensures |r| == CountSome(f, s)
  {
    if s == [] then []
    else
      var rest := FilterMap(f, s[1..]);
      match f(s[0])
      case None => rest
      case Some(b) => [b] + rest
  }

  /** Every element of the result is the image of an element of `s`, found after as many kept elements as its position. */
  lemma {:induction false} FilterMapFrom<A, B>(f: A -> Option<B>, s: seq<A>, k: nat)
    requires k < |FilterMap(f, s)|
    ensures exists i :: 0 <= i < |s| && f(s[i]) == Some(FilterMap(f, s)[k]) && CountSome(f, s[..i]) == k
  {
    assert s != [];
    assert s[..0] == [];
    if f(s[0]).None? || k > 0 {
      var k' := if f(s[0]).None? then k else k - 1;
      FilterMapFrom(f, s[1..], k');
      var i :| 0 <= i < |s[1..]| && f(s[1..][i]) == Some(FilterMap(f, s[1..])[k']) && CountSome(f, s[1..][..i]) == k';
      assert s[..i + 1][1..] == s[1..][..i];
      assert f(s[i + 1]) == Some(FilterMap(f, s)[k]) && CountSome(f, s[..i + 1]) == k;
    }
  }

  /** An element of `s` that `f` keeps lands at the position given by the number of kept elements before it. */
  lemma {:induction false} FilterMapAt<A, B>(f: A -> Option<B>, s: seq<A>, i: nat)
    requires i < |s| && f(s[i]).Some?
    ensures CountSome(f, s[..i]) < |FilterMap(f, s)|
    ensures FilterMap(f, s)[CountSome(f, s[..i])] == f(s[i]).value
  {
    if i == 0 {
      assert s[..0] == [];
    } else {
      FilterMapAt(f, s[1..], i - 1);
      assert s[..i][0] == s[0];
      assert s[..i][1..] == s[1..][..i - 1];
    }
  }

  /** A property every kept image has holds of every element of the result. */
  lemma {:induction false} FilterMapKeeps<A, B>(f: A -> Option<B>, s: seq<A>, P: B -> bool)
    requires forall i :: 0 <= i < |s| && f(s[i]).Some? ==> P(f(s[i]).value)
    ensures forall k :: 0 <= k < |FilterMap(f, s)| ==> P(FilterMap(f, s)[k])
  {
    if s != [] {
      FilterMapKeeps(f, s[1..], P);
    }
  }

  /** Appending one element appends its image, if it has one. */
  lemma {:induction false} FilterMapSnoc<A, B>(f: A -> Option<B>, s: seq<A>, x: A)
    ensures FilterMap(f, s + [x]) == FilterMap(f, s) + (if f(x).Some? then [f(x).value] else [])
  {
    if s == [] {
      assert [x][1..] == [];
    } else {
      assert (s + [x])[0] == s[0];
      assert (s + [x])[1..] == s[1..] + [x];
      FilterMapSnoc(f, s[1..], x);
    }
  }

  /** When `f` keeps every element, the result is `s` mapped through `f`, position by position. */
  lemma {:induction false} FilterMapAllSome<A, B>(f: A -> Option<B>, s: seq<A>)
    requires forall i :: 0 <= i < |s| ==> f(s[i]).Some?
    ensures |FilterMap(f, s)| == |s|
    ensures forall i :: 0 <= i < |s| ==> FilterMap(f, s)[i] == f(s[i]).value
  {
    if s != [] {
      FilterMapAllSome(f, s[1..]);
    }
  }

  /** When `f` returns every element unchanged, filtering changes nothing. */
  lemma FilterMapIdentity<A>(f: A -> Option<A>, s: seq<A>)
    requires forall i :: 0 <= i < |s| ==> f(s[i]) == Some(s[i])
    ensures FilterMap(f, s) == s
  {
    FilterMapAllSome(f, s);
  }

  /** The result is empty exactly when `f` keeps nothing. */
  lemma FilterMapEmpty<A, B>(f: A -> Option<B>, s: seq<A>)
    ensures FilterMap(f, s) == [] <==> forall i :: 0 <= i < |s| ==> f(s[i]).None?
  {
    if exists i :: 0 <= i < |s| && f(s[i]).Some? {
      var i :| 0 <= i < |s| && f(s[i]).Some?;
      FilterMapAt(f, s, i);
    } else if FilterMap(f, s) != [] {
      FilterMapFrom(f, s, 0);
    }
  }
}
