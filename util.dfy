/** Small shared definitions: an Option type, concatenation of a sequence
    of sequences (and of the images of a sequence under a function), and
    Python's ASCII upper-casing of strings. */
module Util {

  datatype Option<+T> = None | Some(value: T)

  /** The concatenation ss[0] + ss[1] + ... + ss[|ss|-1]. */
  function Flatten<T>(ss: seq<seq<T>>): seq<T>
  {
    if ss == [] then [] else Flatten(ss[..|ss| - 1]) + ss[|ss| - 1]
  }

  lemma FlattenAppend<T>(ss: seq<seq<T>>, t: seq<T>)
    ensures Flatten(ss + [t]) == Flatten(ss) + t
  {
    assert (ss + [t])[..|ss|] == ss;
  }

  /** The concatenation f(xs[0]) + f(xs[1]) + ... + f(xs[|xs|-1]). */
  function FlatMap<A, B>(f: A -> seq<B>, xs: seq<A>): seq<B>
  {
    if xs == [] then [] else FlatMap(f, xs[..|xs| - 1]) + f(xs[|xs| - 1])
  }

  lemma FlatMapSnoc<A, B>(f: A -> seq<B>, xs: seq<A>, x: A)
    ensures FlatMap(f, xs + [x]) == FlatMap(f, xs) + f(x)
  {
    assert (xs + [x])[..|xs|] == xs;
  }

  lemma {:induction false} FlatMapAppend<A, B>(f: A -> seq<B>, a: seq<A>, b: seq<A>)
    ensures FlatMap(f, a + b) == FlatMap(f, a) + FlatMap(f, b)
    decreases |b|
  {
    if b == [] {
      assert a + b == a;
    } else {
      var init := b[..|b| - 1];
      var last := b[|b| - 1];
      assert a + b == (a + init) + [last];
      assert b == init + [last];
      FlatMapSnoc(f, a + init, last);
      FlatMapSnoc(f, init, last);
      FlatMapAppend(f, a, init);
      AppendAssoc(FlatMap(f, a), FlatMap(f, init), f(last));
    }
  }

  /** a is a prefix of a + b. */
  lemma PrefixAppend<T>(a: seq<T>, b: seq<T>)
    ensures a <= a + b
  {
    assert (a + b)[..|a|] == a;
  }

  /** Being a prefix is transitive. */
  lemma PrefixTrans<T>(a: seq<T>, b: seq<T>, c: seq<T>)
    requires a <= b && b <= c
    ensures a <= c
  {
    assert forall i :: 0 <= i < |a| ==> a[i] == b[i] == c[i];
  }

  /** A sequence that starts with a + [x] holds a, then x. */
  lemma PrefixNext<T>(a: seq<T>, x: T, s: seq<T>)
    requires a + [x] <= s
    ensures |a| < |s| && s[..|a|] == a && s[|a|] == x
  {
    assert s[|a|] == (a + [x])[|a|];
  }

  lemma AppendAssoc<T>(a: seq<T>, b: seq<T>, c: seq<T>)
    ensures (a + b) + c == a + (b + c)
  {
  }

  /** Two sequences each sorted under lt, with every element of the first
      before every element of the second, concatenate to a sorted sequence. */
  lemma AppendSorted<T>(a: seq<T>, b: seq<T>, lt: (T, T) -> bool)
    requires forall x, y :: 0 <= x < y < |a| ==> lt(a[x], a[y])
    requires forall x, y :: 0 <= x < y < |b| ==> lt(b[x], b[y])
    requires forall x, y :: x in a && y in b ==> lt(x, y)
    ensures forall x, y :: 0 <= x < y < |a + b| ==> lt((a + b)[x], (a + b)[y])
  {
    forall x, y | 0 <= x < y < |a + b|
      ensures lt((a + b)[x], (a + b)[y])
    {
      if y < |a| {
        assert (a + b)[x] == a[x] && (a + b)[y] == a[y];
      } else if x >= |a| {
        assert (a + b)[x] == b[x - |a|] && (a + b)[y] == b[y - |a|];
      } else {
        assert (a + b)[x] in a && (a + b)[y] in b;
      }
    }
  }

  /** Strictly increasing. */
  predicate Increasing(p: seq<nat>)
  {
    forall a, b :: 0 <= a < b < |p| ==> p[a] < p[b]
  }

  /** Upper-casing of one character, agreeing with Python's str.upper() on
      ASCII: 'a'..'z' become 'A'..'Z' and other ASCII characters stay.
      Python's Unicode case mapping of non-ASCII characters (which may
      change the length of the string) is not modelled: they are kept. */
  function UpperChar(c: char): (u: char)
    ensures 'a' <= c <= 'z' ==> 'A' <= u <= 'Z' && u as int - 'A' as int == c as int - 'a' as int
    ensures !('a' <= c <= 'z') ==> u == c
  {
    if 'a' <= c <= 'z' then (c as int - 'a' as int + 'A' as int) as char else c
  }

  function Upper(s: string): (u: string)
    ensures |u| == |s|
    ensures forall i :: 0 <= i < |s| ==> u[i] == UpperChar(s[i])
  {
    seq(|s|, i requires 0 <= i < |s| => UpperChar(s[i]))
  }
}
