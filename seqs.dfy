/** Generic sequence helpers: concatenation of a sequence of sequences and
    element-wise mapping, with the facts about them the model relies on. */
module Seqs {

  /** Concatenation of all the pieces, in order (Go's repeated `+=`). */
  function Flatten<T>(ss: seq<seq<T>>): seq<T>
  {
    if ss == [] then [] else Flatten(ss[..|ss| - 1]) + ss[|ss| - 1]
  }

  /** `f` applied to every element, in order. */
  function MapSeq<A, B>(s: seq<A>, f: A -> B): (r: seq<B>)
    ensures |r| == |s|
    ensures forall i :: 0 <= i < |s| ==> r[i] == f(s[i])
  {
    seq(|s|, i requires 0 <= i < |s| => f(s[i]))
  }

  /** A prefix of a suffix is a slice. */
  lemma SliceOfSlice<T>(s: seq<T>, k: nat, n: nat)
    requires k + n <= |s|
    ensures s[k..][..n] == s[k..k + n]
  {
  }

  /** Concatenation is associative. */
  lemma AppendAssoc<T>(a: seq<T>, b: seq<T>, c: seq<T>)
    ensures (a + b) + c == a + (b + c)
  {
  }

  /** Mapping distributes over concatenation. */
  lemma MapAppend<A, B>(a: seq<A>, b: seq<A>, f: A -> B)
    ensures MapSeq(a + b, f) == MapSeq(a, f) + MapSeq(b, f)
  {
  }

  lemma {:induction false} FlattenAppend<T>(a: seq<seq<T>>, b: seq<seq<T>>)
    ensures Flatten(a + b) == Flatten(a) + Flatten(b)
    decreases |b|
  {
    if b == [] {
      assert a + b == a;
    } else {
      var init, last := b[..|b| - 1], b[|b| - 1];
      assert (a + b)[..|a + b| - 1] == a + init;
      assert (a + b)[|a + b| - 1] == last;
      FlattenAppend(a, init);
      AppendAssoc(Flatten(a), Flatten(init), last);
    }
  }

  /** Re-associating a head, its tail and what follows. */
  lemma ConsAppend<T>(s: seq<T>, x: seq<T>)
    requires s != []
    ensures [s[0]] + (s[1..] + x) == s + x
  {
    assert s == [s[0]] + s[1..];
  }

  lemma FlattenSingle<T>(s: seq<T>)
    ensures Flatten([s]) == s
  {
    assert [s][..0] == [];
  }

  /** Mapping distributes over the concatenation of the pieces: mapping the
      whole is concatenating the mapped pieces `ts`. */
  lemma {:induction false} MapFlatten<A, B>(ss: seq<seq<A>>, f: A -> B, ts: seq<seq<B>>)
    requires |ts| == |ss|
    requires forall i :: 0 <= i < |ss| ==> ts[i] == MapSeq(ss[i], f)
    ensures MapSeq(Flatten(ss), f) == Flatten(ts)
    decreases |ss|
  {
    if ss != [] {
      var n := |ss| - 1;
      MapFlatten(ss[..n], f, ts[..n]);
      MapAppend(Flatten(ss[..n]), ss[n], f);
    }
  }

  /** Concatenating pieces that are themselves concatenations (`ts[i]` is
      the concatenation of `sss[i]`) is one concatenation of all their parts. */
  lemma {:induction false} FlattenFlatten<T>(sss: seq<seq<seq<T>>>, ts: seq<seq<T>>)
    requires |ts| == |sss|
    requires forall i :: 0 <= i < |sss| ==> ts[i] == Flatten(sss[i])
    ensures Flatten(Flatten(sss)) == Flatten(ts)
    decreases |sss|
  {
    if sss != [] {
      var n := |sss| - 1;
      FlattenFlatten(sss[..n], ts[..n]);
      FlattenAppend(Flatten(sss[..n]), sss[n]);
    }
  }
}
