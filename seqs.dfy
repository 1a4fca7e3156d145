/** Flattening of nested sequences, the `Array.prototype.flat()` step of the
    published-style projection, with the facts about it that the projection
    needs: its length, how it distributes over concatenation, which element
    sits where, and what it contains. */
module Seqs {

  /** Sum of the lengths of the inner sequences. */
  function TotalLength<T>(ss: seq<seq<T>>): nat {
    if ss == [] then 0 else |ss[0]| + TotalLength(ss[1..])
  }

  /** One level of flattening: the inner sequences one after another. */
  function Flatten<T>(ss: seq<seq<T>>): (r: seq<T>)
    ensures |r| == TotalLength(ss)
  {
    if ss == [] then [] else ss[0] + Flatten(ss[1..])
  }

  lemma {:induction false} TotalLengthAppend<T>(a: seq<seq<T>>, b: seq<seq<T>>)
    ensures TotalLength(a + b) == TotalLength(a) + TotalLength(b)
  {
    if a != [] {
      assert (a + b)[1..] == a[1..] + b;
      TotalLengthAppend(a[1..], b);
    } else {
      assert a + b == b;
    }
  }

  lemma {:induction false} FlattenAppend<T>(a: seq<seq<T>>, b: seq<seq<T>>)
    ensures Flatten(a + b) == Flatten(a) + Flatten(b)
  {
    if a != [] {
      assert (a + b)[1..] == a[1..] + b;
      FlattenAppend(a[1..], b);
    } else {
      assert a + b == b;
    }
  }

  /** The prefix of `Flatten(ss)` that ends `j` elements into `ss[i]`. */
  lemma {:induction false} FlattenPrefix<T>(ss: seq<seq<T>>, i: nat, j: nat)
    requires i < |ss| && j <= |ss[i]|
    ensures TotalLength(ss[..i]) + j <= |Flatten(ss)|
    ensures Flatten(ss)[..TotalLength(ss[..i]) + j] == Flatten(ss[..i]) + ss[i][..j]
  {
    if i == 0 {
      assert ss[..0] == [];
    } else {
      assert ss[..i][1..] == ss[1..][..i - 1];
      assert ss[1..][i - 1] == ss[i];
      FlattenPrefix(ss[1..], i - 1, j);
      assert Flatten(ss[..i]) == ss[0] + Flatten(ss[1..][..i - 1]);
    }
  }

  /** Element `j` of `ss[i]` sits at offset `TotalLength(ss[..i]) + j` of the flattening. */
  lemma {:induction false} FlattenAt<T>(ss: seq<seq<T>>, i: nat, j: nat)
    requires i < |ss| && j < |ss[i]|
    ensures TotalLength(ss[..i]) + j < |Flatten(ss)|
    ensures Flatten(ss)[TotalLength(ss[..i]) + j] == ss[i][j]
  {
    FlattenPrefix(ss, i, j + 1);
    var p := TotalLength(ss[..i]) + j;
    assert Flatten(ss)[p] == Flatten(ss)[..p + 1][p];
  }

  /** An element is in the flattening exactly when it is in one of the inner sequences. */
  lemma {:induction false} FlattenContains<T>(ss: seq<seq<T>>, x: T)
    ensures x in Flatten(ss) <==> exists s :: s in ss && x in s
  {
    if ss != [] {
      FlattenContains(ss[1..], x);
      if x in Flatten(ss[1..]) {
        var s :| s in ss[1..] && x in s;
        assert s in ss;
      }
      forall s | s in ss && x in s
        ensures x in Flatten(ss)
      {
        if s != ss[0] {
          assert s in ss[1..];
        }
      }
    }
  }

  /** Number of elements of `s` that satisfy `p`. */
  function Count<T>(s: seq<T>, p: T -> bool): (n: nat)
    ensures n <= |s|
  {
    if s == [] then 0 else (if p(s[0]) then 1 else 0) + Count(s[1..], p)
  }

  lemma {:induction false} CountAppend<T>(a: seq<T>, b: seq<T>, p: T -> bool)
    ensures Count(a + b, p) == Count(a, p) + Count(b, p)
  {
    if a != [] {
      assert (a + b)[0] == a[0];
      assert (a + b)[1..] == a[1..] + b;
      CountAppend(a[1..], b, p);
    } else {
      assert a + b == b;
    }
  }

  lemma CountOne<T>(x: T, p: T -> bool)
    ensures Count([x], p) == if p(x) then 1 else 0
  {
    assert [x][1..] == [];
  }
}
