/** Joining sequences. */
module Sequences {

  function Concat<T>(parts: seq<seq<T>>): seq<T> {
    if parts == [] then [] else Concat(parts[..|parts| - 1]) + parts[|parts| - 1]
  }

  lemma Assoc<T>(a: seq<T>, b: seq<T>, c: seq<T>)
    ensures (a + b) + c == a + (b + c)
  {
  }

  lemma AppendNothing<T>(s: seq<T>)
    ensures s + [] == s
  {
  }

  lemma ConcatSnoc<T>(parts: seq<seq<T>>, part: seq<T>)
    ensures Concat(parts + [part]) == Concat(parts) + part
  {
    assert (parts + [part])[..|parts|] == parts;
  }

  lemma {:induction false} ConcatConcat<T>(a: seq<seq<T>>, b: seq<seq<T>>)
    ensures Concat(a + b) == Concat(a) + Concat(b)
  {
    if b == [] {
      assert a + b == a;
    } else {
      var n := |b| - 1;
      assert a + b == (a + b[..n]) + [b[n]];
      ConcatSnoc(a + b[..n], b[n]);
      ConcatConcat(a, b[..n]);
      assert b == b[..n] + [b[n]];
    }
  }

  /** A property of all prefixes of s is one of all prefixes of its front, and of s. */
  lemma PrefixesSnoc<T>(s: seq<T>, pre: seq<T>, p: seq<T> -> bool)
    requires |s| == |pre| + 1 && s[..|pre|] == pre
    ensures (forall i | 0 <= i <= |s| :: p(s[..i])) <==> (forall i | 0 <= i <= |pre| :: p(pre[..i])) && p(s)
  {
    assert s[..|s|] == s;
    assert forall i | 0 <= i <= |pre| :: pre[..i] == s[..i];
    if (forall i | 0 <= i <= |pre| :: p(pre[..i])) && p(s) {
      forall i | 0 <= i <= |s| ensures p(s[..i]) {
        if i < |s| {
          assert p(pre[..i]);
        }
      }
    }
    if forall i | 0 <= i <= |s| :: p(s[..i]) {
      assert p(s[..|s|]);
    }
  }

  /** A property of all steps of s is one of all steps of its front, and of the last step. */
  lemma StepsSnoc<T>(s: seq<T>, pre: seq<T>, p: (seq<T>, T) -> bool)
    requires |s| == |pre| + 1 && s[..|pre|] == pre
    ensures (forall i | 0 <= i < |s| :: p(s[..i], s[i])) <==>
            (forall i | 0 <= i < |pre| :: p(pre[..i], pre[i])) && p(pre, s[|pre|])
  {
    assert forall i | 0 <= i < |pre| :: pre[..i] == s[..i] && pre[i] == s[i];
    if (forall i | 0 <= i < |pre| :: p(pre[..i], pre[i])) && p(pre, s[|pre|]) {
      forall i | 0 <= i < |s| ensures p(s[..i], s[i]) {
        if i < |pre| {
          assert p(pre[..i], pre[i]);
        }
      }
    }
    if forall i | 0 <= i < |s| :: p(s[..i], s[i]) {
      assert p(s[..|pre|], s[|pre|]);
    }
  }

  lemma FrontOfConcat<T>(a: seq<T>, b: seq<T>)
    requires b != []
    ensures (a + b)[..|a + b| - 1] == a + b[..|b| - 1] && (a + b)[|a + b| - 1] == b[|b| - 1]
  {
  }

  lemma SplitLast<T>(a: seq<T>, b: seq<T>)
    requires b != []
    ensures a + b == (a + b[..|b| - 1]) + [b[|b| - 1]] && b == b[..|b| - 1] + [b[|b| - 1]]
  {
  }

  lemma SliceOfPrefix<T>(s: seq<T>, n: nat, i: nat, j: nat)
    requires i <= j <= n <= |s|
    ensures s[..n][i..j] == s[i..j]
  {
  }

  lemma SliceSnoc<T>(s: seq<T>, i: nat)
    requires i < |s|
    ensures s[i..] == s[i..|s| - 1] + [s[|s| - 1]] && s[i..|s|] == s[i..]
  {
  }

  lemma MemberSnoc<T>(s: seq<T>, x: T)
    requires s != []
    ensures x in s <==> x in s[..|s| - 1] || x == s[|s| - 1]
  {
    assert s == s[..|s| - 1] + [s[|s| - 1]];
  }

  lemma PrefixStep<T>(s: seq<T>, i: nat)
    requires i < |s|
    ensures s[..i + 1] == s[..i] + [s[i]]
  {
  }

  lemma LastOfPrefix<T>(s: seq<T>, i: nat, a: seq<T>, v: T)
    requires i < |s| && |a| == i && s[..i + 1] == a + [v]
    ensures s[i] == v
  {
    assert s[..i + 1][i] == v;
  }

  // ---------------------------------------------------------------- first occurrences

  /** i is the first position of x. */
  ghost predicate FirstAt<T>(s: seq<T>, i: nat, x: T) {
    i < |s| && s[i] == x && x !in s[..i]
  }

  /** The first occurrence of x comes before the first occurrence of y. */
  ghost predicate FirstBefore<T>(s: seq<T>, x: T, y: T) {
    exists i: nat, j: nat :: i < j && FirstAt(s, i, x) && FirstAt(s, j, y)
  }

  lemma FirstAtLonger<T>(s: seq<T>, i: nat, x: T)
    requires s != [] && FirstAt(s[..|s| - 1], i, x)
    ensures FirstAt(s, i, x)
  {
    assert s[..|s| - 1][..i] == s[..i];
  }

  lemma FirstBeforeLonger<T>(s: seq<T>, x: T, y: T)
    requires s != [] && FirstBefore(s[..|s| - 1], x, y)
    ensures FirstBefore(s, x, y)
  {
    var i: nat, j: nat :| i < j && FirstAt(s[..|s| - 1], i, x) && FirstAt(s[..|s| - 1], j, y);
    FirstAtLonger(s, i, x);
    FirstAtLonger(s, j, y);
  }

  lemma {:induction false} FirstIndex<T>(s: seq<T>, x: T) returns (i: nat)
    requires x in s
    ensures FirstAt(s, i, x)
  {
    var n := |s| - 1;
    if x in s[..n] {
      i := FirstIndex(s[..n], x);
      FirstAtLonger(s, i, x);
    } else {
      assert s == s[..n] + [s[n]];
      i := n;
    }
  }

  /** A new last element comes first after everything before it. */
  lemma NewComesLast<T>(s: seq<T>, x: T)
    requires s != [] && x in s[..|s| - 1] && s[|s| - 1] !in s[..|s| - 1]
    ensures FirstBefore(s, x, s[|s| - 1])
  {
    var i := FirstIndex(s[..|s| - 1], x);
    FirstAtLonger(s, i, x);
    assert FirstAt(s, |s| - 1, s[|s| - 1]);
  }
}
