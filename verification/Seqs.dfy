/** Facts about cutting and splicing sequences, kept apart so that proofs can cite them cheaply. */
module Seqs {

  lemma Cut<T>(s: seq<T>, i: nat, j: nat)
    requires i <= j <= |s|
    ensures s == s[..i] + s[i..j] + s[j..]
  {
  }

  lemma Pieces<T>(a: seq<T>, b: seq<T>, c: seq<T>)
    ensures (a + b + c)[..|a|] == a
    ensures (a + b + c)[|a|..|a| + |b|] == b
    ensures (a + b + c)[|a| + |b|..] == c
  {
  }

  lemma Assoc<T>(a: seq<T>, b: seq<T>, c: seq<T>)
    ensures a + b + c == a + (b + c)
  {
  }

  lemma Update<T>(s: seq<T>, i: nat, x: T)
    requires i < |s|
    ensures s[i := x] == s[..i] + [x] + s[i + 1..]
    ensures s == s[..i] + [s[i]] + s[i + 1..]
  {
  }

  lemma ReplaceInside<T>(s: seq<T>, start: nat, end: nat, i: nat, x: T)
    requires start <= end <= |s| && i < end - start
    ensures s[start + i := x] == s[..start] + s[start..end][i := x] + s[end..]
  {
  }

  lemma InsertInside<T>(s: seq<T>, start: nat, end: nat, i: nat, x: T)
    requires start <= end <= |s| && i <= end - start
    ensures s[..start + i] + [x] + s[start + i..]
         == s[..start] + (s[start..end][..i] + [x] + s[start..end][i..]) + s[end..]
  {
    assert s[..start + i] == s[..start] + s[start..end][..i];
    assert s[start + i..] == s[start..end][i..] + s[end..];
  }

  lemma MemberOfPieces<T>(a: seq<T>, b: seq<T>, c: seq<T>, x: T)
    ensures x in a + b + c <==> x in a || x in b || x in c
  {
  }
}
