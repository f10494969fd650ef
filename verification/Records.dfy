/** JavaScript's insertion-ordered maps and string records, as the lists of entries they iterate. */
module Records {
  import opened Text

  type Record = seq<(string, string)>

  /** `map.set(key, value)`: a key already present keeps its place. */
  function Put(r: Record, key: string, value: string): Record {
    if r == [] then [(key, value)]
    else if r[0].0 == key then [(key, value)] + r[1..]
    else [r[0]] + Put(r[1..], key, value)
  }

  function Get(r: Record, key: string): Option<string> {
    if r == [] then None
    else if r[0].0 == key then Some(r[0].1)
    else Get(r[1..], key)
  }

  function Keys(r: Record): set<string> {
    set i | 0 <= i < |r| :: r[i].0
  }

  /** Two records answer every lookup alike; only their iteration order may differ. */
  ghost predicate SameReading(a: Record, b: Record) {
    forall k :: Get(a, k) == Get(b, k)
  }

  predicate DistinctKeys(r: Record) {
    forall i, j :: 0 <= i < j < |r| ==> r[i].0 != r[j].0
  }

  lemma {:induction false} GetPut(r: Record, key: string, value: string, k: string)
    ensures Get(Put(r, key, value), k) == if k == key then Some(value) else Get(r, k)
  {
    if r != [] && r[0].0 != key {
      GetPut(r[1..], key, value, k);
      assert Put(r, key, value)[1..] == Put(r[1..], key, value);
    } else if r != [] {
      assert Put(r, key, value)[1..] == r[1..];
    }
  }

  lemma {:induction false} GetKeys(r: Record, k: string)
    ensures Get(r, k).Some? <==> k in Keys(r)
  {
    if r != [] {
      GetKeys(r[1..], k);
      assert r == [r[0]] + r[1..];
      assert forall i :: 0 <= i < |r[1..]| ==> r[1..][i] == r[i + 1];
      if r[0].0 != k && k in Keys(r) {
        var i :| 0 <= i < |r| && r[i].0 == k;
        assert r[1..][i - 1].0 == k;
      }
    }
  }

  lemma {:induction false} PutKeys(r: Record, key: string, value: string)
    ensures Keys(Put(r, key, value)) == Keys(r) + {key}
  {
    hide Keys;
    if r == [] {
      KeysCons((key, value), []);
      assert [(key, value)] + [] == Put(r, key, value);
      NoKeys();
    } else {
      PutKeys(r[1..], key, value);
      assert r == [r[0]] + r[1..];
      KeysCons(r[0], r[1..]);
      KeysCons(r[0], Put(r[1..], key, value));
      KeysCons((key, value), r[1..]);
    }
  }

  lemma {:induction false} PutDistinct(r: Record, key: string, value: string)
    requires DistinctKeys(r)
    ensures DistinctKeys(Put(r, key, value))
    ensures Keys(Put(r, key, value)) == Keys(r) + {key}
  {
    PutKeys(r, key, value);
    hide Keys;
    if r != [] && r[0].0 == key {
      assert forall i :: 0 <= i < |r| ==> Put(r, key, value)[i].0 == r[i].0;
    } else if r != [] {
      TailDistinct(r);
      PutDistinct(r[1..], key, value);
      ConsDistinct(r[0], Put(r[1..], key, value));
    }
  }

  lemma NoKeys()
    ensures Keys([]) == {}
  {
  }

  lemma TailDistinct(r: Record)
    requires r != [] && DistinctKeys(r)
    ensures DistinctKeys(r[1..]) && r[0].0 !in Keys(r[1..])
  {
    assert forall i :: 0 <= i < |r[1..]| ==> r[1..][i] == r[i + 1];
  }

  lemma ConsDistinct(e: (string, string), r: Record)
    requires DistinctKeys(r) && e.0 !in Keys(r)
    ensures DistinctKeys([e] + r)
  {
    assert forall i :: 0 <= i < |r| ==> r[i].0 in Keys(r);
  }

  lemma KeysCons(e: (string, string), r: Record)
    ensures Keys([e] + r) == {e.0} + Keys(r)
  {
    var s := [e] + r;
    forall k | k in Keys(r) ensures k in Keys(s) {
      var i :| 0 <= i < |r| && r[i].0 == k;
      assert s[i + 1].0 == k;
    }
    assert s[0].0 in Keys(s);
  }

  lemma KeysOfSameKeys(a: Record, b: Record)
    requires |a| == |b| && forall i :: 0 <= i < |a| ==> a[i].0 == b[i].0
    ensures Keys(a) == Keys(b)
  {
    assert forall k :: k in Keys(a) <==> exists i :: 0 <= i < |a| && a[i].0 == k;
    forall k ensures k in Keys(a) <==> k in Keys(b) {
      if i :| 0 <= i < |a| && a[i].0 == k { assert b[i].0 == k; }
      if i :| 0 <= i < |b| && b[i].0 == k { assert a[i].0 == k; }
    }
  }

  /** `{...r, ...entries}`, and `Object.fromEntries` when `r` is empty. */
  function Merge(r: Record, entries: Record): Record
    decreases |entries|
  {
    if entries == [] then r
    else
      var n := |entries| - 1;
      Put(Merge(r, entries[..n]), entries[n].0, entries[n].1)
  }

  /** What a list of entries says about a key once all of them are applied: the last one wins. */
  function Last(entries: Record, key: string): Option<string>
    decreases |entries|
  {
    if entries == [] then None
    else
      var n := |entries| - 1;
      if entries[n].0 == key then Some(entries[n].1) else Last(entries[..n], key)
  }

  /** Looking `k` up once `entries` have been written over `r`. */
  function Overlay(r: Record, entries: Record, k: string): Option<string> {
    if Last(entries, k).Some? then Last(entries, k) else Get(r, k)
  }

  lemma {:induction false} GetMerge(r: Record, entries: Record, k: string)
    ensures Get(Merge(r, entries), k) == Overlay(r, entries, k)
    decreases |entries|
  {
    if entries != [] {
      var n := |entries| - 1;
      GetMerge(r, entries[..n], k);
      GetPut(Merge(r, entries[..n]), entries[n].0, entries[n].1, k);
    }
  }

  lemma {:induction false} MergeDistinct(r: Record, entries: Record)
    requires DistinctKeys(r)
    ensures DistinctKeys(Merge(r, entries))
    decreases |entries|
  {
    if entries != [] {
      var n := |entries| - 1;
      MergeDistinct(r, entries[..n]);
      PutDistinct(Merge(r, entries[..n]), entries[n].0, entries[n].1);
    }
  }

  /** With each key listed once, the first and the last entry of a key are the same entry. */
  lemma {:induction false} LastIsGet(r: Record, k: string)
    requires DistinctKeys(r)
    ensures Last(r, k) == Get(r, k)
    decreases |r|
  {
    if r != [] {
      var n := |r| - 1;
      LastIsGet(r[..n], k);
      GetAppend(r[..n], [r[n]], k);
      assert r == r[..n] + [r[n]];
      GetKeys(r[..n], k);
    }
  }

  lemma {:induction false} GetAppend(a: Record, b: Record, k: string)
    ensures Get(a + b, k) == if Get(a, k).Some? then Get(a, k) else Get(b, k)
  {
    if a == [] {
      assert a + b == b;
    } else {
      assert (a + b)[1..] == a[1..] + b;
      GetAppend(a[1..], b, k);
    }
  }

  lemma {:induction false} LastAppend(a: Record, b: Record, k: string)
    ensures Last(a + b, k) == if Last(b, k).Some? then Last(b, k) else Last(a, k)
    decreases |b|
  {
    if b == [] {
      assert a + b == a;
    } else {
      var n := |b| - 1;
      assert (a + b)[..|a + b| - 1] == a + b[..n];
      LastAppend(a, b[..n], k);
    }
  }

  lemma {:induction false} LastIn(entries: Record, k: string)
    ensures Last(entries, k).Some? <==> k in Keys(entries)
    ensures Last(entries, k).Some? ==> (k, Last(entries, k).value) in entries
    decreases |entries|
  {
    if entries != [] {
      var n := |entries| - 1;
      LastIn(entries[..n], k);
      assert entries == entries[..n] + [entries[n]];
      assert Keys(entries) == Keys(entries[..n]) + {entries[n].0} by {
        assert forall i :: 0 <= i < n ==> entries[..n][i] == entries[i];
      }
    }
  }

  /** The entries whose key is not among `keys`. */
  function Without(r: Record, keys: set<string>): Record {
    if r == [] then []
    else if r[0].0 in keys then Without(r[1..], keys)
    else [r[0]] + Without(r[1..], keys)
  }

  lemma {:induction false} GetWithout(r: Record, keys: set<string>, k: string)
    ensures Get(Without(r, keys), k) == if k in keys then None else Get(r, k)
  {
    if r != [] {
      GetWithout(r[1..], keys, k);
      assert r[0].0 !in keys ==> Without(r, keys)[1..] == Without(r[1..], keys);
    }
  }

  lemma {:induction false} WithoutShape(r: Record, keys: set<string>)
    ensures forall e :: e in Without(r, keys) <==> e in r && e.0 !in keys
    ensures DistinctKeys(r) ==> DistinctKeys(Without(r, keys))
  {
    if r != [] {
      WithoutShape(r[1..], keys);
      var t := Without(r[1..], keys);
      if DistinctKeys(r) && r[0].0 !in keys {
        forall i, j | 0 <= i < j < |[r[0]] + t|
          ensures ([r[0]] + t)[i].0 != ([r[0]] + t)[j].0
        {
          assert t[j - 1] in r[1..];
          var m :| 0 <= m < |r[1..]| && r[1..][m] == t[j - 1];
          assert r[m + 1] == t[j - 1];
        }
      }
    }
  }

  // ----- rewriting laws, insertion order included -----

  lemma {:induction false} PutPut(r: Record, key: string, first: string, second: string)
    ensures Put(Put(r, key, first), key, second) == Put(r, key, second)
  {
    if r != [] && r[0].0 != key {
      PutPut(r[1..], key, first, second);
      assert Put(r, key, first)[1..] == Put(r[1..], key, first);
    }
  }

  lemma {:induction false} PutSame(r: Record, key: string, value: string)
    requires Get(r, key) == Some(value)
    ensures Put(r, key, value) == r
  {
    if r[0].0 != key {
      PutSame(r[1..], key, value);
      assert r == [r[0]] + r[1..];
    } else {
      assert r == [(key, value)] + r[1..];
    }
  }

  /** A key already present keeps its place, so setting it commutes with setting another key. */
  lemma {:induction false} PutCommutes(r: Record, key: string, value: string, k: string, v: string)
    requires Get(r, key).Some? && k != key
    ensures Put(Put(r, k, v), key, value) == Put(Put(r, key, value), k, v)
  {
    if r[0].0 == key {
      assert Put(r, key, value)[1..] == r[1..];
      assert Put(r, k, v)[0] == r[0] && Put(r, k, v)[1..] == Put(r[1..], k, v);
    } else if r[0].0 == k {
      assert Put(r, k, v)[1..] == r[1..];
      assert Put(r, key, value)[0] == r[0] && Put(r, key, value)[1..] == Put(r[1..], key, value);
    } else {
      PutCommutes(r[1..], key, value, k, v);
      assert Put(r, k, v)[0] == r[0] && Put(r, k, v)[1..] == Put(r[1..], k, v);
      assert Put(r, key, value)[0] == r[0] && Put(r, key, value)[1..] == Put(r[1..], key, value);
    }
  }

  lemma {:induction false} MergePut(r: Record, key: string, value: string, entries: Record)
    requires Get(r, key).Some? && key !in Keys(entries)
    ensures Merge(Put(r, key, value), entries) == Put(Merge(r, entries), key, value)
    decreases |entries|
  {
    if entries != [] {
      var n := |entries| - 1;
      assert entries[n].0 in Keys(entries);
      assert forall i :: 0 <= i < n ==> entries[..n][i] == entries[i];
      MergePut(r, key, value, entries[..n]);
      GetMerge(r, entries[..n], key);
      LastIn(entries[..n], key);
      PutCommutes(Merge(r, entries[..n]), key, value, entries[n].0, entries[n].1);
    }
  }

  lemma {:induction false} MergeConcat(r: Record, a: Record, b: Record)
    ensures Merge(r, a + b) == Merge(Merge(r, a), b)
    decreases |b|
  {
    if b == [] {
      assert a + b == a;
    } else {
      var n := |b| - 1;
      assert (a + b)[..|a + b| - 1] == a + b[..n];
      MergeConcat(r, a, b[..n]);
    }
  }

  /** Writing back what a record already says changes nothing, not even its order. */
  lemma {:induction false} MergeSame(r: Record, entries: Record)
    requires forall i :: 0 <= i < |entries| ==> Get(r, entries[i].0) == Some(entries[i].1)
    ensures Merge(r, entries) == r
    decreases |entries|
  {
    if entries != [] {
      var n := |entries| - 1;
      MergeSame(r, entries[..n]);
      PutSame(r, entries[n].0, entries[n].1);
    }
  }

  lemma {:induction false} WithoutPut(r: Record, key: string, value: string, keys: set<string>)
    ensures Without(Put(r, key, value), keys)
         == if key in keys then Without(r, keys) else Put(Without(r, keys), key, value)
  {
    if r != [] {
      if r[0].0 == key {
        assert Put(r, key, value)[1..] == r[1..];
      } else {
        assert Put(r, key, value)[0] == r[0] && Put(r, key, value)[1..] == Put(r[1..], key, value);
        WithoutPut(r[1..], key, value, keys);
      }
    }
  }

  lemma {:induction false} WithoutNone(r: Record, keys: set<string>)
    requires Keys(r) !! keys
    ensures Without(r, keys) == r
  {
    if r != [] {
      assert r[0].0 in Keys(r);
      assert forall i :: 0 <= i < |r[1..]| ==> r[1..][i] == r[i + 1] && r[i + 1].0 in Keys(r);
      WithoutNone(r[1..], keys);
    }
  }

  lemma {:induction false} MergeFresh(entries: Record)
    requires DistinctKeys(entries)
    ensures Merge([], entries) == entries
    decreases |entries|
  {
    if entries != [] {
      var n := |entries| - 1;
      MergeFresh(entries[..n]);
      PutFresh(entries[..n], entries[n].0, entries[n].1);
      assert entries == entries[..n] + [entries[n]];
    }
  }

  lemma {:induction false} PutFresh(r: Record, key: string, value: string)
    requires forall i :: 0 <= i < |r| ==> r[i].0 != key
    ensures Put(r, key, value) == r + [(key, value)]
  {
    if r != [] {
      PutFresh(r[1..], key, value);
      assert r == [r[0]] + r[1..];
    }
  }

  lemma {:induction false} WithoutMerge(r: Record, entries: Record, keys: set<string>)
    ensures Without(Merge(r, entries), keys) == Merge(Without(r, keys), Without(entries, keys))
    decreases |entries|
  {
    if entries != [] {
      var n := |entries| - 1;
      WithoutMerge(r, entries[..n], keys);
      WithoutPut(Merge(r, entries[..n]), entries[n].0, entries[n].1, keys);
      WithoutAppend(entries[..n], entries[n], keys);
      assert entries == entries[..n] + [entries[n]];
      var w := Without(entries[..n], keys);
      assert (w + [entries[n]])[..|w|] == w;
    }
  }

  lemma {:induction false} WithoutAppend(r: Record, e: (string, string), keys: set<string>)
    ensures Without(r + [e], keys) == if e.0 in keys then Without(r, keys) else Without(r, keys) + [e]
    ensures r + [e] != [] && (r + [e])[..|r|] == r
  {
    if r == [] {
      assert r + [e] == [e] && [e][1..] == [] && [e] + [] == [e];
    } else {
      assert (r + [e])[1..] == r[1..] + [e] && (r + [e])[0] == r[0];
      WithoutAppend(r[1..], e, keys);
      assert [r[0]] + (Without(r[1..], keys) + [e]) == [r[0]] + Without(r[1..], keys) + [e];
    }
  }

  lemma {:induction false} WithoutTwice(r: Record, a: set<string>, b: set<string>)
    ensures Without(Without(r, a), b) == Without(r, a + b)
  {
    if r != [] {
      WithoutTwice(r[1..], a, b);
      if r[0].0 !in a {
        assert Without(r, a)[0] == r[0] && Without(r, a)[1..] == Without(r[1..], a);
      }
    }
  }

  lemma {:induction false} WithoutAll(r: Record, keys: set<string>)
    requires Keys(r) <= keys
    ensures Without(r, keys) == []
  {
    if r != [] {
      assert r[0].0 in Keys(r);
      assert forall i :: 0 <= i < |r[1..]| ==> r[1..][i] == r[i + 1] && r[i + 1].0 in Keys(r);
      WithoutAll(r[1..], keys);
    }
  }

  lemma KeysWithout(r: Record, keys: set<string>)
    ensures Keys(Without(r, keys)) == Keys(r) - keys
  {
    forall k ensures k in Keys(Without(r, keys)) <==> k in Keys(r) && k !in keys {
      GetKeys(Without(r, keys), k);
      GetKeys(r, k);
      GetWithout(r, keys, k);
    }
  }

  lemma KeysMerge(r: Record, entries: Record)
    ensures Keys(Merge(r, entries)) == Keys(r) + Keys(entries)
  {
    forall k ensures k in Keys(Merge(r, entries)) <==> k in Keys(r) || k in Keys(entries) {
      GetKeys(Merge(r, entries), k);
      GetKeys(r, k);
      GetMerge(r, entries, k);
      LastIn(entries, k);
    }
  }
}
