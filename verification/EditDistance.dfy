/** The spelling suggestion for a parameter key: two-row Levenshtein and the nearest accepted key. */
module EditDistance {
  import opened Text
  import Seqs

  // ----- edit scripts, the meaning of the distance -----

  datatype Edit = Keep(c: char) | Substitute(was: char, now: char) | Insert(c: char) | Delete(c: char)

  type Script = seq<Edit>

  function EditSource(e: Edit): string {
    match e
    case Keep(c) => [c]
    case Substitute(was, _) => [was]
    case Insert(_) => []
    case Delete(c) => [c]
  }

  function EditTarget(e: Edit): string {
    match e
    case Keep(c) => [c]
    case Substitute(_, now) => [now]
    case Insert(c) => [c]
    case Delete(_) => []
  }

  function EditCost(e: Edit): nat {
    if e.Keep? then 0 else 1
  }

  /** The text a script reads from. */
  function Source(s: Script): string {
    if s == [] then [] else EditSource(s[0]) + Source(s[1..])
  }

  /** The text a script leaves. */
  function Target(s: Script): string {
    if s == [] then [] else EditTarget(s[0]) + Target(s[1..])
  }

  function Cost(s: Script): nat {
    if s == [] then 0 else EditCost(s[0]) + Cost(s[1..])
  }

  predicate Turns(s: Script, a: string, b: string) {
    Source(s) == a && Target(s) == b
  }

  // ----- the recurrence the table is filled by -----

  function Min(x: nat, y: nat): nat {
    if x <= y then x else y
  }

  function Distance(a: string, b: string): nat
    decreases |a| + |b|
  {
    if a == [] then |b|
    else if b == [] then |a|
    else
      var a', b' := a[..|a| - 1], b[..|b| - 1];
      Min(Min(Distance(a', b) + 1, Distance(a, b') + 1),
          Distance(a', b') + if a[|a| - 1] == b[|b| - 1] then 0 else 1)
  }

  lemma {:induction false} Append(s: Script, e: Edit)
    ensures Source(s + [e]) == Source(s) + EditSource(e)
    ensures Target(s + [e]) == Target(s) + EditTarget(e)
    ensures Cost(s + [e]) == Cost(s) + EditCost(e)
  {
    if s == [] {
      assert [] + [e] == [e] && [e][1..] == [];
      assert EditSource(e) + [] == EditSource(e) && EditTarget(e) + [] == EditTarget(e);
    } else {
      assert (s + [e])[0] == s[0] && (s + [e])[1..] == s[1..] + [e];
      Append(s[1..], e);
      Seqs.Assoc(EditSource(s[0]), Source(s[1..]), EditSource(e));
      Seqs.Assoc(EditTarget(s[0]), Target(s[1..]), EditTarget(e));
    }
  }

  lemma InitAndLast(a: string)
    requires a != []
    ensures a == a[..|a| - 1] + [a[|a| - 1]]
  {
  }

  lemma Extend(s: Script, e: Edit, a: string, b: string) returns (r: Script)
    requires Turns(s, a, b)
    ensures Turns(r, a + EditSource(e), b + EditTarget(e)) && Cost(r) == Cost(s) + EditCost(e)
  {
    r := s + [e];
    Append(s, e);
  }

  /** Some script achieves the distance. */
  lemma {:induction false} Achieved(a: string, b: string) returns (s: Script)
    ensures Turns(s, a, b) && Cost(s) == Distance(a, b)
    decreases |a| + |b|
  {
    if a == [] && b == [] {
      s := [];
    } else if a == [] {
      InitAndLast(b);
      s := Achieved(a, b[..|b| - 1]);
      s := Extend(s, Insert(b[|b| - 1]), a, b[..|b| - 1]);
    } else if b == [] {
      InitAndLast(a);
      s := Achieved(a[..|a| - 1], b);
      s := Extend(s, Delete(a[|a| - 1]), a[..|a| - 1], b);
    } else {
      InitAndLast(a);
      InitAndLast(b);
      var a', b', x, y := a[..|a| - 1], b[..|b| - 1], a[|a| - 1], b[|b| - 1];
      if Distance(a, b) == Distance(a', b) + 1 {
        s := Achieved(a', b);
        s := Extend(s, Delete(x), a', b);
      } else if Distance(a, b) == Distance(a, b') + 1 {
        s := Achieved(a, b');
        s := Extend(s, Insert(y), a, b');
      } else {
        s := Achieved(a', b');
        s := Extend(s, if x == y then Keep(x) else Substitute(x, y), a', b');
      }
    }
  }

  lemma OneEdit(a: string, b: string, e: Edit)
    ensures Distance(a + EditSource(e), b + EditTarget(e)) <= Distance(a, b) + EditCost(e)
  {
    var a2, b2 := a + EditSource(e), b + EditTarget(e);
    if EditSource(e) == [] {
      assert a2 == a && b2[..|b2| - 1] == b;
    } else if EditTarget(e) == [] {
      assert b2 == b && a2[..|a2| - 1] == a;
    } else {
      assert a2[..|a2| - 1] == a && b2[..|b2| - 1] == b;
      assert a2[|a2| - 1] == EditSource(e)[0] && b2[|b2| - 1] == EditTarget(e)[0];
    }
  }

  /** No script is cheaper than the distance. */
  lemma {:induction false} Shortest(s: Script, a: string, b: string)
    requires Turns(s, a, b)
    ensures Distance(a, b) <= Cost(s)
    decreases |s|
  {
    if s != [] {
      var n := |s| - 1;
      assert s == s[..n] + [s[n]];
      Append(s[..n], s[n]);
      Shortest(s[..n], Source(s[..n]), Target(s[..n]));
      OneEdit(Source(s[..n]), Target(s[..n]), s[n]);
    }
  }

  // ----- the metric laws -----

  lemma {:induction false} FreeScript(s: Script)
    requires Cost(s) == 0
    ensures Source(s) == Target(s)
  {
    if s != [] {
      FreeScript(s[1..]);
    }
  }

  lemma {:induction false} KeepAll(a: string) returns (s: Script)
    ensures Turns(s, a, a) && Cost(s) == 0
  {
    if a == [] {
      s := [];
    } else {
      var r := KeepAll(a[1..]);
      s := [Keep(a[0])] + r;
      assert s[1..] == r && a == [a[0]] + a[1..];
    }
  }

  /** The distance is zero exactly between equal strings. */
  lemma ZeroIffEqual(a: string, b: string)
    ensures Distance(a, b) == 0 <==> a == b
  {
    if a == b {
      var s := KeepAll(a);
      Shortest(s, a, a);
    }
    var s := Achieved(a, b);
    if Distance(a, b) == 0 {
      FreeScript(s);
    }
  }

  function Undo(e: Edit): Edit {
    match e
    case Keep(c) => Keep(c)
    case Substitute(was, now) => Substitute(now, was)
    case Insert(c) => Delete(c)
    case Delete(c) => Insert(c)
  }

  lemma {:induction false} Undone(s: Script) returns (r: Script)
    ensures Turns(r, Target(s), Source(s)) && Cost(r) == Cost(s)
  {
    if s == [] {
      r := [];
    } else {
      var t := Undone(s[1..]);
      r := [Undo(s[0])] + t;
      assert r[1..] == t;
    }
  }

  /** Editing there costs what editing back costs. */
  lemma Symmetric(a: string, b: string)
    ensures Distance(a, b) == Distance(b, a)
  {
    var s := Achieved(a, b);
    var s' := Undone(s);
    Shortest(s', b, a);
    var t := Achieved(b, a);
    var t' := Undone(t);
    Shortest(t', a, b);
  }

  /** One script after another, as a single script that costs no more. */
  lemma {:induction false} Composed(s: Script, t: Script) returns (r: Script)
    requires Target(s) == Source(t)
    ensures Turns(r, Source(s), Target(t)) && Cost(r) <= Cost(s) + Cost(t)
    decreases |s| + |t|
  {
    NothingLeft(s, t);
    if s != [] && s[0].Delete? {
      r := Composed(s[1..], t);
      r := Cons(s[0], r);
      assert EditTarget(s[0]) + Target(s[1..]) == Target(s[1..]);
    } else if t != [] && t[0].Insert? {
      assert EditSource(t[0]) + Source(t[1..]) == Source(t[1..]);
      r := Composed(s, t[1..]);
      r := Cons(t[0], r);
    } else if s == [] || t == [] {
      r := [];
    } else {
      var e, f := s[0], t[0];
      FirstCharacter(EditTarget(e), Target(s[1..]));
      FirstCharacter(EditSource(f), Source(t[1..]));
      r := Composed(s[1..], t[1..]);
      if e.Keep? {
        r := Cons(f, r);
      } else if f.Keep? {
        r := Cons(e, r);
      } else if e.Substitute? {
        r := Cons(if f.Substitute? then Substitute(e.was, f.now) else Delete(e.was), r);
      } else if f.Substitute? {
        r := Cons(Insert(f.now), r);
      } else {
        assert [] + Source(s[1..]) == Source(s[1..]) && [] + Target(t[1..]) == Target(t[1..]);
      }
    }
  }

  lemma FirstCharacter(x: string, rest: string)
    requires |x| == 1
    ensures x == [(x + rest)[0]] && (x + rest)[1..] == rest
  {
  }

  lemma NothingLeft(s: Script, t: Script)
    requires Target(s) == Source(t)
    ensures s == [] && t != [] ==> t[0].Insert?
    ensures t == [] && s != [] ==> s[0].Delete?
  {
  }

  lemma Cons(e: Edit, s: Script) returns (r: Script)
    ensures Source(r) == EditSource(e) + Source(s) && Target(r) == EditTarget(e) + Target(s)
    ensures Cost(r) == EditCost(e) + Cost(s)
  {
    r := [e] + s;
    assert r[1..] == s;
  }

  lemma Triangle(a: string, b: string, c: string)
    ensures Distance(a, c) <= Distance(a, b) + Distance(b, c)
  {
    var s := Achieved(a, b);
    var t := Achieved(b, c);
    var r := Composed(s, t);
    Shortest(r, a, c);
  }

  // ----- the two-row table -----

  lemma Cell(a: string, b: string, i: nat, j: nat)
    requires 1 <= i <= |a| && 1 <= j <= |b|
    ensures Distance(a[..i], b[..j])
         == Min(Min(Distance(a[..i - 1], b[..j]) + 1, Distance(a[..i], b[..j - 1]) + 1),
                Distance(a[..i - 1], b[..j - 1]) + if a[i - 1] == b[j - 1] then 0 else 1)
  {
    hide Min;
    var x, y := a[..i], b[..j];
    assert x[..|x| - 1] == a[..i - 1] && y[..|y| - 1] == b[..j - 1];
    assert x[|x| - 1] == a[i - 1] && y[|y| - 1] == b[j - 1];
  }

  /** One row of the table: the distances from a prefix of `a` to every prefix of `b`. */
  ghost predicate IsRow(row: seq<nat>, prefix: string, b: string, width: nat) {
    |row| == width <= |b| + 1 && forall j :: 0 <= j < width ==> row[j] == Distance(prefix, b[..j])
  }

  method NextRow(a: string, b: string, i: nat, previous: seq<nat>) returns (current: seq<nat>)
    requires 1 <= i <= |a| && IsRow(previous, a[..i - 1], b, |b| + 1)
    ensures IsRow(current, a[..i], b, |b| + 1)
  {
    current := [i];
    assert Distance(a[..i], b[..0]) == i;
    for j := 1 to |b| + 1
      invariant IsRow(current, a[..i], b, j)
    {
      hide Distance;
      Cell(a, b, i, j);
      var cell := Min(Min(previous[j] + 1, current[j - 1] + 1),
                      previous[j - 1] + if a[i - 1] == b[j - 1] then 0 else 1);
      current := current + [cell];
    }
  }

  method Levenshtein(a: string, b: string) returns (d: nat)
    ensures d == Distance(a, b)
  {
    if a == b {
      ZeroIffEqual(a, b);
      return 0;
    }
    var previous: seq<nat> := seq(|b| + 1, index requires 0 <= index => index);
    assert IsRow(previous, a[..0], b, |b| + 1);
    for i := 1 to |a| + 1
      invariant IsRow(previous, a[..i - 1], b, |b| + 1)
    {
      previous := NextRow(a, b, i, previous);
    }
    assert a[..|a|] == a && b[..|b|] == b;
    d := previous[|b|];
  }

  // ----- the nearest accepted key -----

  predicate Nearer(key: string, x: string, y: string) {
    Distance(key, x) < Distance(key, y) || (Distance(key, x) == Distance(key, y) && Before(x, y))
  }

  function Limit(key: string): nat {
    if |key| <= 4 then 1 else if |key| <= 8 then 2 else 3
  }

  /** What a suggestion promises: the nearest accepted key, or none when even that is too far. */
  ghost predicate IsSuggestion(key: string, accepted: set<string>, r: Option<string>) {
    match r
    case None => forall c :: c in accepted ==> Distance(key, c) > Limit(key)
    case Some(best) =>
      && best in accepted && Distance(key, best) <= Limit(key)
      && forall c :: c in accepted && c != best ==> Nearer(key, best, c)
  }

  method SuggestModelParamKey(key: string, accepted: seq<string>) returns (r: Option<string>)
    ensures IsSuggestion(key, (set c | c in accepted), r)
    ensures var limit := if |key| <= 4 then 1 else if |key| <= 8 then 2 else 3;
      r.Some? <==> exists c :: c in accepted && Distance(key, c) <= limit
  {
    var best: Option<string> := None;
    var bestDistance := 0;
    for i := 0 to |accepted|
      invariant best.None? ==> i == 0
      invariant best.Some? ==> best.value in accepted[..i] && bestDistance == Distance(key, best.value)
      invariant best.Some? ==> forall k :: 0 <= k < i && accepted[k] != best.value ==>
        Nearer(key, best.value, accepted[k])
    {
      var candidate := accepted[i];
      var distance := Levenshtein(key, candidate);
      if best.None? || distance < bestDistance || (distance == bestDistance && Before(candidate, best.value)) {
        if best.Some? {
          forall k | 0 <= k < i && accepted[k] != candidate
            ensures Nearer(key, candidate, accepted[k])
          {
            NearerThrough(key, candidate, best.value, accepted[k]);
          }
        }
        best := Some(candidate);
        bestDistance := distance;
      } else {
        BeforeTotal(candidate, best.value);
      }
    }
    assert accepted[..|accepted|] == accepted;
    return if best.Some? && bestDistance <= Limit(key) then best else None;
  }

  lemma NearerThrough(key: string, x: string, y: string, z: string)
    requires Nearer(key, x, y) && (y == z || Nearer(key, y, z))
    ensures Nearer(key, x, z)
  {
    if y != z && Distance(key, x) == Distance(key, y) == Distance(key, z) {
      BeforeTransitive(x, y, z);
    }
  }

  /** The suggestion is one value of the accepted set, whatever order the keys were visited in. */
  lemma SuggestionUnique(key: string, accepted: set<string>, r: Option<string>, other: Option<string>)
    requires IsSuggestion(key, accepted, r) && IsSuggestion(key, accepted, other)
    ensures r == other
  {
    if r.Some? && other.Some? && r != other {
      BeforeTotal(r.value, other.value);
      assert false;
    }
  }
}
