/** The JavaScript string operations the server's text formats are built from. */
module Text {

  datatype Option<+T> = None | Some(value: T)

  // The characters String.prototype.trim and the regular-expression class \s agree on.
  predicate IsSpace(c: char) {
    || '\t' <= c <= '\r'
    || c == ' ' || c == '\U{00A0}' || c == '\U{1680}'
    || '\U{2000}' <= c <= '\U{200A}'
    || c == '\U{2028}' || c == '\U{2029}' || c == '\U{202F}'
    || c == '\U{205F}' || c == '\U{3000}' || c == '\U{FEFF}'
  }

  // What `.` in a regular expression refuses to cross.
  predicate IsLineTerminator(c: char) {
    c == '\n' || c == '\r' || c == '\U{2028}' || c == '\U{2029}'
  }

  predicate IsNewline(c: char) {
    c == '\n' || c == '\r'
  }

  predicate AllSpace(s: string) {
    forall i :: 0 <= i < |s| ==> IsSpace(s[i])
  }

  predicate OneLine(s: string) {
    forall i :: 0 <= i < |s| ==> !IsNewline(s[i])
  }

  // ----- trimming -----

  function TrimStart(s: string): string {
    if s != [] && IsSpace(s[0]) then TrimStart(s[1..]) else s
  }

  function TrimEnd(s: string): string {
    if s != [] && IsSpace(s[|s| - 1]) then TrimEnd(s[..|s| - 1]) else s
  }

  function Trim(s: string): string {
    TrimEnd(TrimStart(s))
  }

  predicate IsTrimmed(s: string) {
    s == [] || (!IsSpace(s[0]) && !IsSpace(s[|s| - 1]))
  }

  function LeadingSpace(s: string): (n: nat)
    ensures n <= |s|
    ensures AllSpace(s[..n]) && TrimStart(s) == s[n..]
    ensures n < |s| ==> !IsSpace(s[n])
  {
    if s != [] && IsSpace(s[0]) then
      var n := 1 + LeadingSpace(s[1..]);
      assert s[..n] == [s[0]] + s[1..][..n - 1];
      n
    else 0
  }

  lemma {:induction false} TrimEndParts(s: string) returns (n: nat)
    ensures n <= |s| && TrimEnd(s) == s[..n] && AllSpace(s[n..])
    ensures n > 0 ==> !IsSpace(s[n - 1])
  {
    hide IsSpace;
    if s != [] && IsSpace(s[|s| - 1]) {
      var init := s[..|s| - 1];
      n := TrimEndParts(init);
      assert s[..n] == init[..n];
      forall i | 0 <= i < |s[n..]| ensures IsSpace(s[n..][i]) {
        if i < |init| - n {
          assert s[n..][i] == init[n..][i];
        }
      }
    } else {
      n := |s|;
    }
  }

  /** A string is blank space around its trimmed part. */
  lemma {:induction false} TrimParts(s: string) returns (from: nat, to: nat)
    ensures from <= to <= |s|
    ensures AllSpace(s[..from]) && Trim(s) == s[from..to] && AllSpace(s[to..])
    ensures IsTrimmed(Trim(s))
  {
    hide IsSpace, TrimStart, TrimEnd;
    from := LeadingSpace(s);
    var n := TrimEndParts(s[from..]);
    to := from + n;
    assert s[from..][..n] == s[from..to] && s[from..][n..] == s[to..];
  }

  lemma BlankTogether(a: string, b: string)
    requires AllSpace(a) && AllSpace(b)
    ensures AllSpace(a + b)
  {
    hide IsSpace;
  }

  lemma BlankIff(s: string)
    ensures Trim(s) == "" <==> AllSpace(s)
  {
    hide Trim, IsSpace;
    var i, j := TrimParts(s);
    assert s == s[..i] + Trim(s) + s[j..];
    assert Trim(s) != "" ==> s[i] == Trim(s)[0];
  }

  lemma {:induction false} TrimStartSkips(w: string, s: string)
    requires AllSpace(w)
    ensures TrimStart(w + s) == TrimStart(s)
  {
    hide IsSpace;
    if w == [] {
      assert w + s == s;
    } else {
      assert (w + s)[1..] == w[1..] + s;
      TrimStartSkips(w[1..], s);
    }
  }

  lemma {:induction false} TrimEndSkips(s: string, w: string)
    requires AllSpace(w)
    ensures TrimEnd(s + w) == TrimEnd(s)
  {
    hide IsSpace;
    if w == [] {
      assert s + w == s;
    } else {
      assert (s + w)[..|s + w| - 1] == s + w[..|w| - 1];
      TrimEndSkips(s, w[..|w| - 1]);
    }
  }

  /** Trimming is determined by the trimmed core: blank space on either side never matters. */
  lemma {:induction false} TrimCore(w1: string, s: string, w2: string)
    requires AllSpace(w1) && AllSpace(w2) && IsTrimmed(s)
    ensures Trim(w1 + s + w2) == s
  {
    hide IsSpace;
    assert w1 + s + w2 == w1 + (s + w2);
    TrimStartSkips(w1, s + w2);
    if s == [] {
      assert s + w2 == w2 + [] && TrimStart([]) == [];
      TrimStartSkips(w2, []);
    } else {
      TrimEndSkips(s, w2);
    }
  }

  lemma TrimTrimmed(s: string)
    requires IsTrimmed(s)
    ensures Trim(s) == s
  {
    assert [] + s + [] == s;
    TrimCore([], s, []);
  }

  lemma TrimIdempotent(s: string)
    ensures IsTrimmed(Trim(s)) && Trim(Trim(s)) == Trim(s)
  {
    var _, _ := TrimParts(s);
    TrimTrimmed(Trim(s));
  }

  lemma TrimAround(w1: string, s: string, w2: string)
    requires AllSpace(w1) && AllSpace(w2)
    ensures Trim(w1 + s + w2) == Trim(s)
  {
    var i, j := TrimParts(s);
    var a, b := w1 + s[..i], s[j..] + w2;
    assert w1 + s + w2 == a + Trim(s) + b;
    TrimCore(a, Trim(s), b);
  }

  lemma TrimStartDecides(s: string)
    ensures Trim(s) == [] <==> TrimStart(s) == []
    ensures Trim(s) != [] ==> Trim(s)[0] == TrimStart(s)[0]
  {
    var n := TrimEndParts(TrimStart(s));
    var m := LeadingSpace(s);
    assert TrimStart(s)[0..] == TrimStart(s);
  }

  /** Blank space in front decides nothing: a prefix and the whole start with the same character. */
  lemma TrimPrefixHead(s: string, n: nat)
    requires n <= |s| && Trim(s[..n]) != []
    ensures Trim(s) != [] && Trim(s)[0] == Trim(s[..n])[0]
  {
    TrimStartDecides(s);
    TrimStartDecides(s[..n]);
    var i, j := LeadingSpace(s), LeadingSpace(s[..n]);
    assert j < n && s[..n][j] == s[j];
    assert i == j by {
      assert forall k :: 0 <= k < i ==> s[..i][k] == s[k];
      assert forall k :: 0 <= k < j ==> s[..n][..j][k] == s[k];
    }
  }

  // ----- characters -----

  /** The position of the first `c`, or the length when there is none. */
  function IndexOf(s: string, c: char): (i: nat)
    ensures i <= |s| && c !in s[..i] && (i < |s| ==> s[i] == c)
  {
    if s == [] || s[0] == c then 0
    else
      var i := 1 + IndexOf(s[1..], c);
      assert s[..i] == [s[0]] + s[1..][..i - 1];
      i
  }

  lemma IndexOfFirst(a: string, c: char, b: string)
    requires c !in a
    ensures IndexOf(a + [c] + b, c) == |a|
  {
    var s, i := a + [c] + b, IndexOf(a + [c] + b, c);
    assert s[|a|] == c && (forall k :: 0 <= k < |a| ==> s[k] == a[k]);
    assert forall k :: 0 <= k < i ==> s[..i][k] == s[k];
  }

  lemma {:induction false} IndexOfAtMost(s: string, c: char, i: nat)
    requires i < |s| && s[i] == c
    ensures IndexOf(s, c) <= i
  {
    if s[0] != c {
      IndexOfAtMost(s[1..], c, i - 1);
    }
  }

  function ReplaceNewlines(s: string, repl: char): (r: string)
    ensures |r| == |s|
    ensures forall i :: 0 <= i < |s| ==> r[i] == if IsNewline(s[i]) then repl else s[i]
  {
    seq(|s|, i requires 0 <= i < |s| => if IsNewline(s[i]) then repl else s[i])
  }

  /** The one-line form of a value: what survives being written to a line and read back. */
  function Tidy(s: string): string {
    Trim(ReplaceNewlines(s, ' '))
  }

  lemma TidyShape(s: string)
    ensures OneLine(Tidy(s)) && IsTrimmed(Tidy(s))
    ensures OneLine(s) ==> Tidy(s) == Trim(s)
    ensures OneLine(s) && IsTrimmed(s) ==> Tidy(s) == s
  {
    var f := ReplaceNewlines(s, ' ');
    var i, j := TrimParts(f);
    assert OneLine(s) ==> f == s;
    if IsTrimmed(s) {
      TrimTrimmed(s);
    }
  }

  // ----- order -----

  /** Strict lexicographic order. */
  predicate Before(x: string, y: string) {
    if y == [] then false
    else if x == [] then true
    else x[0] < y[0] || (x[0] == y[0] && Before(x[1..], y[1..]))
  }

  lemma {:induction false} BeforeTotal(x: string, y: string)
    ensures x != y ==> Before(x, y) != Before(y, x)
    ensures !Before(x, x)
  {
    if x != [] {
      BeforeTotal(x[1..], x[1..]);
    }
    if x != [] && y != [] {
      BeforeTotal(x[1..], y[1..]);
      assert x == [x[0]] + x[1..] && y == [y[0]] + y[1..];
    }
  }

  lemma {:induction false} BeforeTransitive(x: string, y: string, z: string)
    requires Before(x, y) && Before(y, z)
    ensures Before(x, z)
  {
    if x != [] && y != [] && z != [] && x[0] == y[0] && y[0] == z[0] {
      BeforeTransitive(x[1..], y[1..], z[1..]);
    }
  }

  // ----- lines -----

  function CollapseCrLf(s: string): string {
    if s == [] then []
    else if |s| >= 2 && s[0] == '\r' && s[1] == '\n' then ['\n'] + CollapseCrLf(s[2..])
    else [s[0]] + CollapseCrLf(s[1..])
  }

  function ReplaceCr(s: string): (r: string)
    ensures |r| == |s| && '\r' !in r
    ensures forall i :: 0 <= i < |s| ==> r[i] == if s[i] == '\r' then '\n' else s[i]
  {
    seq(|s|, i requires 0 <= i < |s| => if s[i] == '\r' then '\n' else s[i])
  }

  function NormalizeNewlines(s: string): (r: string)
    ensures '\r' !in r
  {
    ReplaceCr(CollapseCrLf(s))
  }

  lemma {:induction false} CollapseNoCr(s: string)
    requires '\r' !in s
    ensures CollapseCrLf(s) == s
  {
    if s != [] {
      assert s[0] in s && (forall c :: c in s[1..] ==> c in s);
      CollapseNoCr(s[1..]);
    }
  }

  lemma NormalizeNoCr(s: string)
    requires '\r' !in s
    ensures NormalizeNewlines(s) == s
  {
    CollapseNoCr(s);
    assert forall i :: 0 <= i < |s| ==> s[i] in s;
  }

  function Split(s: string, sep: char): (parts: seq<string>)
    ensures |parts| >= 1
  {
    if s == [] then [[]]
    else
      var rest := Split(s[1..], sep);
      if s[0] == sep then [[]] + rest else [[s[0]] + rest[0]] + rest[1..]
  }

  function Join(parts: seq<string>, sep: char): string
    requires |parts| >= 1
  {
    if |parts| == 1 then parts[0] else parts[0] + [sep] + Join(parts[1..], sep)
  }

  lemma JoinHead(c: char, parts: seq<string>, sep: char)
    requires parts != []
    ensures Join([[c] + parts[0]] + parts[1..], sep) == [c] + Join(parts, sep)
  {
    var all := [[c] + parts[0]] + parts[1..];
    assert all[1..] == parts[1..];
    if |parts| > 1 {
      assert all[0] + [sep] + Join(parts[1..], sep) == [c] + (parts[0] + [sep] + Join(parts[1..], sep));
    }
  }

  lemma JoinEmptyHead(parts: seq<string>, sep: char)
    requires parts != []
    ensures Join([[]] + parts, sep) == [sep] + Join(parts, sep)
  {
    assert ([[]] + parts)[1..] == parts;
  }

  lemma {:induction false} JoinOfSplit(s: string, sep: char)
    ensures Join(Split(s, sep), sep) == s
  {
    hide Join;
    if s == [] {
      OnePiece(s, sep);
    } else {
      JoinOfSplit(s[1..], sep);
      var rest := Split(s[1..], sep);
      assert s == [s[0]] + s[1..];
      if s[0] == sep {
        JoinEmptyHead(rest, sep);
      } else {
        JoinHead(s[0], rest, sep);
      }
    }
  }

  lemma OnePiece(s: string, sep: char)
    ensures Join([s], sep) == s
  {
  }

  lemma {:induction false} PiecesOfSplit(s: string, sep: char, k: nat)
    requires k < |Split(s, sep)|
    ensures sep !in Split(s, sep)[k]
    ensures forall c :: c in Split(s, sep)[k] ==> c in s
  {
    if s != [] {
      var rest := Split(s[1..], sep);
      if s[0] == sep {
        if k > 0 {
          PiecesOfSplit(s[1..], sep, k - 1);
        }
      } else {
        PiecesOfSplit(s[1..], sep, k);
      }
    }
  }

  /** Splitting cuts at every separator and nowhere else. */
  lemma JoinSplit(s: string, sep: char)
    ensures Join(Split(s, sep), sep) == s
    ensures forall k :: 0 <= k < |Split(s, sep)| ==> sep !in Split(s, sep)[k]
    ensures forall k, c :: 0 <= k < |Split(s, sep)| && c in Split(s, sep)[k] ==> c in s
  {
    hide Join, Split;
    JoinOfSplit(s, sep);
    forall k | 0 <= k < |Split(s, sep)|
      ensures sep !in Split(s, sep)[k] && forall c :: c in Split(s, sep)[k] ==> c in s
    {
      PiecesOfSplit(s, sep, k);
    }
  }

  lemma {:induction false} SplitPrefix(a: string, sep: char, b: string)
    requires sep !in a
    ensures Split(a + [sep] + b, sep) == [a] + Split(b, sep)
    ensures Split(a, sep) == [a]
  {
    var s := a + [sep] + b;
    if a == [] {
      assert s[1..] == b;
    } else {
      assert s[1..] == a[1..] + [sep] + b;
      SplitPrefix(a[1..], sep, b);
      assert [a[0]] + a[1..] == a;
    }
  }

  lemma {:induction false} SplitJoin(parts: seq<string>, sep: char)
    requires |parts| >= 1
    requires forall k :: 0 <= k < |parts| ==> sep !in parts[k]
    ensures Split(Join(parts, sep), sep) == parts
  {
    if |parts| == 1 {
      SplitPrefix(parts[0], sep, []);
    } else {
      SplitPrefix(parts[0], sep, Join(parts[1..], sep));
      SplitJoin(parts[1..], sep);
      assert parts == [parts[0]] + parts[1..];
    }
  }

  lemma {:induction false} JoinChars(parts: seq<string>, sep: char)
    requires |parts| >= 1
    ensures forall c :: c in Join(parts, sep) ==> c == sep || exists k :: 0 <= k < |parts| && c in parts[k]
  {
    if |parts| > 1 {
      JoinChars(parts[1..], sep);
      forall c | c in Join(parts, sep) && c != sep
        ensures exists k :: 0 <= k < |parts| && c in parts[k]
      {
        if c in parts[0] {
        } else {
          var k :| 0 <= k < |parts[1..]| && c in parts[1..][k];
          assert c in parts[k + 1];
        }
      }
    }
  }
}
