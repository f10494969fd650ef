/**
 * The three splitters that read a stream chunk by chunk: the proxy's SSE events, the router's
 * `data:` lines and the build output pump. Each answers as one batch split of the whole stream.
 */
module Streams {
  import opened Text
  import Seqs

  function Concat(chunks: seq<string>): string {
    if chunks == [] then "" else chunks[0] + Concat(chunks[1..])
  }

  // ----- finding text in text -----

  predicate At(s: string, i: nat, pattern: string) {
    i + |pattern| <= |s| && s[i..i + |pattern|] == pattern
  }

  /** `s.indexOf(pattern)` from a position on: the first occurrence, or -1. */
  function IndexFrom(s: string, pattern: string, from: nat): (i: int)
    requires from <= |s|
    ensures i == -1 || (from <= i && At(s, i, pattern))
    ensures forall k :: from <= k && (i == -1 || k < i) ==> !At(s, k, pattern)
    decreases |s| - from
  {
    if At(s, from, pattern) then from
    else if from == |s| then -1
    else IndexFrom(s, pattern, from + 1)
  }

  lemma AtPrefix(s: string, t: string, i: nat, pattern: string)
    requires i + |pattern| <= |s|
    ensures At(s + t, i, pattern) <==> At(s, i, pattern)
  {
    assert (s + t)[i..i + |pattern|] == s[i..i + |pattern|];
  }

  // ----- separators -----

  const LF2: string := "\n\n"
  const CRLF2: string := "\r\n\r\n"

  /** Where a separator was found and how long it is. */
  datatype Cut = Cut(index: nat, length: nat)

  function FindSseSeparator(buffer: string): Option<Cut> {
    var lf := IndexFrom(buffer, LF2, 0);
    var crlf := IndexFrom(buffer, CRLF2, 0);
    if lf < 0 && crlf < 0 then None
    else if lf >= 0 && (crlf < 0 || lf < crlf) then Some(Cut(lf, 2))
    else Some(Cut(crlf, 4))
  }

  function FindNewline(s: string): Option<Cut> {
    var i := IndexOf(s, '\n');
    if i == |s| then None else Some(Cut(i, 1))
  }

  datatype Separator = SseBlank | Newline

  /** The first separator of a kind; it lies inside the text. */
  function Find(kind: Separator, s: string): (r: Option<Cut>)
    ensures r.Some? ==> 0 < r.value.length && r.value.index + r.value.length <= |s|
  {
    match kind
    case SseBlank => FindSseSeparator(s)
    case Newline => FindNewline(s)
  }

  lemma FoundStays(s: string, t: string, pattern: string)
    requires IndexFrom(s, pattern, 0) >= 0
    ensures IndexFrom(s + t, pattern, 0) == IndexFrom(s, pattern, 0)
  {
    var i := IndexFrom(s, pattern, 0);
    var j := IndexFrom(s + t, pattern, 0);
    AtPrefix(s, t, i, pattern);
    if 0 <= j <= i {
      AtPrefix(s, t, j, pattern);
    }
  }

  /** More text never changes a cut already found, not even by a separator of the other kind arriving. */
  lemma FindStable(kind: Separator, s: string, t: string)
    requires Find(kind, s).Some?
    ensures Find(kind, s + t) == Find(kind, s)
  {
    match kind
    case SseBlank =>
      SseStable(s, t);
    case Newline =>
      var i := IndexOf(s, '\n');
      assert s + t == s[..i] + ['\n'] + (s[i + 1..] + t);
      IndexOfFirst(s[..i], '\n', s[i + 1..] + t);
  }

  lemma SseStable(s: string, t: string)
    requires FindSseSeparator(s).Some?
    ensures FindSseSeparator(s + t) == FindSseSeparator(s)
  {
    hide IndexFrom;
    var lf, crlf := IndexFrom(s, LF2, 0), IndexFrom(s, CRLF2, 0);
    var lf', crlf' := IndexFrom(s + t, LF2, 0), IndexFrom(s + t, CRLF2, 0);
    if lf >= 0 {
      FoundStays(s, t, LF2);
    }
    if crlf >= 0 {
      FoundStays(s, t, CRLF2);
    }
    if lf >= 0 && crlf < 0 && crlf' >= 0 {
      NoOvertaking(s, t, lf, crlf');
    }
    if crlf >= 0 && lf < 0 && lf' >= 0 {
      NoEarlierLf(s, t, lf', crlf);
    }
  }

  lemma NoOvertaking(s: string, t: string, lf: nat, crlf: nat)
    requires At(s, lf, LF2) && At(s + t, crlf, CRLF2) && !At(s, crlf, CRLF2)
    ensures lf < crlf
  {
    var u := s + t;
    AtPrefix(s, t, lf, LF2);
    if crlf + 4 <= |s| {
      AtPrefix(s, t, crlf, CRLF2);
    }
    assert u[lf..lf + 2][0] == u[lf] && u[lf..lf + 2][1] == u[lf + 1];
    var w := u[crlf..crlf + 4];
    assert w[0] == u[crlf] && w[1] == u[crlf + 1] && w[2] == u[crlf + 2] && w[3] == u[crlf + 3];
    assert CRLF2[0] == '\r' && CRLF2[1] == '\n' && CRLF2[2] == '\r' && CRLF2[3] == '\n';
  }

  lemma NoEarlierLf(s: string, t: string, lf: nat, crlf: nat)
    requires At(s, crlf, CRLF2) && At(s + t, lf, LF2) && !At(s, lf, LF2)
    ensures crlf < lf
  {
    if lf + 2 <= |s| {
      AtPrefix(s, t, lf, LF2);
    }
  }

  lemma NothingInNothing(kind: Separator)
    ensures Find(kind, "").None?
  {
  }

  // ----- one theory for all three: cutting at the first separator -----

  /** The pieces cut off the front of a text, and what is left once no separator remains. */
  function Drain(kind: Separator, s: string): (r: (seq<string>, string))
    decreases |s|
  {
    if Find(kind, s).None? then ([], s)
    else
      var c := Find(kind, s).value;
      var r := Drain(kind, s[c.index + c.length..]);
      ([s[..c.index]] + r.0, r.1)
  }

  /** Draining early loses nothing: what is left over is taken up again with the text that follows. */
  lemma {:induction false} DrainConcat(kind: Separator, a: string, b: string)
    ensures Drain(kind, a + b)
         == (Drain(kind, a).0 + Drain(kind, Drain(kind, a).1 + b).0, Drain(kind, Drain(kind, a).1 + b).1)
    decreases |a|
  {
    hide Find;
    if Find(kind, a).None? {
      assert [] + Drain(kind, a + b).0 == Drain(kind, a + b).0;
    } else {
      var c := Find(kind, a).value;
      FindStable(kind, a, b);
      var e := c.index + c.length;
      assert (a + b)[e..] == a[e..] + b && (a + b)[..c.index] == a[..c.index];
      DrainConcat(kind, a[e..], b);
      var r := Drain(kind, a[e..]);
      Seqs.Assoc([a[..c.index]], r.0, Drain(kind, r.1 + b).0);
    }
  }

  /** The pieces a reader emits for these chunks, starting with `buffer` held back, and its last buffer. */
  function Fed(kind: Separator, buffer: string, chunks: seq<string>): (seq<string>, string)
    decreases |chunks|
  {
    if chunks == [] then ([], buffer)
    else
      var now := Drain(kind, buffer + chunks[0]);
      var later := Fed(kind, now.1, chunks[1..]);
      (now.0 + later.0, later.1)
  }

  lemma {:induction false} FedFrom(kind: Separator, buffer: string, chunks: seq<string>)
    requires Find(kind, buffer).None?
    ensures Fed(kind, buffer, chunks) == Drain(kind, buffer + Concat(chunks))
    decreases |chunks|
  {
    hide Find;
    if chunks == [] {
      assert buffer + "" == buffer;
    } else {
      var now := Drain(kind, buffer + chunks[0]);
      DrainLeavesNone(kind, buffer + chunks[0]);
      FedFrom(kind, now.1, chunks[1..]);
      Seqs.Assoc(buffer, chunks[0], Concat(chunks[1..]));
      DrainConcat(kind, buffer + chunks[0], Concat(chunks[1..]));
    }
  }

  lemma {:induction false} DrainLeavesNone(kind: Separator, s: string)
    ensures Find(kind, Drain(kind, s).1).None?
    decreases |s|
  {
    hide Find;
    if Find(kind, s).Some? {
      var c := Find(kind, s).value;
      DrainLeavesNone(kind, s[c.index + c.length..]);
    }
  }

  /** Chunk boundaries are invisible: any two partitions of a stream give the same pieces and tail. */
  lemma ChunksDoNotMatter(kind: Separator, a: seq<string>, b: seq<string>)
    requires Concat(a) == Concat(b)
    ensures Fed(kind, "", a) == Fed(kind, "", b) == Drain(kind, Concat(a))
  {
    NothingInNothing(kind);
    FedFrom(kind, "", a);
    FedFrom(kind, "", b);
    assert "" + Concat(a) == Concat(a) && "" + Concat(b) == Concat(b);
  }

  // ----- server-sent events -----

  /** Everything the proxy observes: each event, and at the end a tail that is not blank. */
  function Observed(events: seq<string>, tail: string): seq<string> {
    events + if Trim(tail) == "" then [] else [tail]
  }

  class SseObserver {
    var buffer: string
    var observed: seq<string>

    constructor ()
      ensures buffer == "" && observed == []
    {
      buffer, observed := "", [];
    }

    method Receive(chunk: string)
      modifies this
      ensures buffer == Drain(SseBlank, old(buffer) + chunk).1
      ensures observed == old(observed) + Drain(SseBlank, old(buffer) + chunk).0
    {
      hide FindSseSeparator;
      var rest := buffer + chunk;
      ghost var whole, before := rest, observed;
      ghost var done: seq<string> := [];
      while true
        invariant observed == before + done
        invariant Drain(SseBlank, whole).0 == done + Drain(SseBlank, rest).0
        invariant Drain(SseBlank, whole).1 == Drain(SseBlank, rest).1
        decreases |rest|
      {
        var separator := FindSseSeparator(rest);
        if separator.None? {
          buffer := rest;
          return;
        }
        var event := rest[..separator.value.index];
        observed := observed + [event];
        done := done + [event];
        rest := rest[separator.value.index + separator.value.length..];
      }
    }

    method Close()
      modifies this
      ensures observed == Observed(old(observed), old(buffer))
      ensures AllSpace(old(buffer)) ==> observed == old(observed)
      ensures !AllSpace(old(buffer)) ==> observed == old(observed) + [old(buffer)]
    {
      BlankIff(buffer);
      if Trim(buffer) != "" {
        observed := observed + [buffer];
      }
    }
  }

  // ----- lines -----

  lemma DrainLine(s: string)
    ensures var end := IndexOf(s, '\n');
      if end < |s| then
        Drain(Newline, s).0 == [s[..end]] + Drain(Newline, s[end + 1..]).0
        && Drain(Newline, s).1 == Drain(Newline, s[end + 1..]).1
      else Drain(Newline, s).0 == [] && Drain(Newline, s).1 == s
  {
  }

  /** Cutting line by line is splitting at every newline and holding the last part back. */
  lemma {:induction false} DrainIsSplit(s: string)
    ensures var parts := Split(s, '\n');
      Drain(Newline, s) == (parts[..|parts| - 1], parts[|parts| - 1])
    decreases |s|
  {
    hide Split, Drain, IndexOf;
    DrainLine(s);
    var i := IndexOf(s, '\n');
    if i == |s| {
      assert s[..i] == s;
      SplitPrefix(s, '\n', "");
    } else {
      var rest := s[i + 1..];
      assert s == s[..i] + ['\n'] + rest;
      SplitPrefix(s[..i], '\n', rest);
      DrainIsSplit(rest);
      var parts := Split(rest, '\n');
      assert ([s[..i]] + parts)[..|parts|] == [s[..i]] + parts[..|parts| - 1];
    }
  }

  /** The payloads of the `data:` lines, in order. */
  function Payloads(lines: seq<string>): seq<string>
    decreases |lines|
  {
    if lines == [] then []
    else
      var n := |lines| - 1;
      var line := Trim(lines[n]);
      Payloads(lines[..n]) + if "data:" <= line then [Trim(line[5..])] else []
  }

  lemma {:induction false} PayloadsConcat(a: seq<string>, b: seq<string>)
    ensures Payloads(a + b) == Payloads(a) + Payloads(b)
    decreases |b|
  {
    hide Trim;
    if b == [] {
      assert a + b == a && Payloads(a) + [] == Payloads(a);
    } else {
      var n := |b| - 1;
      assert (a + b)[..|a + b| - 1] == a + b[..n];
      PayloadsConcat(a, b[..n]);
      var line := Trim(b[n]);
      Seqs.Assoc(Payloads(a), Payloads(b[..n]), if "data:" <= line then [Trim(line[5..])] else []);
    }
  }

  class SseDataReader {
    var buffer: string
    var yielded: seq<string>

    constructor ()
      ensures buffer == "" && yielded == []
    {
      buffer, yielded := "", [];
    }

    method Receive(chunk: string)
      modifies this
      ensures buffer == Drain(Newline, old(buffer) + chunk).1
      ensures yielded == old(yielded) + Payloads(Drain(Newline, old(buffer) + chunk).0)
    {
      hide Trim, Payloads, Drain, IndexOf;
      assert Payloads([]) == [] by { NoPayloads(); }
      buffer := buffer + chunk;
      ghost var whole, before := buffer, yielded;
      ghost var done: seq<string> := [];
      var end := IndexOf(buffer, '\n');
      while end < |buffer|
        invariant end == IndexOf(buffer, '\n')
        invariant yielded == before + Payloads(done)
        invariant Drain(Newline, whole).0 == done + Drain(Newline, buffer).0
        invariant Drain(Newline, whole).1 == Drain(Newline, buffer).1
        decreases |buffer|
      {
        ghost var raw := buffer[..end];
        DrainLine(buffer);
        PayloadsConcat(done, [raw]);
        OnePayload(raw);
        var line := Trim(buffer[..end]);
        buffer := buffer[end + 1..];
        if "data:" <= line {
          yielded := yielded + [Trim(line[5..])];
        }
        done := done + [raw];
        end := IndexOf(buffer, '\n');
      }
      DrainLine(buffer);
      assert done + [] == done;
    }
  }

  lemma NoPayloads()
    ensures Payloads([]) == []
  {
  }

  lemma OnePayload(raw: string)
    ensures Payloads([raw]) == if "data:" <= Trim(raw) then [Trim(Trim(raw)[5..])] else []
  {
    assert [raw][..0] == [];
  }

  /** A line that carries the payload: `data:` with blank space or none around it and around the payload. */
  ghost predicate IsDataLine(line: string, payload: string) {
    IsTrimmed(payload) && exists w1, w2, w3 :: DataText(line, w1, w2, payload, w3)
  }

  predicate DataText(line: string, w1: string, w2: string, payload: string, w3: string) {
    AllSpace(w1) && AllSpace(w2) && AllSpace(w3) && line == w1 + "data:" + w2 + payload + w3
  }

  /** A line yields its payload exactly when it is a data line. */
  lemma DataLineIff(line: string, payload: string)
    ensures Payloads([line]) == [payload] <==> IsDataLine(line, payload)
  {
    hide Trim, DataText, IsTrimmed;
    OnePayload(line);
    if w1, w2, w3 :| IsTrimmed(payload) && DataText(line, w1, w2, payload, w3) {
      DataLineYields(line, w1, w2, payload, w3);
    }
    if Payloads([line]) == [payload] {
      DataLineFound(line);
    }
  }

  lemma DataLineYields(line: string, w1: string, w2: string, payload: string, w3: string)
    requires DataText(line, w1, w2, payload, w3) && IsTrimmed(payload)
    ensures "data:" <= Trim(line) && Trim(Trim(line)[5..]) == payload
  {
    hide Trim, IsSpace;
    Letters();
    if payload == "" {
      assert line == w1 + "data:" + (w2 + w3);
      TrimCore(w1, "data:", w2 + w3);
      TrimTrimmed("");
    } else {
      var core := "data:" + w2 + payload;
      assert line == w1 + core + w3;
      assert core[|core| - 1] == payload[|payload| - 1] && core[0] == 'd';
      TrimCore(w1, core, w3);
      assert core[5..] == w2 + payload + "";
      TrimCore(w2, payload, "");
    }
  }

  lemma Letters()
    ensures !IsSpace('d') && !IsSpace(':') && IsTrimmed("data:") && IsTrimmed("") && AllSpace("")
  {
  }

  lemma DataLineFound(line: string)
    requires "data:" <= Trim(line)
    ensures IsDataLine(line, Trim(Trim(line)[5..]))
  {
    hide Trim, IsSpace;
    var i, j := TrimParts(line);
    var x := Trim(line)[5..];
    var k, l := TrimParts(x);
    hide AllSpace;
    assert Trim(line) == "data:" + x && line == line[..i] + Trim(line) + line[j..];
    assert x == x[..k] + Trim(x) + x[l..];
    Regroup(line[..i], "data:", x[..k], Trim(x), x[l..], line[j..]);
    BlankTogether(x[l..], line[j..]);
    assert DataText(line, line[..i], x[..k], Trim(x), x[l..] + line[j..]);
  }

  lemma Regroup(a: string, b: string, c: string, d: string, e: string, f: string)
    ensures a + (b + (c + d + e)) + f == a + b + c + d + (e + f)
  {
  }

  /** What the router reader yields for a stream, chunk by chunk: the tail after the last newline is not read. */
  function Yielded(buffer: string, chunks: seq<string>): seq<string>
    decreases |chunks|
  {
    if chunks == [] then []
    else
      var now := Drain(Newline, buffer + chunks[0]);
      Payloads(now.0) + Yielded(now.1, chunks[1..])
  }

  lemma {:induction false} YieldedIsPayloads(buffer: string, chunks: seq<string>)
    ensures Yielded(buffer, chunks) == Payloads(Fed(Newline, buffer, chunks).0)
    decreases |chunks|
  {
    hide Payloads, Drain;
    if chunks == [] {
      NoPayloads();
    } else {
      var now := Drain(Newline, buffer + chunks[0]);
      YieldedIsPayloads(now.1, chunks[1..]);
      PayloadsConcat(now.0, Fed(Newline, now.1, chunks[1..]).0);
    }
  }

  /** The reader yields the data lines of the whole stream's terminated lines, for every chunking. */
  lemma DataLinesOfTheStream(chunks: seq<string>)
    ensures var parts := Split(Concat(chunks), '\n'); Yielded("", chunks) == Payloads(parts[..|parts| - 1])
  {
    YieldedIsPayloads("", chunks);
    ChunksDoNotMatter(Newline, chunks, chunks);
    DrainIsSplit(Concat(chunks));
  }

  class LinePump {
    var buffered: string
    var lines: seq<string>

    constructor ()
      ensures buffered == "" && lines == []
    {
      buffered, lines := "", [];
    }

    method Receive(chunk: string)
      modifies this
      ensures buffered == Drain(Newline, old(buffered) + chunk).1
      ensures lines == old(lines) + Drain(Newline, old(buffered) + chunk).0
    {
      hide Split;
      DrainIsSplit(buffered + chunk);
      buffered := buffered + chunk;
      var parts := Split(buffered, '\n');
      buffered := parts[|parts| - 1];
      parts := parts[..|parts| - 1];
      ghost var before, tail := lines, buffered;
      for i := 0 to |parts|
        invariant lines == before + parts[..i] && buffered == tail
      {
        lines := lines + [parts[i]];
      }
      assert parts[..|parts|] == parts;
    }

    method Close()
      modifies this
      ensures lines == old(lines) + (if old(buffered) == "" then [] else [old(buffered)])
    {
      if buffered != "" {
        lines := lines + [buffered];
      }
    }
  }

  /** The pump hands over the newline split of the whole output; an empty last part is not a line. */
  lemma PumpedLines(chunks: seq<string>)
    ensures var parts := Split(Concat(chunks), '\n');
      Fed(Newline, "", chunks) == (parts[..|parts| - 1], parts[|parts| - 1])
    ensures Join(Split(Concat(chunks), '\n'), '\n') == Concat(chunks)
  {
    ChunksDoNotMatter(Newline, chunks, chunks);
    DrainIsSplit(Concat(chunks));
    JoinSplit(Concat(chunks), '\n');
  }

  // ----- nothing lost, nothing left to cut -----

  /** The pieces of a drained text, each with the separator that ended it. */
  function Pieces(kind: Separator, s: string): seq<string>
    decreases |s|
  {
    if Find(kind, s).None? then []
    else
      var c := Find(kind, s).value;
      [s[..c.index + c.length]] + Pieces(kind, s[c.index + c.length..])
  }

  /** A piece with one separator of its kind behind it. */
  predicate EndedBy(kind: Separator, piece: string, whole: string) {
    match kind
    case SseBlank => whole == piece + "\n\n" || whole == piece + "\r\n\r\n"
    case Newline => whole == piece + "\n"
  }

  lemma CutEnds(kind: Separator, s: string)
    requires Find(kind, s).Some?
    ensures var c := Find(kind, s).value; EndedBy(kind, s[..c.index], s[..c.index + c.length])
  {
    hide IndexFrom;
    var c := Find(kind, s).value;
    assert s[..c.index + c.length] == s[..c.index] + s[c.index..c.index + c.length];
    match kind
    case SseBlank =>
    case Newline => assert s[c.index..c.index + 1] == "\n";
  }

  /** Draining tiles the text: pieces with their separators, in order, then the tail. */
  lemma {:induction false} DrainTiles(kind: Separator, s: string)
    ensures Concat(Pieces(kind, s)) + Drain(kind, s).1 == s
    ensures |Pieces(kind, s)| == |Drain(kind, s).0|
    ensures forall i :: 0 <= i < |Pieces(kind, s)| ==> EndedBy(kind, Drain(kind, s).0[i], Pieces(kind, s)[i])
    decreases |s|
  {
    hide Find, EndedBy;
    if Find(kind, s).None? {
      assert "" + s == s;
    } else {
      var c := Find(kind, s).value;
      var e := c.index + c.length;
      CutEnds(kind, s);
      DrainTiles(kind, s[e..]);
      assert s == s[..e] + s[e..];
      var ps := Pieces(kind, s);
      assert ps[1..] == Pieces(kind, s[e..]) && ps[0] == s[..e];
      Seqs.Assoc(s[..e], Concat(ps[1..]), Drain(kind, s[e..]).1);
    }
  }

  /** No separator of either kind starts before a place. */
  predicate NoneBefore(s: string, i: nat) {
    forall k: nat :: k < i ==> !At(s, k, LF2) && !At(s, k, CRLF2)
  }

  /**
   * The cut is at the first separator of either kind, and of that separator's length; there is none to make exactly
   * when there is no separator.
   */
  lemma SseCutsFirst(s: string, i: nat)
    ensures FindSseSeparator(s) == Some(Cut(i, 2)) <==> At(s, i, "\n\n") && NoneBefore(s, i)
    ensures FindSseSeparator(s) == Some(Cut(i, 4)) <==> At(s, i, "\r\n\r\n") && NoneBefore(s, i)
    ensures FindSseSeparator(s).None? <==> NoneBefore(s, |s|)
  {
    hide IndexFrom;
    assert At(s, i, LF2) ==> s[i] == s[i..i + 2][0] == '\n';
    assert At(s, i, CRLF2) ==> s[i] == s[i..i + 4][0] == '\r';
    var lf, crlf := IndexFrom(s, LF2, 0), IndexFrom(s, CRLF2, 0);
    assert lf >= 0 ==> lf < |s| && At(s, lf, LF2);
    assert crlf >= 0 ==> crlf < |s| && At(s, crlf, CRLF2);
  }
}
