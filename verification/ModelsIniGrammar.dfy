/**
 * What a models.ini file says, told from its lines alone: the shapes a line can have, the line endings a text can
 * have, and the one line of a section that answers for a key.
 */
module ModelsIniGrammar {
  import opened Text
  import opened Records
  import opened ModelsIni
  import opened ModelsIniLaws
  import Seqs

  // ----- the shapes of a line -----

  /** `key = value`, with blank space or none around either. */
  ghost predicate IsEntryLine(raw: string, key: string, value: string) {
    && IsTrimmed(key) && IsTrimmed(value) && '=' !in key
    && exists w1, w2, w3, w4 :: EntryText(raw, w1, key, w2, w3, value, w4)
  }

  predicate EntryText(raw: string, w1: string, key: string, w2: string, w3: string, value: string, w4: string) {
    && AllSpace(w1) && AllSpace(w2) && AllSpace(w3) && AllSpace(w4)
    && raw == w1 + key + w2 + "=" + w3 + value + w4
  }

  /** `[name]`, with blank space or none around it and a comment or none behind it. */
  ghost predicate IsHeaderLine(raw: string, name: string) {
    && ']' !in name && OneLine(name)
    && exists w1, w2, tail :: HeaderText(raw, w1, name, w2, tail)
  }

  predicate HeaderText(raw: string, w1: string, name: string, w2: string, tail: string) {
    && AllSpace(w1) && AllSpace(w2) && (tail == "" || IsRemark(tail))
    && raw == w1 + "[" + name + "]" + w2 + tail
  }

  predicate IsRemark(tail: string) {
    tail != "" && (tail[0] == ';' || tail[0] == '#') && forall c :: c in tail ==> !IsLineTerminator(c)
  }

  /** The first character that is not blank is `c`. */
  ghost predicate OpensWith(raw: string, c: char) {
    exists i :: 0 <= i < |raw| && AllSpace(raw[..i]) && !IsSpace(raw[i]) && raw[i] == c
  }

  ghost predicate IsCommentLine(raw: string) {
    OpensWith(raw, ';') || OpensWith(raw, '#')
  }

  lemma OpensAt(raw: string, c: char)
    requires !IsSpace(c)
    ensures OpensWith(raw, c) <==> Trim(raw) != [] && Trim(raw)[0] == c
    ensures OpensWith(raw, c) <==> TrimStart(raw) != [] && TrimStart(raw)[0] == c
  {
    hide IsSpace, TrimStart, Trim, LeadingSpace;
    var n := LeadingSpace(raw);
    TrimStartDecides(raw);
    if OpensWith(raw, c) {
      var i :| 0 <= i < |raw| && AllSpace(raw[..i]) && !IsSpace(raw[i]) && raw[i] == c;
      SameOpening(raw, i, n);
    }
    assert n < |raw| ==> AllSpace(raw[..n]) && !IsSpace(raw[n]);
  }

  lemma SameOpening(raw: string, i: nat, n: nat)
    requires i < |raw| && n <= |raw| && AllSpace(raw[..i]) && AllSpace(raw[..n])
    requires !IsSpace(raw[i]) && (n < |raw| ==> !IsSpace(raw[n]))
    ensures i == n
  {
    hide IsSpace;
    assert forall k :: 0 <= k < i ==> raw[..i][k] == raw[k];
    assert forall k :: 0 <= k < n ==> raw[..n][k] == raw[k];
  }

  lemma BlankLine(raw: string)
    ensures Trim(raw) == [] <==> AllSpace(raw)
  {
    hide IsSpace, Trim;
    var i, j := TrimParts(raw);
    if Trim(raw) == [] {
      assert raw == raw[..i] + raw[j..];
    } else {
      assert raw[i] == Trim(raw)[0];
    }
  }

  lemma HeaderParts(raw: string, w1: string, name: string, w2: string, tail: string)
    requires HeaderText(raw, w1, name, w2, tail) && ']' !in name && OneLine(name)
    ensures SectionName(raw) == Some(name)
    ensures OpensWith(raw, '[')
  {
    hide IsSpace, TrimStart, IndexOf, OneLine, IsLineTerminator, LeadingSpace;
    var t := "[" + name + "]" + w2 + tail;
    assert raw == w1 + t && t == ("[" + name) + "]" + (w2 + tail);
    TrimStartSkips(w1, t);
    assert !IsSpace('[') && !IsSpace(';') && !IsSpace('#') by { Marks(); }
    NothingToTrim(t);
    assert ']' !in "[" + name;
    IndexOfFirst("[" + name, ']', w2 + tail);
    assert t[1..|name| + 1] == name && t[|name| + 2..] == w2 + tail;
    TrimStartSkips(w2, tail);
    NothingToTrim(tail);
    assert forall i :: 1 <= i < |tail| ==> tail[i] in tail;
    OpensAt(raw, '[');
  }

  lemma Marks()
    ensures !IsSpace('[') && !IsSpace(';') && !IsSpace('#') && !IsSpace('=') && !IsSpace(']')
    ensures !IsLineTerminator(';') && !IsLineTerminator('#')
  {
  }

  lemma HeaderFound(raw: string)
    requires SectionName(raw).Some?
    ensures IsHeaderLine(raw, SectionName(raw).value)
  {
    hide IsSpace, TrimStart, IndexOf, IsLineTerminator, LeadingSpace, AllSpace, OneLine;
    var n := LeadingSpace(raw);
    var t := raw[n..];
    var close := IndexOf(t, ']');
    var name, rest := t[1..close], t[close + 1..];
    var m := LeadingSpace(rest);
    var tail := rest[m..];
    assert ']' !in name by { assert forall c :: c in name ==> c in t[..close]; }
    assert tail == "" || IsRemark(tail) by { RemarkTail(raw); }
    assert raw == raw[..n] + "[" + name + "]" + rest[..m] + tail by { CutHeader(raw, n, close, m); }
    assert HeaderText(raw, raw[..n], name, rest[..m], tail);
  }

  lemma CutHeader(raw: string, n: nat, close: nat, m: nat)
    requires n <= |raw| && 0 < close < |raw[n..]| && raw[n] == '[' && raw[n..][close] == ']'
    requires m <= |raw[n..][close + 1..]|
    ensures var t := raw[n..]; var rest := t[close + 1..];
      raw == raw[..n] + "[" + t[1..close] + "]" + rest[..m] + rest[m..]
  {
    var t := raw[n..];
    var rest := t[close + 1..];
    assert rest == rest[..m] + rest[m..];
    assert t == "[" + t[1..close] + "]" + rest;
  }

  lemma RemarkTail(raw: string)
    requires SectionName(raw).Some?
    ensures var t := TrimStart(raw); var tail := TrimStart(t[IndexOf(t, ']') + 1..]);
      tail == "" || IsRemark(tail)
  {
    hide IsSpace, TrimStart, IndexOf, IsLineTerminator, OneLine;
    Marks();
  }

  /** The name a line declares is the name it shows between its brackets, and no other. */
  lemma HeaderIff(raw: string, name: string)
    ensures SectionName(raw) == Some(name) <==> IsHeaderLine(raw, name)
    ensures IsHeaderLine(raw, name) ==> OpensWith(raw, '[')
  {
    hide SectionName, HeaderText, OpensWith, OneLine;
    if SectionName(raw) == Some(name) {
      HeaderFound(raw);
    }
    if IsHeaderLine(raw, name) {
      var w1, w2, tail :| HeaderText(raw, w1, name, w2, tail);
      HeaderParts(raw, w1, name, w2, tail);
    }
  }

  lemma EntryParts(raw: string, w1: string, key: string, w2: string, w3: string, value: string, w4: string)
    requires EntryText(raw, w1, key, w2, w3, value, w4) && IsTrimmed(key) && IsTrimmed(value) && '=' !in key
    ensures IndexOf(raw, '=') == |w1 + key + w2| < |raw|
    ensures Trim(raw[..IndexOf(raw, '=')]) == key && Trim(raw[IndexOf(raw, '=') + 1..]) == value
    ensures !AllSpace(raw)
  {
    hide IsSpace, Trim, IndexOf, IsTrimmed;
    var left, right := w1 + key + w2, w3 + value + w4;
    Marks();
    JoinSeven(w1, key, w2, "=", w3, value, w4);
    assert '=' !in left by { NoMark(w1, key, w2); }
    TwoSides(raw, left, right);
    TrimCore(w1, key, w2);
    TrimCore(w3, value, w4);
  }

  lemma JoinSeven(a: string, b: string, c: string, d: string, e: string, f: string, g: string)
    ensures a + b + c + d + e + f + g == (a + b + c) + d + (e + f + g)
  {
    Seqs.Assoc(a + b + c + d, e, f);
    Seqs.Assoc(a + b + c + d, e + f, g);
  }

  lemma NoMark(w1: string, key: string, w2: string)
    requires AllSpace(w1) && AllSpace(w2) && '=' !in key
    ensures '=' !in w1 + key + w2
  {
    hide IsSpace;
    Marks();
  }

  lemma TwoSides(raw: string, left: string, right: string)
    requires raw == left + "=" + right && '=' !in left
    ensures IndexOf(raw, '=') == |left| < |raw| && raw[..|left|] == left && raw[|left| + 1..] == right
    ensures !AllSpace(raw)
  {
    hide IsSpace, IndexOf;
    Marks();
    IndexOfFirst(left, '=', right);
    assert raw[|left|] == '=';
  }

  lemma EntryFound(raw: string)
    requires IndexOf(raw, '=') < |raw|
    ensures IsEntryLine(raw, Trim(raw[..IndexOf(raw, '=')]), Trim(raw[IndexOf(raw, '=') + 1..]))
  {
    hide IsSpace, Trim, IndexOf, IsTrimmed, AllSpace;
    var at := IndexOf(raw, '=');
    var left, right := raw[..at], raw[at + 1..];
    var w1, w2 := Around(left);
    var w3, w4 := Around(right);
    var key, value := Trim(left), Trim(right);
    NotIntroduced(left, '=');
    CutAt(raw, at);
    assert EntryText(raw, w1, key, w2, w3, value, w4) by {
      JoinSeven(w1, key, w2, "=", w3, value, w4);
    }
    hide EntryText;
  }

  lemma CutAt(raw: string, at: nat)
    requires at < |raw|
    ensures raw == raw[..at] + [raw[at]] + raw[at + 1..]
  {
  }

  lemma Around(s: string) returns (before: string, after: string)
    ensures AllSpace(before) && AllSpace(after) && s == before + Trim(s) + after && IsTrimmed(Trim(s))
  {
    hide IsSpace, Trim, IsTrimmed, AllSpace;
    var a, b := TrimParts(s);
    before, after := s[..a], s[b..];
    ThreeParts(s, a, b);
  }

  lemma NotIntroduced(s: string, c: char)
    requires c !in s
    ensures c !in Trim(s)
  {
    hide IsSpace, Trim, IsTrimmed, AllSpace;
    var a, b := TrimParts(s);
    assert forall x :: x in s[a..b] ==> x in s;
  }

  lemma ThreeParts(s: string, a: nat, b: nat)
    requires a <= b <= |s|
    ensures s == s[..a] + s[a..b] + s[b..]
  {
  }

  /** A line that is neither blank, nor a comment, nor a header, and assigns the value to the key. */
  ghost predicate Assigns(raw: string, key: string, value: string) {
    IsEntryLine(raw, key, value) && !IsCommentLine(raw) && forall name :: !IsHeaderLine(raw, name)
  }

  /** Every line is read by its shape: blank, comment, header, assignment, and anything else is malformed. */
  lemma LineReads(raw: string)
    ensures ParseLine(raw).Blank? <==> AllSpace(raw)
    ensures ParseLine(raw).Comment? <==> IsCommentLine(raw)
    ensures forall name :: (ParseLine(raw) == Section(name, Some(raw), false)) <==> IsHeaderLine(raw, name)
    ensures forall key, value ::
      (ParseLine(raw) == KeyValue(key, value, Some(raw), false)) <==> Assigns(raw, key, value)
    ensures ParseLine(raw).Section? ==> IsHeaderLine(raw, ParseLine(raw).name)
    ensures ParseLine(raw).KeyValue? ==> Assigns(raw, ParseLine(raw).key, ParseLine(raw).value)
  {
    hide IsSpace, Trim, IndexOf, AllSpace, SectionName, IsHeaderLine, IsEntryLine, OpensWith;
    Marks();
    BlankLine(raw);
    OpensAt(raw, ';');
    OpensAt(raw, '#');
    OpensAt(raw, '[');
    forall name ensures SectionName(raw) == Some(name) <==> IsHeaderLine(raw, name)
      ensures IsHeaderLine(raw, name) ==> OpensWith(raw, '[')
    {
      HeaderIff(raw, name);
    }
    if IndexOf(raw, '=') < |raw| {
      EntryFound(raw);
    }
    forall key, value | IsEntryLine(raw, key, value)
      ensures IndexOf(raw, '=') < |raw| && !AllSpace(raw)
      ensures Trim(raw[..IndexOf(raw, '=')]) == key && Trim(raw[IndexOf(raw, '=') + 1..]) == value
    {
      EntryAt(raw, key, value);
    }
  }

  lemma EntryAt(raw: string, key: string, value: string)
    requires IsEntryLine(raw, key, value)
    ensures IndexOf(raw, '=') < |raw| && !AllSpace(raw)
    ensures Trim(raw[..IndexOf(raw, '=')]) == key && Trim(raw[IndexOf(raw, '=') + 1..]) == value
  {
    hide EntryText, Trim, IndexOf, IsSpace;
    var w1, w2, w3, w4 :| EntryText(raw, w1, key, w2, w3, value, w4);
    EntryParts(raw, w1, key, w2, w3, value, w4);
  }

  /** However an assignment is spaced, with or without blanks around its parts, it reads as that key and value. */
  lemma EntryLineReads(w1: string, key: string, w2: string, w3: string, value: string, w4: string)
    requires AllSpace(w1) && AllSpace(w2) && AllSpace(w3) && AllSpace(w4)
    requires IsTrimmed(key) && IsTrimmed(value) && '=' !in key
    requires key == "" || (key[0] != ';' && key[0] != '#' && key[0] != '[')
    ensures var raw := w1 + key + w2 + "=" + w3 + value + w4;
      ParseLine(raw) == KeyValue(key, value, Some(raw), false)
  {
    hide IsSpace, ParseLine, AllSpace;
    var raw := w1 + key + w2 + "=" + w3 + value + w4;
    assert EntryText(raw, w1, key, w2, w3, value, w4);
    assert IsEntryLine(raw, key, value);
    var c := if key == "" then '=' else key[0];
    var opening := if key == "" then w1 + w2 else w1;
    JoinSeven(w1, key, w2, "=", w3, value, w4);
    OpeningOf(w1, key, w2, w3 + value + w4, raw);
    Marks();
    assert AllSpace(opening) by { BlankTogether(w1, w2); }
    OpensAfter(raw, opening, c);
    OnlyOpening(raw, c);
    LineReads(raw);
    forall name ensures !IsHeaderLine(raw, name) {
      HeaderIff(raw, name);
    }
  }

  /** A header may stand after blank space and before blank space and a comment. */
  lemma HeaderLineReads(w1: string, name: string, w2: string, tail: string)
    requires AllSpace(w1) && AllSpace(w2) && ']' !in name && OneLine(name) && (tail == "" || IsRemark(tail))
    ensures var raw := w1 + "[" + name + "]" + w2 + tail; ParseLine(raw) == Section(name, Some(raw), false)
  {
    hide IsSpace, ParseLine, AllSpace, OneLine, IsRemark;
    var raw := w1 + "[" + name + "]" + w2 + tail;
    assert HeaderText(raw, w1, name, w2, tail);
    LineReads(raw);
  }

  lemma OpeningOf(w1: string, key: string, w2: string, rest: string, raw: string)
    requires raw == w1 + key + w2 + "=" + rest
    ensures var opening := if key == "" then w1 + w2 else w1;
      |opening| < |raw| && raw == opening + [if key == "" then '=' else key[0]] + raw[|opening| + 1..]
  {
  }

  lemma OpensAfter(raw: string, opening: string, c: char)
    requires AllSpace(opening) && !IsSpace(c) && |opening| < |raw|
    requires raw == opening + [c] + raw[|opening| + 1..]
    ensures OpensWith(raw, c)
  {
    hide IsSpace;
    assert raw[..|opening|] == opening && raw[|opening|] == c;
  }

  lemma OnlyOpening(raw: string, c: char)
    requires OpensWith(raw, c)
    ensures forall d :: OpensWith(raw, d) ==> d == c
  {
    hide IsSpace, OpensWith, Trim;
    forall d | OpensWith(raw, d) ensures d == c {
      OpeningsAgree(raw, c, d);
    }
  }

  lemma OpeningsAgree(raw: string, c: char, d: char)
    requires OpensWith(raw, c) && OpensWith(raw, d)
    ensures c == d
  {
    hide IsSpace;
    var i :| 0 <= i < |raw| && AllSpace(raw[..i]) && !IsSpace(raw[i]) && raw[i] == c;
    var j :| 0 <= j < |raw| && AllSpace(raw[..j]) && !IsSpace(raw[j]) && raw[j] == d;
    SameOpening(raw, i, j);
  }

  // ----- the lines of a text -----

  predicate Ending(e: string) {
    e == "\n" || e == "\r" || e == "\r\n"
  }

  /** Lines, each with the ending the file has it under. */
  function FileText(lines: seq<string>, ends: seq<string>): string
    requires |lines| == |ends|
  {
    if lines == [] then "" else lines[0] + (ends[0] + FileText(lines[1..], ends[1..]))
  }

  /**
   * Any mixture of line endings, the last line perhaps without one; only a lone carriage return and a newline
   * cannot have an empty line between them.
   */
  predicate Lined(lines: seq<string>, ends: seq<string>) {
    && |lines| == |ends|
    && (forall i :: 0 <= i < |lines| ==> OneLine(lines[i]))
    && (forall i :: 0 <= i < |lines| ==> Ending(ends[i]) || (ends[i] == "" && i == |lines| - 1 && lines[i] != ""))
    && (forall i :: 0 <= i < |lines| - 1 ==> !(ends[i] == "\r" && lines[i + 1] == "" && ends[i + 1] == "\n"))
  }

  lemma NormalEnding(e: string, rest: string)
    requires Ending(e) && (e == "\r" ==> !NewlineFirst(rest))
    ensures NormalizeNewlines(e + rest) == "\n" + NormalizeNewlines(rest)
  {
    var s := e + rest;
    if e == "\r\n" {
      assert s[2..] == rest;
    } else {
      assert s[1..] == rest;
    }
  }

  lemma {:induction false} NormalLine(line: string, rest: string)
    requires OneLine(line)
    ensures NormalizeNewlines(line + rest) == line + NormalizeNewlines(rest)
  {
    hide NormalizeNewlines;
    if line == "" {
      assert line + rest == rest && "" + NormalizeNewlines(rest) == NormalizeNewlines(rest);
    } else {
      assert line + rest == [line[0]] + (line[1..] + rest);
      NormalCharacter(line[0], line[1..] + rest);
      NormalLine(line[1..], rest);
      assert line == [line[0]] + line[1..];
      Seqs.Assoc([line[0]], line[1..], NormalizeNewlines(rest));
    }
  }

  lemma NormalCharacter(c: char, rest: string)
    requires !IsNewline(c)
    ensures NormalizeNewlines([c] + rest) == [c] + NormalizeNewlines(rest)
  {
    assert ([c] + rest)[1..] == rest;
  }

  /** The lines with plain newlines between them, and one behind the last where it has an ending. */
  function PlainText(lines: seq<string>, closed: bool): string {
    if lines == [] then "" else Join(lines, '\n') + if closed then "\n" else ""
  }

  lemma PlainTextCons(lines: seq<string>, closed: bool)
    requires lines != []
    ensures PlainText(lines, closed)
         == lines[0] + ((if |lines| > 1 || closed then "\n" else "") + PlainText(lines[1..], closed))
  {
  }

  lemma {:induction false} NormalFile(lines: seq<string>, ends: seq<string>)
    requires Lined(lines, ends)
    ensures NormalizeNewlines(FileText(lines, ends)) == PlainText(lines, lines != [] && ends[|ends| - 1] != "")
    decreases |lines|
  {
    hide NormalizeNewlines, PlainText, OneLine, Ending;
    if lines == [] {
      assert NormalizeNewlines("") == "" by { NormalizeNoCr(""); }
      assert PlainText([], false) == "" by { NoLines(); }
    } else {
      var rest := FileText(lines[1..], ends[1..]);
      TailLined(lines, ends);
      NormalFile(lines[1..], ends[1..]);
      NormalLine(lines[0], ends[0] + rest);
      var closed := ends[|ends| - 1] != "";
      PlainTextCons(lines, closed);
      if ends[0] == "" {
        assert lines[1..] == [] && rest == "" && "" + "" == "";
        NoLines();
        NormalizeNoCr("");
      } else {
        if ends[0] == "\r" {
          AfterReturn(lines, ends);
        }
        NormalEnding(ends[0], rest);
        if |lines| == 1 {
          NoLines();
        }
      }
    }
  }

  lemma NoLines()
    ensures PlainText([], false) == "" && PlainText([], true) == ""
  {
  }

  lemma TailLined(lines: seq<string>, ends: seq<string>)
    requires Lined(lines, ends) && lines != []
    ensures Lined(lines[1..], ends[1..])
    ensures |lines| > 1 ==> ends[1..][|ends[1..]| - 1] == ends[|ends| - 1] && ends[0] != ""
  {
    hide OneLine;
    var l, e := lines[1..], ends[1..];
    assert forall i :: 0 <= i < |l| ==> l[i] == lines[i + 1] && e[i] == ends[i + 1];
    assert |lines| > 1 ==> Ending(ends[0]);
  }

  predicate NewlineFirst(s: string) {
    s != "" && s[0] == '\n'
  }

  lemma AfterReturn(lines: seq<string>, ends: seq<string>)
    requires Lined(lines, ends) && lines != [] && ends[0] == "\r"
    ensures !NewlineFirst(FileText(lines[1..], ends[1..]))
  {
    hide OneLine, Ending, NewlineFirst;
    var l, e := lines[1..], ends[1..];
    if l == [] {
      NothingFirst();
    } else {
      assert l[0] == lines[1] && e[0] == ends[1];
      assert !(ends[0] == "\r" && lines[0 + 1] == "" && ends[0 + 1] == "\n");
      FirstIsPlain(l[0], e[0], FileText(l[1..], e[1..]));
    }
  }

  lemma NothingFirst()
    ensures !NewlineFirst("")
  {
  }

  lemma FirstIsPlain(line: string, e: string, rest: string)
    requires OneLine(line) && (Ending(e) || (e == "" && line != "")) && !(line == "" && e == "\n")
    ensures !NewlineFirst(line + (e + rest))
  {
    FirstOf(line, e, rest);
    if line == "" {
      assert e[0] == '\r';
    } else {
      assert !IsNewline(line[0]);
    }
  }

  lemma FirstOf(line: string, e: string, rest: string)
    ensures line != "" ==> (line + (e + rest))[0] == line[0]
    ensures line == "" && e != "" ==> (line + (e + rest))[0] == e[0]
  {
  }

  /** A file's lines are what stands between its line endings, whatever mixture of endings it uses. */
  lemma FileLines(lines: seq<string>, ends: seq<string>)
    requires Lined(lines, ends)
    ensures TextLines(FileText(lines, ends)) == lines
  {
    hide NormalizeNewlines, FileText, Join, Split;
    NormalFile(lines, ends);
    if lines != [] {
      forall k | 0 <= k < |lines| ensures '\n' !in lines[k] {
        assert OneLine(lines[k]);
      }
      SplitJoin(lines, '\n');
      var joined := Join(lines, '\n');
      if ends[|ends| - 1] != "" {
        assert (joined + "\n")[..|joined|] == joined;
      } else {
        LastOfJoin(lines);
        assert joined + "" == joined;
      }
    }
  }

  lemma {:induction false} LastOfJoin(lines: seq<string>)
    requires lines != [] && lines[|lines| - 1] != "" && OneLine(lines[|lines| - 1])
    ensures var joined := Join(lines, '\n'); joined != "" && joined[|joined| - 1] != '\n'
  {
    if |lines| > 1 {
      LastOfJoin(lines[1..]);
      assert Join(lines, '\n') == (lines[0] + "\n") + Join(lines[1..], '\n');
    }
  }

  // ----- the line that answers for a key -----

  ghost predicate IsAnyHeader(line: string) {
    exists name :: IsHeaderLine(line, name)
  }

  ghost predicate Heads(line: string, name: string) {
    exists shown :: IsHeaderLine(line, shown) && Trim(shown) == Trim(name)
  }

  /** The lines from the section's first header up to the next header of any name; the preamble before them all. */
  ghost predicate InSection(lines: seq<string>, section: SectionRef, i: nat)
    requires i < |lines|
  {
    match section
    case None => forall j :: 0 <= j <= i ==> !IsAnyHeader(lines[j])
    case Some(name) =>
      exists h :: 0 <= h < i && Heads(lines[h], name) && (forall j :: 0 <= j < h ==> !Heads(lines[j], name))
                  && (forall j :: h < j <= i ==> !IsAnyHeader(lines[j]))
  }

  ghost predicate AssignsKey(line: string, key: string) {
    exists value :: Assigns(line, key, value)
  }

  /** The last line of the section that assigns to the key. */
  ghost predicate Speaks(lines: seq<string>, section: SectionRef, i: nat, key: string, value: string)
    requires i < |lines|
  {
    && InSection(lines, section, i) && Assigns(lines[i], key, value)
    && forall j :: i < j < |lines| && InSection(lines, section, j) ==> !AssignsKey(lines[j], key)
  }

  lemma NodeOf(text: string, i: nat)
    requires i < |TextLines(text)|
    ensures var n, line := Parse(text)[i], TextLines(text)[i];
      && (n.Section? <==> IsAnyHeader(line))
      && (forall name :: IsHeaderOf(n, name) <==> Heads(line, name))
      && (forall key, value :: (n.KeyValue? && n.key == key && n.value == value) <==> Assigns(line, key, value))
      && (forall key :: Trim(key) == key ==> (IsEntryOf(n, key) <==> AssignsKey(line, key)))
  {
    hide IsHeaderLine, Assigns, Trim, TextLines;
    var line := TextLines(text)[i];
    var n := Parse(text)[i];
    assert n == ParseLine(line);
    LineReads(line);
    SourceKept(line);
    hide ParseLine;
    if n.KeyValue? {
      assert Assigns(line, n.key, n.value);
      KeyIsTrimmed(line, n.key, n.value);
    }
  }

  lemma SourceKept(line: string)
    ensures var n := ParseLine(line);
      && (n.Section? ==> n == Section(n.name, Some(line), false))
      && (n.KeyValue? ==> n == KeyValue(n.key, n.value, Some(line), false))
  {
    hide Trim, SectionName, IndexOf;
  }

  lemma KeyIsTrimmed(line: string, key: string, value: string)
    requires Assigns(line, key, value)
    ensures Trim(key) == key
  {
    TrimTrimmed(key);
  }

  lemma SectionLines(text: string, section: SectionRef, i: nat)
    requires i < |TextLines(text)|
    ensures var b := SectionBounds(Parse(text), section);
      InSection(TextLines(text), section, i) <==> b.Some? && b.value.start <= i < b.value.end
  {
    hide Parse, TextLines, SectionBounds, IsHeaderOf, Heads, IsAnyHeader;
    var lines, doc := TextLines(text), Parse(text);
    forall j | 0 <= j < |lines|
      ensures doc[j].Section? <==> IsAnyHeader(lines[j])
      ensures forall name :: IsHeaderOf(doc[j], name) <==> Heads(lines[j], name)
    {
      NodeOf(text, j);
    }
    BoundsAmong(doc, section, i);
  }

  /** A line is within the bounds exactly when the section's first header is above it and no other between. */
  lemma BoundsAmong(doc: Document, section: SectionRef, i: nat)
    requires i < |doc|
    ensures var b := SectionBounds(doc, section);
      (b.Some? && b.value.start <= i < b.value.end) <==>
        (match section
         case None => forall j :: 0 <= j <= i ==> !doc[j].Section?
         case Some(name) =>
           exists h :: 0 <= h < i && IsHeaderOf(doc[h], name) && (forall j :: 0 <= j < h ==> !IsHeaderOf(doc[j], name))
                       && (forall j :: h < j <= i ==> !doc[j].Section?))
  {
    hide SectionBounds;
    var b := SectionBounds(doc, section);
  }

  /** What a section answers for a key is what the last line of it that assigns to the key says. */
  lemma SectionAnswers(text: string, section: SectionRef, key: string, value: string)
    ensures Get(SectionValues(Parse(text), section), key) == Some(value)
      <==> exists i :: 0 <= i < |TextLines(text)| && Speaks(TextLines(text), section, i, key, value)
  {
    hide Parse, TextLines, SectionBounds, SectionValues, Get, Speaks, Trim;
    var lines := TextLines(text);
    if Get(SectionValues(Parse(text), section), key) == Some(value) {
      var i := SpeakerOf(text, section, key, value);
    }
    if i :| 0 <= i < |lines| && Speaks(lines, section, i, key, value) {
      SpeakerIsHeard(text, section, i, key, value);
    }
  }

  lemma KeyRead(text: string, section: SectionRef, key: string)
    requires Get(SectionValues(Parse(text), section), key).Some?
    ensures Trim(key) == key
  {
    hide Parse, SectionBounds, Trim, Read;
    GetKeys(SectionValues(Parse(text), section), key);
    ReadKeys(Body(Parse(text), section));
  }

  lemma SpeakerOf(text: string, section: SectionRef, key: string, value: string) returns (i: nat)
    requires Get(SectionValues(Parse(text), section), key) == Some(value)
    ensures i < |TextLines(text)| && Speaks(TextLines(text), section, i, key, value)
  {
    hide Parse, TextLines, SectionBounds, Trim, Read, InSection, Assigns, AssignsKey, IsEntryOf, Get, LastEntry;
    var lines, doc := TextLines(text), Parse(text);
    KeyRead(text, section, key);
    var body := Body(doc, section);
    GetRead(body, key);
    var b := SectionBounds(doc, section).value;
    var at := LastEntry(body, key);
    i := b.start + at;
    assert doc[i] == body[at];
    NodeOf(text, i);
    SectionLines(text, section, i);
    assert body[at].KeyValue? by { EntryIsKeyValue(body[at], key); }
    SpokenKey(text, i, key);
    forall j | i < j < |lines| && InSection(lines, section, j) ensures !AssignsKey(lines[j], key) {
      SectionLines(text, section, j);
      NodeOf(text, j);
      assert doc[j] == body[j - b.start];
    }
  }

  lemma EntryIsKeyValue(n: Node, key: string)
    requires IsEntryOf(n, key)
    ensures n.KeyValue? && Trim(n.key) == Trim(key)
  {
  }

  lemma SpokenKey(text: string, i: nat, key: string)
    requires i < |TextLines(text)| && IsEntryOf(Parse(text)[i], key) && Trim(key) == key
    ensures Assigns(TextLines(text)[i], key, Parse(text)[i].value)
  {
    hide Parse, TextLines, Trim, Assigns;
    NodeOf(text, i);
    var n := Parse(text)[i];
    assert Assigns(TextLines(text)[i], n.key, n.value);
    KeyIsTrimmed(TextLines(text)[i], n.key, n.value);
  }

  lemma SpeakerIsHeard(text: string, section: SectionRef, i: nat, key: string, value: string)
    requires i < |TextLines(text)| && Speaks(TextLines(text), section, i, key, value)
    ensures Get(SectionValues(Parse(text), section), key) == Some(value)
  {
    hide Parse, TextLines, SectionBounds, Trim, Read, InSection, Assigns, AssignsKey, Get;
    var lines, doc := TextLines(text), Parse(text);
    KeyIsTrimmed(lines[i], key, value);
    NodeOf(text, i);
    SectionLines(text, section, i);
    var b := SectionBounds(doc, section).value;
    var body := Body(doc, section);
    var at := i - b.start;
    assert body[at] == doc[i];
    forall x | at < x < |body| ensures !IsEntryOf(body[x], key) {
      SectionLines(text, section, b.start + x);
      NodeOf(text, b.start + x);
      assert body[x] == doc[b.start + x];
    }
    assert IsEntryOf(body[at], key);
    assert LastEntry(body, key) == at;
    GetRead(body, key);
  }

  /** The same for a file as it stands on disk, line endings and all. */
  lemma FileAnswers(lines: seq<string>, ends: seq<string>, section: SectionRef, key: string, value: string)
    requires Lined(lines, ends)
    ensures Get(SectionValues(Parse(FileText(lines, ends)), section), key) == Some(value)
      <==> exists i :: 0 <= i < |lines| && Speaks(lines, section, i, key, value)
  {
    hide FileText, Parse, SectionValues, Speaks, TextLines, Get;
    FileLines(lines, ends);
    SectionAnswers(FileText(lines, ends), section, key, value);
  }

  /** Every text is such a file. */
  lemma {:induction false} EveryText(text: string) returns (lines: seq<string>, ends: seq<string>)
    ensures Lined(lines, ends) && FileText(lines, ends) == text
    decreases |text|
  {
    if text == "" {
      lines, ends := [], [];
    } else {
      hide OneLine, Lined;
      var n := LineEnd(text);
      var line, e := text[..n], EndingAt(text, n);
      var rest := text[n + |e|..];
      var l, es := EveryText(rest);
      lines, ends := [line] + l, [e] + es;
      assert lines[1..] == l && ends[1..] == es;
      assert text == line + (e + rest) by { CutText(text, n, e); }
      assert l != [] && e == "\r" ==> !(l[0] == "" && es[0] == "\n") by {
        if l != [] {
          FirstOf(l[0], es[0], FileText(l[1..], es[1..]));
          assert "\n"[0] == '\n';
        }
      }
      NoEmptyFile(l, es);
      LinedCons(line, e, l, es);
    }
  }

  /** The longest ending that starts at `n`. */
  function EndingAt(text: string, n: nat): (e: string)
    requires n <= |text| && (n < |text| ==> IsNewline(text[n]))
    ensures n + |e| <= |text| && text[n..n + |e|] == e && (n == |text| <==> e == "")
    ensures n < |text| ==> Ending(e)
    ensures e == "\r" && n + 1 < |text| ==> text[n + 1] != '\n'
  {
    if n == |text| then ""
    else if text[n] == '\n' then "\n"
    else if n + 1 < |text| && text[n + 1] == '\n' then "\r\n"
    else "\r"
  }

  lemma CutText(text: string, n: nat, e: string)
    requires n + |e| <= |text| && text[n..n + |e|] == e
    ensures text == text[..n] + (e + text[n + |e|..])
  {
  }

  lemma NoEmptyFile(lines: seq<string>, ends: seq<string>)
    requires Lined(lines, ends)
    ensures lines != [] ==> FileText(lines, ends) != ""
  {
    if lines != [] {
      assert Ending(ends[0]) || lines[0] != "";
    }
  }

  lemma LinedCons(line: string, e: string, l: seq<string>, es: seq<string>)
    requires Lined(l, es) && OneLine(line) && (Ending(e) || (e == "" && l == [] && line != ""))
    requires l != [] && e == "\r" ==> !(l[0] == "" && es[0] == "\n")
    ensures Lined([line] + l, [e] + es)
  {
    hide OneLine, Ending;
    var lines, ends := [line] + l, [e] + es;
    assert forall i :: 0 < i < |lines| ==> lines[i] == l[i - 1] && ends[i] == es[i - 1];
  }

  function LineEnd(s: string): (n: nat)
    ensures n <= |s| && OneLine(s[..n]) && (n < |s| ==> IsNewline(s[n]))
  {
    if s == [] || IsNewline(s[0]) then 0
    else
      var n := 1 + LineEnd(s[1..]);
      assert s[..n] == [s[0]] + s[1..][..n - 1];
      n
  }
}
