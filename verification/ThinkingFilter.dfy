/** Dropping the stray end-of-thinking tag a forced-closed reasoning block echoes into an answer. */
module ThinkingFilter {
  import opened Text
  import Seqs

  const THINKING_END_TAGS: seq<string> := ["</think>", "</thinking>", "</thought>", "</reasoning>", "<channel|>"]
  const LONGEST_THINKING_END_TAG: nat := 12
  const MAX_BUFFERED_PREFIX: nat := LONGEST_THINKING_END_TAG + 8

  predicate IsTag(s: string) {
    s in THINKING_END_TAGS
  }

  /** The tag a text opens with, if any. */
  function LeadingTag(s: string): (r: Option<string>)
    ensures r.Some? ==> IsTag(r.value) && r.value <= s
    ensures r.None? ==> forall tag :: IsTag(tag) ==> !(tag <= s)
  {
    var t := THINKING_END_TAGS;
    if t[0] <= s then Some(t[0])
    else if t[1] <= s then Some(t[1])
    else if t[2] <= s then Some(t[2])
    else if t[3] <= s then Some(t[3])
    else if t[4] <= s then Some(t[4])
    else None
  }

  function StripLeadingThinkingEndTag(text: string): string {
    var trimmed := TrimStart(text);
    var tag := LeadingTag(trimmed);
    if tag.None? then text else TrimStart(trimmed[|tag.value|..])
  }

  predicate CouldBecomeThinkingEndTag(text: string) {
    |text| <= MAX_BUFFERED_PREFIX &&
    var trimmed := TrimStart(text);
    |trimmed| <= LONGEST_THINKING_END_TAG && exists tag :: tag in THINKING_END_TAGS && trimmed <= tag
  }

  lemma TagLengths()
    ensures forall tag :: IsTag(tag) ==>
      1 <= |tag| <= LONGEST_THINKING_END_TAG && tag[0] == '<' && tag[|tag| - 1] == '>'
      && forall i :: 0 <= i < |tag| - 1 ==> tag[i] != '>'
  {
  }

  /** No tag opens another, so a text opens with at most one. */
  lemma OneLeadingTag(s: string, a: string, b: string)
    requires IsTag(a) && IsTag(b) && a <= s && b <= s
    ensures a == b
  {
    hide IsTag;
    TagLengths();
    assert forall i :: 0 <= i < |a| ==> a[i] == s[i];
    assert forall i :: 0 <= i < |b| ==> b[i] == s[i];
    assert |a| == |b|;
  }

  lemma LeadingTagExtends(s: string, rest: string)
    ensures LeadingTag(s).Some? ==> LeadingTag(s + rest) == LeadingTag(s)
    ensures LeadingTag("").None?
  {
    hide IsTag, LeadingTag;
    TagLengths();
    if LeadingTag(s).Some? {
      var tag := LeadingTag(s).value;
      assert tag <= s + rest;
      OneLeadingTag(s + rest, tag, LeadingTag(s + rest).value);
    }
  }

  /** A tag between blank space in front of a text goes, with the blank space around it. */
  lemma EchoIsStripped(w: string, tag: string, rest: string)
    requires AllSpace(w) && IsTag(tag)
    ensures StripLeadingThinkingEndTag(w + tag + rest) == TrimStart(rest)
  {
    hide IsTag, LeadingTag, TrimStart, IsSpace;
    TagLengths();
    var t := tag + rest;
    assert w + tag + rest == w + t && t[0] == '<';
    TrimStartSkips(w, t);
    BracketStays(t);
    assert tag <= t;
    OneLeadingTag(t, tag, LeadingTag(t).value);
    assert t[|tag|..] == rest;
  }

  lemma BracketStays(t: string)
    requires t != "" && t[0] == '<'
    ensures TrimStart(t) == t
  {
  }

  // ----- the filter -----

  datatype Filter = Filter(buffer: string, decided: bool)

  const START := Filter("", false)

  function PushStep(f: Filter, delta: string): (Filter, string) {
    if f.decided then (f, delta)
    else
      var buffer := f.buffer + delta;
      if CouldBecomeThinkingEndTag(buffer) then (Filter(buffer, false), "")
      else (Filter("", true), StripLeadingThinkingEndTag(buffer))
  }

  function FlushStep(f: Filter): (Filter, string) {
    if f.decided then (f, "") else (Filter("", true), StripLeadingThinkingEndTag(f.buffer))
  }

  class ThinkingEndTagFilter {
    var buffer: string
    var decided: bool

    ghost function View(): Filter
      reads this
    {
      Filter(buffer, decided)
    }

    constructor ()
      ensures View() == START
    {
      buffer, decided := "", false;
    }

    method Push(delta: string) returns (emitted: string)
      modifies this
      ensures (View(), emitted) == PushStep(old(View()), delta)
    {
      if decided {
        return delta;
      }
      buffer := buffer + delta;
      if CouldBecomeThinkingEndTag(buffer) {
        return "";
      }
      decided := true;
      emitted := StripLeadingThinkingEndTag(buffer);
      buffer := "";
    }

    method Flush() returns (emitted: string)
      modifies this
      ensures (View(), emitted) == FlushStep(old(View()))
    {
      if decided {
        return "";
      }
      decided := true;
      emitted := StripLeadingThinkingEndTag(buffer);
      buffer := "";
    }
  }

  function Concat(chunks: seq<string>): string {
    if chunks == [] then "" else chunks[0] + Concat(chunks[1..])
  }

  /** Everything the filter emits for these deltas, the final flush included. */
  function Filtered(f: Filter, chunks: seq<string>): string
    decreases |chunks|
  {
    if chunks == [] then FlushStep(f).1
    else PushStep(f, chunks[0]).1 + Filtered(PushStep(f, chunks[0]).0, chunks[1..])
  }

  // ----- where the decision falls -----

  lemma {:induction false} Decided(chunks: seq<string>, f: Filter)
    requires f.decided
    ensures Filtered(f, chunks) == Concat(chunks)
    decreases |chunks|
  {
    if chunks != [] {
      Decided(chunks[1..], f);
    }
  }

  /** The whole output: the opening `p`, stripped, then the rest untouched; `p` is undecidable no longer. */
  lemma {:induction false} Decision(chunks: seq<string>, f: Filter) returns (p: string, rest: string)
    requires !f.decided
    ensures f.buffer + Concat(chunks) == p + rest
    ensures Filtered(f, chunks) == StripLeadingThinkingEndTag(p) + rest
    ensures rest == "" || !CouldBecomeThinkingEndTag(p)
    decreases |chunks|
  {
    hide StripLeadingThinkingEndTag, CouldBecomeThinkingEndTag;
    if chunks == [] {
      p, rest := f.buffer, "";
    } else {
      var buffer := f.buffer + chunks[0];
      assert f.buffer + Concat(chunks) == buffer + Concat(chunks[1..]);
      if CouldBecomeThinkingEndTag(buffer) {
        p, rest := Decision(chunks[1..], Filter(buffer, false));
        assert "" + Filtered(Filter(buffer, false), chunks[1..]) == Filtered(f, chunks);
      } else {
        p, rest := buffer, Concat(chunks[1..]);
        Decided(chunks[1..], Filter("", true));
      }
    }
  }

  // ----- what is held back -----

  /** The filter and everything it has emitted after these deltas, before any flush. */
  function Pushed(chunks: seq<string>): (Filter, string)
    decreases |chunks|
  {
    if chunks == [] then (START, "")
    else
      var n := |chunks| - 1;
      var before := Pushed(chunks[..n]);
      var step := PushStep(before.0, chunks[n]);
      (step.0, before.1 + step.1)
  }

  predicate OpeningIsClear(chunks: seq<string>, k: nat)
    requires k <= |chunks|
  {
    !CouldBecomeThinkingEndTag(Concat(chunks[..k]))
  }

  /** Some opening of the stream can no longer become a tag. */
  ghost predicate Decidable(chunks: seq<string>) {
    exists k: nat :: k <= |chunks| && OpeningIsClear(chunks, k)
  }

  /**
   * At every moment of every stream: until some opening of it can no longer become a tag everything is
   * held back and that is at most twenty characters; from then on nothing is.
   */
  lemma {:induction false} HeldBack(chunks: seq<string>)
    ensures var (f, shown) := Pushed(chunks);
      && |f.buffer| <= MAX_BUFFERED_PREFIX
      && (f.decided <==> Decidable(chunks))
      && (!f.decided ==> shown == "" && f.buffer == Concat(chunks))
      && (f.decided ==> f.buffer == "" && shown == Filtered(START, chunks))
    decreases |chunks|
  {
    hide CouldBecomeThinkingEndTag, StripLeadingThinkingEndTag, Filtered, Concat, Decidable;
    if chunks == [] {
      NothingPushed();
    } else {
      var n := |chunks| - 1;
      HeldBack(chunks[..n]);
      ConcatLast(chunks);
      DecidableLast(chunks);
      BufferedIsShort(Concat(chunks));
      if Pushed(chunks).0.decided {
        PushedThen(chunks, []);
        assert chunks + [] == chunks;
        FlushedNothing(Pushed(chunks).0, Pushed(chunks).1);
      }
    }
  }

  lemma NothingPushed()
    ensures !Decidable([]) && Concat([]) == ""
  {
    assert TrimStart("") <= THINKING_END_TAGS[0] && THINKING_END_TAGS[0] in THINKING_END_TAGS;
    assert CouldBecomeThinkingEndTag("");
    var none: seq<string> := [];
    assert none[..0] == [] && !OpeningIsClear(none, 0);
  }

  lemma {:induction false} ConcatLast(chunks: seq<string>)
    requires chunks != []
    ensures Concat(chunks) == Concat(chunks[..|chunks| - 1]) + chunks[|chunks| - 1]
  {
    var n := |chunks| - 1;
    if n == 0 {
      assert chunks[1..] == [] && chunks[..0] == [];
    } else {
      ConcatLast(chunks[1..]);
      assert chunks[1..][..n - 1] == chunks[..n][1..];
      Seqs.Assoc(chunks[0], Concat(chunks[..n][1..]), chunks[n]);
    }
  }

  lemma DecidableLast(chunks: seq<string>)
    requires chunks != []
    ensures Decidable(chunks)
       <==> Decidable(chunks[..|chunks| - 1]) || !CouldBecomeThinkingEndTag(Concat(chunks))
  {
    hide OpeningIsClear, CouldBecomeThinkingEndTag, Concat;
    var n := |chunks| - 1;
    ClearOfPrefix(chunks, n);
    assert OpeningIsClear(chunks, |chunks|) <==> !CouldBecomeThinkingEndTag(Concat(chunks)) by {
      ClearWhole(chunks);
    }
    if Decidable(chunks[..n]) {
      var k: nat :| k <= n && OpeningIsClear(chunks[..n], k);
      assert OpeningIsClear(chunks, k);
    }
  }

  lemma ClearWhole(chunks: seq<string>)
    ensures OpeningIsClear(chunks, |chunks|) <==> !CouldBecomeThinkingEndTag(Concat(chunks))
  {
    hide CouldBecomeThinkingEndTag, Concat;
    assert chunks[..|chunks|] == chunks;
  }

  lemma ClearOfPrefix(chunks: seq<string>, n: nat)
    requires n <= |chunks|
    ensures forall k: nat :: k <= n ==> (OpeningIsClear(chunks[..n], k) <==> OpeningIsClear(chunks, k))
  {
    hide CouldBecomeThinkingEndTag, Concat;
    forall k: nat | k <= n ensures OpeningIsClear(chunks[..n], k) <==> OpeningIsClear(chunks, k) {
      assert chunks[..n][..k] == chunks[..k];
    }
  }

  lemma BufferedIsShort(text: string)
    ensures CouldBecomeThinkingEndTag(text) ==> |text| <= MAX_BUFFERED_PREFIX
  {
  }

  lemma FlushedNothing(f: Filter, shown: string)
    requires f.decided
    ensures shown + Filtered(f, []) == shown
  {
  }

  /** The filter goes on from where the deltas so far have brought it. */
  lemma {:induction false} PushedThen(chunks: seq<string>, rest: seq<string>)
    ensures Filtered(START, chunks + rest) == Pushed(chunks).1 + Filtered(Pushed(chunks).0, rest)
    decreases |chunks|
  {
    hide PushStep, FlushStep;
    if chunks == [] {
      assert chunks + rest == rest && "" + Filtered(START, rest) == Filtered(START, rest);
    } else {
      var n := |chunks| - 1;
      var tail := [chunks[n]] + rest;
      PushedThen(chunks[..n], tail);
      assert chunks[..n] + tail == chunks + rest && tail[1..] == rest;
    }
  }

  // ----- what is dropped -----

  predicate IsEchoedTag(s: string) {
    exists i, j :: 0 <= i <= j <= |s| && AllSpace(s[..i]) && IsTag(s[i..j]) && AllSpace(s[j..])
  }

  lemma StripParts(p: string) returns (dropped: string)
    ensures p == dropped + StripLeadingThinkingEndTag(p)
    ensures dropped == "" || IsEchoedTag(dropped)
    ensures LeadingTag(TrimStart(p)).None? ==> dropped == ""
  {
    hide IsSpace, IsTag, LeadingTag, LeadingSpace, TrimStart;
    var n := LeadingSpace(p);
    var tag := LeadingTag(TrimStart(p));
    if tag.None? {
      dropped := "";
    } else {
      var after := TrimStart(p)[|tag.value|..];
      var m := LeadingSpace(after);
      dropped := p[..n] + tag.value + after[..m];
      assert p == p[..n] + TrimStart(p) && TrimStart(p) == tag.value + after && after == after[..m] + after[m..];
      EchoParts(p[..n], tag.value, after[..m]);
      JoinFour(p[..n], tag.value, after[..m], after[m..]);
    }
  }

  lemma EchoParts(w1: string, tag: string, w2: string)
    requires AllSpace(w1) && IsTag(tag) && AllSpace(w2)
    ensures IsEchoedTag(w1 + tag + w2)
  {
    hide IsSpace, IsTag;
    var s := w1 + tag + w2;
    assert s[..|w1|] == w1 && s[|w1|..|w1| + |tag|] == tag && s[|w1| + |tag|..] == w2;
  }

  lemma JoinFour(a: string, b: string, c: string, d: string)
    ensures a + (b + (c + d)) == a + b + c + d
  {
  }

  /** The output is a suffix of the answer; what is gone is blank space, one end tag, blank space. */
  lemma OnlyAnEchoIsDropped(chunks: seq<string>) returns (dropped: string)
    ensures Concat(chunks) == dropped + Filtered(START, chunks)
    ensures dropped == "" || IsEchoedTag(dropped)
  {
    hide StripLeadingThinkingEndTag, CouldBecomeThinkingEndTag, IsEchoedTag, Filtered, Concat;
    var p, rest := Decision(chunks, START);
    dropped := StripParts(p);
    assert "" + Concat(chunks) == Concat(chunks);
    assert (dropped + StripLeadingThinkingEndTag(p)) + rest == dropped + (StripLeadingThinkingEndTag(p) + rest);
  }

  lemma TrimStartPrefix(p: string, rest: string)
    ensures LeadingSpace(p) < |p| ==>
      TrimStart(p + rest) == TrimStart(p) + rest && LeadingSpace(p + rest) == LeadingSpace(p)
    ensures LeadingSpace(p) == |p| ==> TrimStart(p + rest) == TrimStart(rest) && TrimStart(p) == ""
    ensures TrimStart(TrimStart(p) + rest) == TrimStart(p + rest)
  {
    hide IsSpace, TrimStart, LeadingSpace;
    var n := LeadingSpace(p);
    assert p == p[..n] + p[n..];
    Seqs.Assoc(p[..n], p[n..], rest);
    TrimStartSkips(p[..n], p[n..] + rest);
    if n == |p| {
      assert p[n..] + rest == rest;
    } else {
      assert (p[n..] + rest)[0] == p[n];
      NothingToTrim(p[n..] + rest);
      SpaceAt(p + rest, n);
    }
  }

  lemma NothingToTrim(s: string)
    requires s == "" || !IsSpace(s[0])
    ensures TrimStart(s) == s
  {
  }

  lemma SpaceAt(s: string, n: nat)
    requires n < |s| && AllSpace(s[..n]) && !IsSpace(s[n])
    ensures LeadingSpace(s) == n
  {
    hide IsSpace, LeadingSpace;
    var k := LeadingSpace(s);
    assert forall i :: 0 <= i < n ==> s[..n][i] == s[i];
    assert forall i :: 0 <= i < k ==> s[..k][i] == s[i];
  }

  lemma NoTagInPrefix(p: string, rest: string)
    requires LeadingTag(TrimStart(p + rest)).None?
    ensures LeadingTag(TrimStart(p)).None?
  {
    hide LeadingTag, TrimStart, LeadingSpace, IsSpace, IsTag;
    TrimStartPrefix(p, rest);
    LeadingTagExtends(TrimStart(p), rest);
  }

  /** An answer that does not open with a tag passes unchanged through every chunking. */
  lemma PlainAnswerUnchanged(chunks: seq<string>)
    requires LeadingTag(TrimStart(Concat(chunks))).None?
    ensures Filtered(START, chunks) == Concat(chunks)
  {
    hide LeadingTag, TrimStart, CouldBecomeThinkingEndTag;
    var p, rest := Decision(chunks, START);
    assert "" + Concat(chunks) == Concat(chunks);
    NoTagInPrefix(p, rest);
  }

  // ----- agreement with the whole-text rule -----

  /** The last position at which the leading tag can still be seen whole when the filter must decide. */
  predicate TagInReach(text: string) {
    var tag := LeadingTag(TrimStart(text));
    tag.None? || LeadingSpace(text) + |tag.value| <= MAX_BUFFERED_PREFIX + 1
  }

  lemma Undecidable(text: string, p: string, rest: string)
    requires text == p + rest && LeadingTag(TrimStart(text)).Some? && TagInReach(text)
    requires |p| < LeadingSpace(text) + |LeadingTag(TrimStart(text)).value|
    ensures rest != "" && CouldBecomeThinkingEndTag(p)
  {
    hide LeadingTag, TrimStart, LeadingSpace, IsSpace, IsTag;
    var n, tag := LeadingSpace(text), LeadingTag(TrimStart(text)).value;
    TagLengths();
    TrimStartPrefix(p, rest);
    if LeadingSpace(p) < |p| {
      PrefixOfBoth(TrimStart(p), rest, tag);
      IsTagMember(tag);
    } else {
      assert THINKING_END_TAGS[0] in THINKING_END_TAGS && TrimStart(p) <= THINKING_END_TAGS[0];
    }
  }

  lemma IsTagMember(tag: string)
    requires IsTag(tag)
    ensures tag in THINKING_END_TAGS
  {
  }

  lemma PrefixOfBoth(a: string, rest: string, tag: string)
    requires tag <= a + rest && |a| <= |tag|
    ensures a <= tag
  {
    assert forall i :: 0 <= i < |a| ==> a[i] == (a + rest)[i] == tag[i];
  }

  lemma StrippedWithTag(p: string, rest: string)
    requires LeadingTag(TrimStart(p + rest)).Some?
    requires |p| >= LeadingSpace(p + rest) + |LeadingTag(TrimStart(p + rest)).value|
    ensures TrimStart(StripLeadingThinkingEndTag(p) + rest) == TrimStart(StripLeadingThinkingEndTag(p + rest))
  {
    hide LeadingTag, TrimStart, LeadingSpace, IsSpace, IsTag;
    var text := p + rest;
    var n, tag := LeadingSpace(text), LeadingTag(TrimStart(text)).value;
    TagLengths();
    assert p[..n] == text[..n] && text[n] == p[n];
    SpaceAt(p, n);
    TrimStartPrefix(p, rest);
    TagStaysInFront(TrimStart(p), rest);
    var x := TrimStart(p)[|tag|..];
    assert StripLeadingThinkingEndTag(p) == TrimStart(x);
    assert StripLeadingThinkingEndTag(text) == TrimStart(x + rest);
    TrimStartPrefix(x, rest);
    TrimTwice(x + rest);
  }

  lemma TrimTwice(s: string)
    ensures TrimStart(TrimStart(s)) == TrimStart(s)
  {
    TrimStartPrefix(s, "");
    assert s + "" == s && TrimStart(s) + "" == TrimStart(s);
  }

  lemma TagStaysInFront(a: string, rest: string)
    requires LeadingTag(a + rest).Some? && |LeadingTag(a + rest).value| <= |a|
    ensures LeadingTag(a) == LeadingTag(a + rest)
    ensures (a + rest)[|LeadingTag(a + rest).value|..] == a[|LeadingTag(a + rest).value|..] + rest
  {
    hide LeadingTag, IsTag;
    var tag := LeadingTag(a + rest).value;
    assert (a + rest)[..|tag|] == a[..|tag|];
    assert tag <= a;
    OneLeadingTag(a, LeadingTag(a).value, tag);
  }

  lemma InReachAgrees(chunks: seq<string>)
    requires TagInReach(Concat(chunks))
    ensures TrimStart(Filtered(START, chunks)) == TrimStart(StripLeadingThinkingEndTag(Concat(chunks)))
  {
    hide LeadingTag, TrimStart, LeadingSpace, IsSpace, IsTag, CouldBecomeThinkingEndTag, TagInReach;
    var text := Concat(chunks);
    if LeadingTag(TrimStart(text)).None? {
      PlainAnswerUnchanged(chunks);
    } else {
      var p, rest := Decision(chunks, START);
      assert "" + text == text;
      if |p| < LeadingSpace(text) + |LeadingTag(TrimStart(text)).value| {
        Undecidable(text, p, rest);
      } else {
        StrippedWithTag(p, rest);
      }
    }
  }

  lemma OutOfReachDiffers(text: string) returns (chunks: seq<string>)
    requires !TagInReach(text)
    ensures Concat(chunks) == text
    ensures TrimStart(Filtered(START, chunks)) != TrimStart(StripLeadingThinkingEndTag(text))
  {
    hide LeadingTag, TrimStart, LeadingSpace, IsSpace, IsTag;
    var n, tag := LeadingSpace(text), LeadingTag(TrimStart(text)).value;
    TagLengths();
    var p, rest := text[..MAX_BUFFERED_PREFIX + 1], text[MAX_BUFFERED_PREFIX + 1..];
    chunks := [p, rest];
    assert text == p + rest && chunks[1..] == [rest] && [rest][1..] == [];
    assert Concat([rest]) == rest + "" == rest;
    NoWholeTagYet(p, rest);
    assert "" + p == p;
    assert PushStep(START, p) == (Filter("", true), p);
    Decided([rest], Filter("", true));
    assert Filtered(START, chunks) == text;
    StripShortens(text);
  }

  lemma NoWholeTagYet(p: string, rest: string)
    requires LeadingTag(TrimStart(p + rest)).Some?
    requires |p| < LeadingSpace(p + rest) + |LeadingTag(TrimStart(p + rest)).value|
    ensures LeadingTag(TrimStart(p)).None?
  {
    hide LeadingTag, TrimStart, LeadingSpace, IsSpace, IsTag;
    TrimStartPrefix(p, rest);
    LeadingTagExtends(TrimStart(p), rest);
    assert |TrimStart(p)| == |p| - LeadingSpace(p);
  }

  lemma StripShortens(text: string)
    requires LeadingTag(TrimStart(text)).Some?
    ensures |TrimStart(StripLeadingThinkingEndTag(text))| < |TrimStart(text)|
  {
    hide LeadingTag, TrimStart, LeadingSpace, IsSpace, IsTag;
    TagLengths();
    var m := LeadingSpace(TrimStart(text)[|LeadingTag(TrimStart(text)).value|..]);
    var j := LeadingSpace(StripLeadingThinkingEndTag(text));
  }

  /**
   * The filter answers like the whole-text rule, up to leading blank space, for every chunking
   * exactly when the leading tag ends within the first twenty-one characters.
   */
  lemma AgreesIff(text: string)
    ensures (forall chunks :: Concat(chunks) == text ==>
               TrimStart(Filtered(START, chunks)) == TrimStart(StripLeadingThinkingEndTag(text)))
       <==> TagInReach(text)
  {
    if TagInReach(text) {
      forall chunks | Concat(chunks) == text
        ensures TrimStart(Filtered(START, chunks)) == TrimStart(StripLeadingThinkingEndTag(text))
      {
        InReachAgrees(chunks);
      }
    } else {
      var chunks := OutOfReachDiffers(text);
    }
  }

  /** Eight leading blank characters are always within reach. */
  lemma EightBlanksInReach(text: string)
    requires LeadingSpace(text) <= 8
    ensures TagInReach(text)
  {
    TagLengths();
  }
}
