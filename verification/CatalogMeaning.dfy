/** What the catalog says of each model, told from the lines of models.ini alone. */
module CatalogMeaning {
  import opened Text
  import opened Records
  import opened ModelsIni
  import opened ModelsIniLaws
  import opened ModelsIniGrammar
  import opened Catalog
  import opened CatalogReadings
  import opened CatalogLaws
  import Seqs

  // ----- references -----

  /** `repository:quant`, cut at the last colon. */
  predicate IsReference(ref: string, repo: string, quant: string) {
    ref == repo + ":" + quant && repo != "" && quant != "" && ':' !in quant
  }

  lemma {:induction false} SplitAt(ref: string, end: nat, repo: string, quant: string)
    requires end <= |ref| && ':' !in ref[end..]
    ensures SplitAtColon(ref, end) == Some((repo, quant)) <==> IsReference(ref, repo, quant)
    decreases end
  {
    hide IsReference;
    if end == 0 {
      assert ref[0..] == ref;
      NoReference(ref, repo, quant);
    } else if ref[end - 1] == ':' {
      ReferenceHere(ref, end, repo, quant);
    } else {
      assert ref[end - 1..] == [ref[end - 1]] + ref[end..];
      SplitAt(ref, end - 1, repo, quant);
    }
  }

  lemma NoReference(ref: string, repo: string, quant: string)
    requires ':' !in ref
    ensures !IsReference(ref, repo, quant)
  {
    assert ':' in repo + ":" + quant;
  }

  lemma ReferenceHere(ref: string, end: nat, repo: string, quant: string)
    requires 0 < end <= |ref| && ref[end - 1] == ':' && ':' !in ref[end..]
    ensures IsReference(ref, repo, quant)
      <==> end > 1 && end < |ref| && repo == ref[..end - 1] && quant == ref[end..]
  {
    assert ref == ref[..end - 1] + ":" + ref[end..];
    if IsReference(ref, repo, quant) {
      assert ref[|repo|] == ':' && ref[|repo| + 1..] == quant && ref[..|repo|] == repo;
      LastColon(ref, end - 1, |repo|);
    }
  }

  lemma LastColon(ref: string, i: nat, j: nat)
    requires i < |ref| && j < |ref| && ref[i] == ref[j] == ':'
    requires ':' !in ref[i + 1..] && ':' !in ref[j + 1..]
    ensures i == j
  {
    assert forall k :: i < k < |ref| ==> ref[i + 1..][k - i - 1] == ref[k];
    assert forall k :: j < k < |ref| ==> ref[j + 1..][k - j - 1] == ref[k];
  }

  /** A reference is split exactly where its last colon has text on both sides. */
  lemma SplitIff(ref: string, repo: string, quant: string)
    ensures SplitHuggingFaceRef(ref) == Some((repo, quant)) <==> IsReference(ref, repo, quant)
  {
    assert ref[|ref|..] == "";
    SplitAt(ref, |ref|, repo, quant);
  }

  // ----- numbers -----

  predicate IsDecimal(c: char) {
    c in "0123456789"
  }

  predicate AllDigits(s: string) {
    forall i :: 0 <= i < |s| ==> IsDecimal(s[i])
  }

  /** The number a row of digits writes. */
  function NumberOf(digits: string): nat
    requires AllDigits(digits)
  {
    if digits == "" then 0
    else
      var n := |digits| - 1;
      assert AllDigits(digits[..n]);
      10 * NumberOf(digits[..n]) + (digits[n] as int - '0' as int)
  }

  predicate NumberText(raw: string, w: string, sign: string, digits: string, rest: string) {
    && AllSpace(w) && (sign == "" || sign == "+") && digits != "" && AllDigits(digits)
    && (rest == "" || !IsDecimal(rest[0])) && raw == w + (sign + (digits + rest))
  }

  /** The text opens, past blank space and perhaps a plus, with digits that write `n`. */
  ghost predicate OpensWithNumber(raw: string, n: nat) {
    exists w, sign, digits, rest :: NumberText(raw, w, sign, digits, rest) && NumberOf(digits) == n
  }

  lemma {:induction false} DigitsRun(digits: string, rest: string, acc: nat)
    requires AllDigits(digits) && (rest == "" || !IsDecimal(rest[0]))
    ensures DigitsValue(digits + rest, acc) == acc * Power(|digits|) + NumberOf(digits)
    decreases |digits|
  {
    hide NumberOf, Power;
    if digits == "" {
      assert digits + rest == rest;
      NoDigits();
    } else {
      var d := digits[0] as int - '0' as int;
      assert (digits + rest)[1..] == digits[1..] + rest;
      DigitsRun(digits[1..], rest, 10 * acc + d);
      NumberFromFront(digits);
      PowerUp(|digits|);
      Shift(acc, d, Power(|digits| - 1));
    }
  }

  lemma NoDigits()
    ensures AllDigits("") && NumberOf("") == 0 && Power(0) == 1
  {
  }

  lemma PowerUp(n: nat)
    requires n > 0
    ensures Power(n) == 10 * Power(n - 1)
  {
  }

  lemma LastDigit(digits: string)
    requires AllDigits(digits) && digits != ""
    ensures var n := |digits| - 1;
      AllDigits(digits[..n]) && NumberOf(digits) == 10 * NumberOf(digits[..n]) + (digits[n] as int - '0' as int)
  {
  }

  function Power(n: nat): nat {
    if n == 0 then 1 else 10 * Power(n - 1)
  }

  lemma Shift(acc: nat, d: nat, p: nat)
    ensures (10 * acc + d) * p == acc * (10 * p) + d * p
  {
  }

  lemma {:induction false} NumberFromFront(digits: string)
    requires AllDigits(digits) && digits != ""
    ensures AllDigits(digits[1..])
    ensures NumberOf(digits) == (digits[0] as int - '0' as int) * Power(|digits| - 1) + NumberOf(digits[1..])
    decreases |digits|
  {
    hide NumberOf, Power, IsDecimal;
    var n := |digits| - 1;
    LastDigit(digits);
    NoDigits();
    if n == 0 {
      assert digits[..0] == "" && digits[1..] == "";
    } else {
      var d := digits[0] as int - '0' as int;
      NumberFromFront(digits[..n]);
      assert digits[..n][1..] == digits[1..][..n - 1];
      LastDigit(digits[1..]);
      PowerUp(n);
      Tenfold(d, Power(n - 1), NumberOf(digits[..n][1..]));
    }
  }

  lemma Tenfold(d: int, p: nat, m: nat)
    ensures 10 * (d * p + m) == d * (10 * p) + 10 * m
  {
  }

  lemma {:induction false} DigitPrefix(s: string) returns (n: nat)
    ensures n <= |s| && AllDigits(s[..n]) && (n < |s| ==> !IsDecimal(s[n]))
  {
    if s == "" || !IsDecimal(s[0]) {
      n := 0;
    } else {
      var m := DigitPrefix(s[1..]);
      n := m + 1;
      assert forall i :: 0 < i < n ==> s[..n][i] == s[1..][..m][i - 1];
    }
  }

  /** `Number.parseInt` where it gives a positive number: exactly the number the text opens with. */
  lemma PositiveIntIff(raw: string, n: nat)
    requires n > 0
    ensures PositiveInt(raw) == n <==> OpensWithNumber(raw, n)
  {
    hide IsSpace, TrimStart, DigitsValue, NumberOf, IsDecimal, AllSpace;
    if OpensWithNumber(raw, n) {
      var w, sign, digits, rest :| NumberText(raw, w, sign, digits, rest) && NumberOf(digits) == n;
      NumberIsRead(raw, w, sign, digits, rest);
    }
    if PositiveInt(raw) == n {
      NumberFound(raw);
    }
  }

  lemma NumberIsRead(raw: string, w: string, sign: string, digits: string, rest: string)
    requires NumberText(raw, w, sign, digits, rest)
    ensures PositiveInt(raw) == NumberOf(digits)
  {
    hide TrimStart, IsSpace, NumberOf, DigitsValue;
    var t := sign + (digits + rest);
    TrimStartSkips(w, t);
    assert !IsSpace(t[0]) by {
      assert t[0] == if sign == "+" then '+' else digits[0];
      DigitsAreMarks(digits[0]);
    }
    NothingToTrim(t);
    assert sign == "+" ==> t[1..] == digits + rest;
    assert sign == "" ==> t == digits + rest && t[0] == digits[0] && t[0] != '+';
    DigitsRun(digits, rest, 0);
  }

  lemma DigitsAreMarks(c: char)
    requires IsDecimal(c)
    ensures !IsSpace(c) && !IsSpace('+')
  {
  }

  lemma NumberFound(raw: string)
    requires PositiveInt(raw) > 0
    ensures OpensWithNumber(raw, PositiveInt(raw))
  {
    hide TrimStart, IsSpace, NumberOf, LeadingSpace, DigitsValue, AllDigits, IsDecimal, AllSpace;
    var k := LeadingSpace(raw);
    var t := raw[k..];
    var signed := t != "" && t[0] == '+';
    var s := if signed then t[1..] else t;
    var digits, rest := DigitsFound(s);
    var sign := if signed then "+" else "";
    assert t == sign + s by { assert "" + s == s; }
    assert raw == raw[..k] + t;
    assert NumberText(raw, raw[..k], sign, digits, rest);
  }

  lemma DigitsFound(s: string) returns (digits: string, rest: string)
    requires DigitsValue(s, 0) > 0
    ensures s == digits + rest && digits != "" && AllDigits(digits) && (rest == "" || !IsDecimal(rest[0]))
    ensures NumberOf(digits) == DigitsValue(s, 0)
  {
    hide IsDecimal, NumberOf, DigitsValue;
    var n := DigitPrefix(s);
    digits, rest := s[..n], s[n..];
    assert s == digits + rest;
    DigitsRun(digits, rest, 0);
    NoDigits();
  }


  // ----- what the lines say -----

  /** The section's last assignment to the key gives it this value. */
  ghost predicate Says(text: string, section: SectionRef, key: string, value: string) {
    exists i :: 0 <= i < |TextLines(text)| && Speaks(TextLines(text), section, i, key, value)
  }

  ghost predicate SaysNothing(text: string, section: SectionRef, key: string) {
    forall value :: !Says(text, section, key, value)
  }

  const CONTEXT_SIZE_KEYS := ["c", "ctx-size", "LLAMA_ARG_CTX_SIZE"]

  const ON_WORDS := {"1", "true", "yes", "on"}

  predicate IsOn(value: string) {
    exists word :: word in ON_WORDS && SameIgnoringCase(Trim(value), word)
  }

  predicate SameIgnoringCase(s: string, word: string) {
    |s| == |word| && forall i :: 0 <= i < |s| ==> SameLetter(s[i], word[i])
  }

  /** The letter `d`, or its upper-case form. */
  predicate SameLetter(c: char, d: char) {
    c == d || ('A' <= c <= 'Z' && (c as int - 'A' as int) + 'a' as int == d as int)
  }

  lemma OnIff(value: string)
    ensures IsTruthyIniValue(Some(value)) <==> IsOn(value)
  {
    hide Trim, SameIgnoringCase, LowerCase;
    var t := Trim(value);
    LowerIs(t, "1");
    LowerIs(t, "true");
    LowerIs(t, "yes");
    LowerIs(t, "on");
    assert "1" in ON_WORDS && "true" in ON_WORDS && "yes" in ON_WORDS && "on" in ON_WORDS;
  }

  lemma LowerIs(t: string, word: string)
    requires forall i :: 0 <= i < |word| ==> !('A' <= word[i] <= 'Z')
    ensures LowerCase(t) == word <==> SameIgnoringCase(t, word)
  {
    hide LowerAscii;
    if SameIgnoringCase(t, word) {
      forall i | 0 <= i < |t| ensures LowerCase(t)[i] == word[i] {
        assert SameLetter(t[i], word[i]);
        LowerCharacter(t[i], word[i]);
      }
      assert LowerCase(t) == word;
    }
    if LowerCase(t) == word {
      forall i | 0 <= i < |t| ensures SameLetter(t[i], word[i]) {
        assert LowerCase(t)[i] == word[i];
        LowerCharacter(t[i], word[i]);
      }
    }
  }

  lemma LowerCharacter(c: char, d: char)
    requires !('A' <= d <= 'Z')
    ensures LowerAscii(c) == d <==> SameLetter(c, d)
  {
  }

  // ----- parameters -----

  /** The last entry whose key trims to `k` and whose value trims to `v`. */
  predicate LastSays(r: Record, k: string, v: string) {
    exists i :: 0 <= i < |r| && Trim(r[i].0) == k && Trim(r[i].1) == v
                && forall j :: i < j < |r| ==> Trim(r[j].0) != k
  }

  lemma {:induction false} NormalizedSays(r: Record, k: string, v: string)
    ensures Get(NormalizeParams(r), k) == Some(v) <==> k != "" && LastSays(r, k, v)
  {
    hide Trim, TrimmedPairs, LastSays;
    GetMerge([], TrimmedPairs(r), k);
    PairsSay(r, k, v);
  }

  lemma {:induction false} PairsSay(r: Record, k: string, v: string)
    ensures Last(TrimmedPairs(r), k) == Some(v) <==> k != "" && LastSays(r, k, v)
    ensures Last(TrimmedPairs(r), k).None? <==> k == "" || forall i :: 0 <= i < |r| ==> Trim(r[i].0) != k
  {
    hide Trim;
    if r != [] {
      var first, rest := r[0], r[1..];
      PairsSay(rest, k, v);
      assert forall i :: 0 <= i < |rest| ==> rest[i] == r[i + 1];
      var head := if Trim(first.0) == "" then [] else [(Trim(first.0), Trim(first.1))];
      LastAppend(head, TrimmedPairs(rest), k);
      assert head != [] ==> head[..0] == [];
      LastSaysCons(r, k, v);
    }
  }

  lemma LastSaysCons(r: Record, k: string, v: string)
    requires r != []
    ensures LastSays(r, k, v) <==>
      (LastSays(r[1..], k, v)
       || (Trim(r[0].0) == k && Trim(r[0].1) == v && forall j :: 0 <= j < |r[1..]| ==> Trim(r[1..][j].0) != k))
  {
    hide Trim;
    var rest := r[1..];
    assert forall i :: 0 <= i < |rest| ==> rest[i] == r[i + 1];
    if LastSays(r, k, v) {
      var i :| 0 <= i < |r| && Trim(r[i].0) == k && Trim(r[i].1) == v && forall j :: i < j < |r| ==> Trim(r[j].0) != k;
      if i > 0 {
        assert Trim(rest[i - 1].0) == k && Trim(rest[i - 1].1) == v;
      }
    }
    if LastSays(rest, k, v) {
      var i :| 0 <= i < |rest| && Trim(rest[i].0) == k && Trim(rest[i].1) == v
               && forall j :: i < j < |rest| ==> Trim(rest[j].0) != k;
      assert Trim(r[i + 1].0) == k && forall j :: i + 1 < j < |r| ==> r[j] == rest[j - 1];
    }
  }

  /** The parameters kept of a section: what it says under any key that is neither empty nor one of `reserved`. */
  lemma KeptSays(text: string, section: SectionRef, reserved: set<string>, k: string, v: string)
    ensures Get(NormalizeParams(Without(SectionValues(Parse(text), section), reserved)), k) == Some(v)
      <==> k != "" && k !in reserved && Says(text, section, k, v)
  {
    hide Parse, Trim, NormalizeParams, SectionValues, Says, Speaks, TextLines, Get;
    var values := SectionValues(Parse(text), section);
    SectionAnswers(text, section, k, v);
    assert Get(values, k) == Some(v) <==> Says(text, section, k, v) by { SaysIs(text, section, k, v); }
    var kept := Without(values, reserved);
    ValuesTrimmed(text, section);
    WithoutShape(values, reserved);
    GetWithout(values, reserved, k);
    NormalizedSays(kept, k, v);
    TrimmedLast(kept, k, v);
  }

  lemma SaysIs(text: string, section: SectionRef, key: string, value: string)
    ensures Get(SectionValues(Parse(text), section), key) == Some(value) <==> Says(text, section, key, value)
  {
    hide Parse, SectionValues, Speaks, TextLines, Get;
    SectionAnswers(text, section, key, value);
  }

  predicate TrimmedPairsOnly(r: Record) {
    DistinctKeys(r) && forall e :: e in r ==> Trim(e.0) == e.0 && Trim(e.1) == e.1
  }

  lemma ValuesTrimmed(text: string, section: SectionRef)
    ensures TrimmedPairsOnly(SectionValues(Parse(text), section))
  {
    hide Parse, Trim, SectionBounds, Read, Settled;
    var values := SectionValues(Parse(text), section);
    ParsedSettled(text);
    SettledValuesTrimmed(Parse(text), section);
    ReadKeys(Body(Parse(text), section));
    forall e | e in values ensures Trim(e.0) == e.0 && Trim(e.1) == e.1 {
      var i :| 0 <= i < |values| && values[i] == e;
      assert values[i].0 in Keys(values);
      assert TrimValues(values)[i] == values[i];
    }
  }

  lemma TrimmedLast(r: Record, k: string, v: string)
    requires TrimmedPairsOnly(r)
    ensures LastSays(r, k, v) <==> Get(r, k) == Some(v)
  {
    hide Trim, Get;
    GetIsMember(r, k, v);
    if (k, v) in r {
      var i :| 0 <= i < |r| && r[i] == (k, v);
      forall j | i < j < |r| ensures Trim(r[j].0) != k {
        assert r[j] in r && r[j].0 != r[i].0;
      }
      assert Trim(r[i].0) == k;
    }
    if LastSays(r, k, v) {
      var i :| 0 <= i < |r| && Trim(r[i].0) == k && Trim(r[i].1) == v;
      assert r[i] in r && r[i] == (k, v);
    }
  }

  lemma {:induction false} GetIsMember(r: Record, k: string, v: string)
    requires DistinctKeys(r)
    ensures Get(r, k) == Some(v) <==> (k, v) in r
  {
    if r != [] {
      assert r == [r[0]] + r[1..];
      assert forall i :: 0 <= i < |r[1..]| ==> r[1..][i] == r[i + 1];
      GetIsMember(r[1..], k, v);
      assert forall e :: e in r[1..] ==> e.0 != r[0].0;
    }
  }

  // ----- the catalog -----

  lemma FieldsOf(s: State, doc: Document, now: string, m: Model)
    requires m in Synced(s, doc, now).models
    ensures var values := SectionValues(doc, Some(m.id));
      && m.id in SectionNames(doc) && m.id != GLOBAL_SECTION
      && ModelFromValues(values, m.id, PreviousById(s.models, m.id), GlobalContextSize(GlobalParams(doc)), now)
        == Some(m)
  {
    hide ModelFromValues, SectionValues, ModelsOf, SectionNames, GlobalParams;
    ModelIds(doc, SectionNames(doc), s.models, GlobalContextSize(GlobalParams(doc)), now);
  }

  /** Which model a section stands for, and whether it is pinned. */
  lemma ModelSays(s: State, text: string, now: string, m: Model)
    requires m in Synced(s, Parse(text), now).models
    ensures m.hfRef != "" && Says(text, Some(m.id), "hf-repo", m.hfRef)
    ensures forall repo, quant ::
      (m.repoId == Some(repo) && m.quant == Some(quant)) <==> IsReference(m.hfRef, repo, quant)
    ensures m.repoId.Some? <==> m.quant.Some?
    ensures m.pinned <==> exists value :: Says(text, Some(m.id), "offline", value) && IsOn(value)
  {
    hide Parse, Synced, SectionValues, Says, SectionNames, Trim, IsReference, IsOn, NormalizeModelParams, PreviousById,
         SplitHuggingFaceRef, IsTruthyIniValue, Get;
    FieldsOf(s, Parse(text), now, m);
    var values := SectionValues(Parse(text), Some(m.id));
    SaysIs(text, Some(m.id), "hf-repo", m.hfRef);
    forall repo, quant ensures SplitHuggingFaceRef(m.hfRef) == Some((repo, quant))
      <==> IsReference(m.hfRef, repo, quant) {
      SplitIff(m.hfRef, repo, quant);
    }
    forall value
      ensures Get(values, "offline") == Some(value) <==> Says(text, Some(m.id), "offline", value)
      ensures IsTruthyIniValue(Some(value)) <==> IsOn(value)
    {
      SaysIs(text, Some(m.id), "offline", value);
      OnIff(value);
    }
    assert !IsTruthyIniValue(None) by { NothingIsOff(); }
  }

  lemma NothingIsOff()
    ensures !IsTruthyIniValue(None)
  {
  }

  /** The name a model goes by: its alias, else the name it had before, else its reference. */
  lemma NameSays(s: State, text: string, now: string, m: Model)
    requires m in Synced(s, Parse(text), now).models
    ensures forall alias :: Says(text, Some(m.id), "alias", alias) && alias != "" ==> m.name == alias
    ensures (forall alias :: Says(text, Some(m.id), "alias", alias) ==> alias == "") ==>
      (m.name == m.hfRef && !HasModel(s.models, m.id))
      || exists i :: 0 <= i < |s.models| && s.models[i].id == m.id
                     && m.name == if s.models[i].name != "" then s.models[i].name else m.hfRef
  {
    hide Parse, Synced, SectionValues, Says, SectionNames, Trim, NormalizeModelParams, PreviousById,
         SplitHuggingFaceRef, IsTruthyIniValue, Get;
    FieldsOf(s, Parse(text), now, m);
    var values := SectionValues(Parse(text), Some(m.id));
    forall alias
      ensures Get(values, "alias") == Some(alias) <==> Says(text, Some(m.id), "alias", alias)
      ensures Get(values, "alias") == Some(alias) ==> Trim(alias) == alias
    {
      SaysIs(text, Some(m.id), "alias", alias);
      ValuesTrimmed(text, Some(m.id));
      GetIsMember(values, "alias", alias);
    }
    TrimTrimmed("");
    PreviousIsListed(s.models, m.id);
  }

  lemma {:induction false} PreviousIsListed(models: seq<Model>, id: string)
    ensures PreviousById(models, id).None? <==> !HasModel(models, id)
    ensures PreviousById(models, id).Some? ==>
      exists i :: 0 <= i < |models| && models[i].id == id && models[i] == PreviousById(models, id).value
    decreases |models|
  {
    if models != [] {
      var n := |models| - 1;
      PreviousIsListed(models[..n], id);
      assert forall i :: 0 <= i < n ==> models[..n][i] == models[i];
    }
  }

  /** The parameters a model carries are what its section says under every key that is not Nelle's own. */
  lemma ParametersSay(s: State, text: string, now: string, m: Model, k: string, v: string)
    requires m in Synced(s, Parse(text), now).models
    ensures Get(m.params.extra, k) == Some(v)
      <==> k != "" && k !in RESERVED_MODEL_KEYS && Says(text, Some(m.id), k, v)
  {
    hide Parse, Synced, SectionValues, Says, SectionNames, Trim, PreviousById, SplitHuggingFaceRef, IsTruthyIniValue,
         Get, NormalizeParams;
    FieldsOf(s, Parse(text), now, m);
    KeptSays(text, Some(m.id), RESERVED_MODEL_KEYS, k, v);
  }

  /** The global parameters are what the section `[*]` says. */
  lemma GlobalsSay(s: State, text: string, now: string, k: string, v: string)
    ensures Get(Synced(s, Parse(text), now).globalModelParams, k) == Some(v)
      <==> k != "" && Says(text, Some(GLOBAL_SECTION), k, v)
  {
    hide Parse, SectionValues, Says, SectionNames, ModelsOf, Get, NormalizeParams;
    KeptSays(text, Some(GLOBAL_SECTION), {}, k, v);
    KeepAll(SectionValues(Parse(text), Some(GLOBAL_SECTION)));
  }

  lemma {:induction false} KeepAll(r: Record)
    ensures Without(r, {}) == r
  {
    if r != [] {
      KeepAll(r[1..]);
    }
  }

  /** A section is listed exactly when it is not `[*]` and names a reference. */
  lemma ListedIff(s: State, text: string, now: string, id: string)
    ensures HasModel(Synced(s, Parse(text), now).models, id)
      <==> id in SectionNames(Parse(text)) && id != GLOBAL_SECTION
           && exists ref :: ref != "" && Says(text, Some(id), "hf-repo", ref)
  {
    hide Parse, SectionValues, Says, SectionNames, ModelsOf, Get, GlobalParams, ModelFromValues;
    var doc := Parse(text);
    var values := SectionValues(doc, Some(id));
    forall ref ensures Get(values, "hf-repo") == Some(ref) <==> Says(text, Some(id), "hf-repo", ref) {
      SaysIs(text, Some(id), "hf-repo", ref);
    }
    var g := GlobalContextSize(GlobalParams(doc));
    MadeIff(values, id, PreviousById(s.models, id), g, now);
    ListedWhen(doc, SectionNames(doc), s.models, g, now, id);
  }

  lemma MadeIff(values: Record, id: string, previous: Option<Model>, g: Option<nat>, now: string)
    ensures ModelFromValues(values, id, previous, g, now).Some?
      <==> Get(values, "hf-repo").Some? && Get(values, "hf-repo").value != ""
  {
  }

  lemma {:induction false} ListedWhen(doc: Document, names: seq<string>, previous: seq<Model>, g: Option<nat>,
                                      now: string, id: string)
    ensures HasModel(ModelsOf(doc, names, previous, g, now), id)
      <==> id in names && Entry(doc, id, previous, g, now).Some?
  {
    hide ModelFromValues, SectionValues, PreviousById;
    if names != [] {
      ListedWhen(doc, names[1..], previous, g, now, id);
      ModelsCons(doc, names, previous, g, now);
      EntryId(doc, names[0], previous, g, now);
      var e := Entry(doc, names[0], previous, g, now);
      var head, tail := Listed(e), ModelsOf(doc, names[1..], previous, g, now);
      assert HasModel(head, id) <==> e.Some? && e.value.id == id by { HasListed(e, id); }
      assert HasModel(head + tail, id) <==> HasModel(head, id) || HasModel(tail, id) by { HasEither(head, tail, id); }
      assert id in names <==> id == names[0] || id in names[1..];
    }
  }

  lemma HasListed(e: Option<Model>, id: string)
    ensures HasModel(Listed(e), id) <==> e.Some? && e.value.id == id
  {
    assert e.Some? ==> Listed(e)[0] == e.value;
  }

  lemma HasEither(a: seq<Model>, b: seq<Model>, id: string)
    ensures HasModel(a + b, id) <==> HasModel(a, id) || HasModel(b, id)
  {
    if HasModel(b, id) {
      var i :| 0 <= i < |b| && b[i].id == id;
      assert (a + b)[|a| + i] == b[i];
    }
    if HasModel(a, id) {
      var i :| 0 <= i < |a| && a[i].id == id;
      assert (a + b)[i] == a[i];
    }
  }

  // ----- the context window -----

  /** The first of the three keys that is there holds `raw`. */
  ghost predicate SetsContext(params: Record, raw: string) {
    exists i: nat :: i < |CONTEXT_SIZE_KEYS| && FirstKey(params, i, raw)
  }

  predicate FirstKey(params: Record, i: nat, raw: string)
    requires i < |CONTEXT_SIZE_KEYS|
  {
    Get(params, CONTEXT_SIZE_KEYS[i]) == Some(raw) && forall j :: 0 <= j < i ==> Get(params, CONTEXT_SIZE_KEYS[j]).None?
  }

  lemma ContextSays(params: Record, raw: string)
    requires SetsContext(params, raw)
    ensures !ContextSizeFromParams(params).Silent?
    ensures forall n: nat :: ContextSizeFromParams(params) == Capped(n) <==> n > 0 && OpensWithNumber(raw, n)
  {
    var i: nat :| i < |CONTEXT_SIZE_KEYS| && FirstKey(params, i, raw);
    hide PositiveInt, OpensWithNumber, Get;
    forall n: nat | n > 0 ensures PositiveInt(raw) == n <==> OpensWithNumber(raw, n) {
      PositiveIntIff(raw, n);
    }
    assert CONTEXT_SIZE_KEYS[0] == "c" && CONTEXT_SIZE_KEYS[1] == "ctx-size"
        && CONTEXT_SIZE_KEYS[2] == "LLAMA_ARG_CTX_SIZE";
    if i == 1 {
      assert Get(params, CONTEXT_SIZE_KEYS[0]).None?;
    } else if i == 2 {
      assert Get(params, CONTEXT_SIZE_KEYS[0]).None? && Get(params, CONTEXT_SIZE_KEYS[1]).None?;
    }
  }

  /** A model's own setting counts, a number or an explicit lifting; only a silent section takes the global one. */
  lemma ModelContextSays(s: State, text: string, now: string, m: Model)
    requires m in Synced(s, Parse(text), now).models
    ensures forall raw :: SetsContext(m.params.extra, raw) ==>
      (forall n: nat :: m.params.contextSize == Some(n) <==> n > 0 && OpensWithNumber(raw, n))
    ensures (forall raw :: !SetsContext(m.params.extra, raw)) ==>
      m.params.contextSize == GlobalContextSize(Synced(s, Parse(text), now).globalModelParams)
  {
    hide Parse, Synced, SectionValues, SectionNames, PreviousById, SplitHuggingFaceRef, IsTruthyIniValue, Get,
         NormalizeParams, OpensWithNumber, PositiveInt, SetsContext;
    FieldsOf(s, Parse(text), now, m);
    var extra := m.params.extra;
    forall raw | SetsContext(extra, raw)
      ensures forall n: nat :: m.params.contextSize == Some(n) <==> n > 0 && OpensWithNumber(raw, n)
    {
      ContextSays(extra, raw);
    }
    SilentWhen(extra);
    GlobalsAre(s, Parse(text), now);
  }

  lemma GlobalsAre(s: State, doc: Document, now: string)
    ensures Synced(s, doc, now).globalModelParams == GlobalParams(doc)
  {
  }

  /** And the global setting is read from the global parameters in the same way. */
  lemma GlobalContextSays(params: Record)
    ensures forall raw :: SetsContext(params, raw) ==>
      (forall n: nat :: GlobalContextSize(params) == Some(n) <==> n > 0 && OpensWithNumber(raw, n))
    ensures (forall raw :: !SetsContext(params, raw)) ==> GlobalContextSize(params).None?
  {
    hide Get, OpensWithNumber, PositiveInt, SetsContext;
    forall raw | SetsContext(params, raw)
      ensures forall n: nat :: GlobalContextSize(params) == Some(n) <==> n > 0 && OpensWithNumber(raw, n)
    {
      ContextSays(params, raw);
    }
    SilentWhen(params);
  }

  lemma SilentWhen(params: Record)
    ensures (forall raw :: !SetsContext(params, raw)) ==> ContextSizeFromParams(params).Silent?
  {
    hide PositiveInt, Get;
    var c, size, env := Get(params, "c"), Get(params, "ctx-size"), Get(params, "LLAMA_ARG_CTX_SIZE");
    assert CONTEXT_SIZE_KEYS[0] == "c" && CONTEXT_SIZE_KEYS[1] == "ctx-size"
        && CONTEXT_SIZE_KEYS[2] == "LLAMA_ARG_CTX_SIZE";
    if c.Some? {
      assert FirstKey(params, 0, c.value) && SetsContext(params, c.value);
    } else if size.Some? {
      assert FirstKey(params, 1, size.value) && SetsContext(params, size.value);
    } else if env.Some? {
      assert FirstKey(params, 2, env.value) && SetsContext(params, env.value);
    }
  }

  // ----- an update, field by field -----

  /** What the model says under a key once the requested parameters are in: the last request for it, made one line. */
  lemma UpdatedParameter(requested: Record, g: Option<nat>, k: string, v: string)
    requires AcceptableParams(requested)
    ensures Get(NormalizeModelParams(TidyEntries(NormalizeParams(requested)), g).extra, k) == Some(v)
      <==> k != "" && exists raw :: LastSays(requested, k, raw) && v == Tidy(raw)
  {
    hide Trim, Tidy, NormalizeParams, LastSays, Get;
    var extra := NormalizeParams(requested);
    NormalizedShape(requested);
    TidyEntriesShape(extra);
    var tidy := TidyEntries(extra);
    TidyTrimmed(extra);
    NormalizedSays(tidy, k, v);
    TrimmedLast(tidy, k, v);
    GetTidy(extra, k);
    forall raw ensures Get(extra, k) == Some(raw) <==> k != "" && LastSays(requested, k, raw) {
      NormalizedSays(requested, k, raw);
    }
  }

  lemma TidyTrimmed(extra: Record)
    requires DistinctKeys(extra) && "" !in Keys(extra)
    requires forall e :: e in extra ==> Trim(e.0) == e.0 && Trim(e.1) == e.1
    ensures TrimmedPairsOnly(TidyEntries(extra))
  {
    hide Trim, Tidy;
    var tidy := TidyEntries(extra);
    forall e | e in tidy ensures Trim(e.0) == e.0 && Trim(e.1) == e.1 {
      var i :| 0 <= i < |tidy| && tidy[i] == e;
      assert extra[i] in extra;
      TrimIdempotent(extra[i].0);
      TidyShape(extra[i].1);
      TrimTrimmed(Tidy(extra[i].1));
    }
  }

  /**
   * An update changes the name, the pin and the parameters it asks for and nothing else of the model: an empty name
   * and what is left out keep what was there.
   */
  lemma UpdateTakes(w: World, id: string, name: Option<string>, pinned: Option<bool>, params: Option<Record>,
                    now: string)
    requires var w1 := SyncWorld(w, now); InSync(w1) && HasModel(w1.state.models, id)
    requires params.Some? ==> AcceptableParams(params.value)
    ensures var was := SyncWorld(w, now).state.models;
      var models := UpdatedWorld(w, id, name, pinned, params, now).state.models;
      var i := FindModel(was, id);
      && i < |was| == |models| && models == was[i := models[i]]
      && models[i].id == id && models[i].hfRef == was[i].hfRef && models[i].repoId == was[i].repoId
      && models[i].quant == was[i].quant && models[i].createdAt == was[i].createdAt
      && models[i].pinned == (if pinned.Some? then pinned.value else was[i].pinned)
      && (name.Some? && Trim(name.value) != "" ==> models[i].name == Tidy(name.value))
      && ((name.None? || Trim(name.value) == "") && Tidy(was[i].name) == was[i].name ==> models[i].name == was[i].name)
      && (params.None? ==> models[i].params == was[i].params)
      && (params.Some? ==> forall k, v ::
            (Get(models[i].params.extra, k) == Some(v) <==>
             (k != "" && exists raw :: LastSays(params.value, k, raw) && v == Tidy(raw))))
  {
    hide Trim, Tidy, SyncWorld, UpdatedWorld, InSync, NormalizeModelParams, AcceptableParams, LastSays, Get,
         NormalizeParams, TidyEntries;
    var w1 := SyncWorld(w, now);
    var i := FindModel(w1.state.models, id);
    UpdateModelReadsBack(w, id, name, pinned, params, now);
    var next := Requested(w1.state.models[i], name, pinned, params, ContextCap(w1));
    TrimTrimmed("");
    if name.Some? {
      NameTidied(name.value);
    }
    if params.Some? {
      assert next.params.extra == NormalizeParams(params.value) by {
        hide TidyEntries;
        OwnExtra(params.value, ContextCap(w1));
      }
      forall k, v
        ensures Get(ReadBack(next, ContextCap(w1)).params.extra, k) == Some(v)
          <==> k != "" && exists raw :: LastSays(params.value, k, raw) && v == Tidy(raw)
      {
        UpdatedParameter(params.value, ContextCap(w1), k, v);
      }
    }
  }

  lemma OwnExtra(params: Record, g: Option<nat>)
    ensures NormalizeModelParams(params, g).extra == NormalizeParams(params)
  {
  }

  lemma NameTidied(name: string)
    ensures Trim(name) != "" ==> Tidy(Trim(name)) == Tidy(name) && Tidy(name) != ""
  {
    hide Trim, IsSpace;
    var before, after := Around(name);
    var core := Trim(name);
    var a, r, b := ReplaceNewlines(before, ' '), ReplaceNewlines(core, ' '), ReplaceNewlines(after, ' ');
    assert ReplaceNewlines(name, ' ') == a + r + b;
    SpaceStaysSpace(before);
    SpaceStaysSpace(after);
    TrimAround(a, r, b);
    TrimIdempotent(name);
    if core != "" {
      TidyOfTrimmed(core);
    }
  }

  lemma SpaceStaysSpace(w: string)
    requires AllSpace(w)
    ensures AllSpace(ReplaceNewlines(w, ' '))
  {
  }
}
