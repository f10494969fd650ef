/**
 * The walk over a zip archive's central directory that refuses a repeated name before anything is unpacked
 * (APPNOTE.TXT sections 4.3.12 and 4.3.16).
 */
module ZipDirectory {
  import opened Text

  type Byte = b: int | 0 <= b < 256

  type Decoder = seq<Byte> -> string

  datatype Refusal = NotAZip | Zip64 | Invalid | Duplicate(name: string)

  const RECORD_SIGNATURE := 0x02014b50
  const END_SIGNATURE := 0x06054b50
  const RECORD_SIZE := 46
  const END_SIZE := 22
  const MAX_COMMENT := 0xffff

  function U16(bytes: seq<Byte>, at: nat): nat
    requires at + 2 <= |bytes|
  {
    (bytes[at] as int) + 0x100 * (bytes[at + 1] as int)
  }

  function U32(bytes: seq<Byte>, at: nat): nat
    requires at + 4 <= |bytes|
  {
    U16(bytes, at) + 0x1_0000 * U16(bytes, at + 2)
  }

  // ----- the end record -----

  /** An end record at `at` whose comment reaches exactly to the end of the file. */
  predicate EndsAt(bytes: seq<Byte>, at: nat) {
    && at + END_SIZE <= |bytes| && U32(bytes, at) == END_SIGNATURE
    && at + END_SIZE + U16(bytes, at + 20) == |bytes|
  }

  /** The last end record of the file. */
  ghost predicate IsEnd(bytes: seq<Byte>, at: nat) {
    EndsAt(bytes, at) && forall k: nat :: at < k ==> !EndsAt(bytes, k)
  }

  method FindEndOfCentralDirectory(bytes: seq<Byte>) returns (at: Option<nat>)
    ensures at.Some? ==> IsEnd(bytes, at.value)
    ensures at.None? ==> forall k: nat :: !EndsAt(bytes, k)
  {
    var start := if |bytes| - END_SIZE - MAX_COMMENT > 0 then |bytes| - END_SIZE - MAX_COMMENT else 0;
    var offset := |bytes| - END_SIZE;
    while offset >= start
      invariant offset <= |bytes| - END_SIZE
      invariant forall k: nat :: offset < k ==> !EndsAt(bytes, k)
    {
      if U32(bytes, offset) == END_SIGNATURE && offset + END_SIZE + U16(bytes, offset + 20) == |bytes| {
        return Some(offset);
      }
      offset := offset - 1;
    }
    forall k: nat | k < start ensures !EndsAt(bytes, k) {
      CommentIsShort(bytes, k);
    }
    at := None;
  }

  lemma CommentIsShort(bytes: seq<Byte>, at: nat)
    requires at + END_SIZE + MAX_COMMENT < |bytes|
    ensures !EndsAt(bytes, at)
  {
  }

  // ----- the records -----

  function NameLength(bytes: seq<Byte>, at: nat): nat
    requires at + RECORD_SIZE <= |bytes|
  {
    U16(bytes, at + 28)
  }

  function RecordEnd(bytes: seq<Byte>, at: nat): nat
    requires at + RECORD_SIZE <= |bytes|
  {
    at + RECORD_SIZE + NameLength(bytes, at) + U16(bytes, at + 30) + U16(bytes, at + 32)
  }

  /** A well-signed record that lies inside the file. */
  predicate RecordAt(bytes: seq<Byte>, at: nat) {
    && at + RECORD_SIZE <= |bytes| && U32(bytes, at) == RECORD_SIGNATURE
    && RecordEnd(bytes, at) <= |bytes|
  }

  function NameAt(bytes: seq<Byte>, decode: Decoder, at: nat): string
    requires RecordAt(bytes, at)
  {
    decode(bytes[at + RECORD_SIZE..at + RECORD_SIZE + NameLength(bytes, at)])
  }

  /** Walks `left` records from `at`, refusing a name met before. */
  function Walk(bytes: seq<Byte>, decode: Decoder, at: nat, left: nat, seen: set<string>): (end: Result<nat>)
    decreases left
  {
    if left == 0 then Ok(at)
    else if !RecordAt(bytes, at) then Refused(Invalid)
    else
      var name := NameAt(bytes, decode, at);
      if name in seen then Refused(Duplicate(name))
      else Walk(bytes, decode, RecordEnd(bytes, at), left - 1, seen + {name})
  }

  datatype Result<T> = Ok(value: T) | Refused(refusal: Refusal)

  datatype Directory = Directory(total: nat, size: nat, offset: nat)

  function DirectoryOf(bytes: seq<Byte>, end: nat): Directory
    requires EndsAt(bytes, end)
  {
    Directory(U16(bytes, end + 10), U32(bytes, end + 12), U32(bytes, end + 16))
  }

  predicate NeedsZip64(d: Directory) {
    d.total == 0xffff || d.size == 0xffff_ffff || d.offset == 0xffff_ffff
  }

  function Check(bytes: seq<Byte>, decode: Decoder, end: nat): Option<Refusal>
    requires EndsAt(bytes, end)
  {
    var d := DirectoryOf(bytes, end);
    if NeedsZip64(d) then Some(Zip64)
    else if d.offset + d.size > |bytes| then Some(Invalid)
    else
      match Walk(bytes, decode, d.offset, d.total, {})
      case Refused(refusal) => Some(refusal)
      case Ok(last) => if last != d.offset + d.size then Some(Invalid) else None
  }

  /** The refusal the source throws, or nothing. */
  method AssertNoDuplicateZipEntries(bytes: seq<Byte>, decode: Decoder) returns (refusal: Option<Refusal>)
    ensures forall end: nat :: IsEnd(bytes, end) ==> refusal == Check(bytes, decode, end)
    ensures (forall k: nat :: !EndsAt(bytes, k)) ==> refusal == Some(NotAZip)
  {
    hide IsEnd, EndsAt, U16, U32, NameLength;
    var found := FindEndOfCentralDirectory(bytes);
    if found.None? {
      NoEnd(bytes);
      return Some(NotAZip);
    }
    var end := found.value;
    OneEnd(bytes, end);
    EndInBounds(bytes, end);
    var total, size, start := U16(bytes, end + 10), U32(bytes, end + 12), U32(bytes, end + 16);
    if total == 0xffff || size == 0xffff_ffff || start == 0xffff_ffff {
      return Some(Zip64);
    }
    if start + size > |bytes| {
      return Some(Invalid);
    }
    var seen: set<string> := {};
    var offset: nat := start;
    for index := 0 to total
      invariant Walk(bytes, decode, start, total, {}) == Walk(bytes, decode, offset, total - index, seen)
    {
      if offset + RECORD_SIZE > |bytes| || U32(bytes, offset) != RECORD_SIGNATURE {
        return Some(Invalid);
      }
      var filenameLength := U16(bytes, offset + 28);
      var extraLength := U16(bytes, offset + 30);
      var commentLength := U16(bytes, offset + 32);
      LengthOfName(bytes, offset);
      var filenameStart := offset + RECORD_SIZE;
      var filenameEnd := filenameStart + filenameLength;
      var recordEnd := filenameEnd + extraLength + commentLength;
      if recordEnd > |bytes| {
        return Some(Invalid);
      }
      var filename := decode(bytes[filenameStart..filenameEnd]);
      if filename in seen {
        return Some(Duplicate(filename));
      }
      seen := seen + {filename};
      offset := recordEnd;
    }
    if offset != start + size {
      return Some(Invalid);
    }
    refusal := None;
  }

  lemma LengthOfName(bytes: seq<Byte>, at: nat)
    requires at + RECORD_SIZE <= |bytes|
    ensures NameLength(bytes, at) == U16(bytes, at + 28)
  {
  }

  lemma NoEnd(bytes: seq<Byte>)
    requires forall k: nat :: !EndsAt(bytes, k)
    ensures forall k: nat :: !IsEnd(bytes, k)
  {
  }

  lemma OneEnd(bytes: seq<Byte>, end: nat)
    requires IsEnd(bytes, end)
    ensures EndsAt(bytes, end) && forall k: nat :: IsEnd(bytes, k) ==> k == end
  {
    hide EndsAt;
    forall k: nat | IsEnd(bytes, k) ensures k == end {
      assert EndsAt(bytes, k) && EndsAt(bytes, end);
    }
  }

  lemma EndInBounds(bytes: seq<Byte>, end: nat)
    requires EndsAt(bytes, end)
    ensures end + END_SIZE <= |bytes|
  {
  }

  // ----- what acceptance means -----

  /** Records laid end to end, each beginning where the one before it ends. */
  predicate Tiles(bytes: seq<Byte>, cuts: seq<nat>) {
    |cuts| > 0 && forall i :: 0 <= i < |cuts| - 1 ==>
      RecordAt(bytes, cuts[i]) && cuts[i + 1] == RecordEnd(bytes, cuts[i])
  }

  predicate DistinctNames(bytes: seq<Byte>, decode: Decoder, cuts: seq<nat>, seen: set<string>)
    requires Tiles(bytes, cuts)
  {
    && (forall i :: 0 <= i < |cuts| - 1 ==> NameAt(bytes, decode, cuts[i]) !in seen)
    && (forall i, j :: 0 <= i < j < |cuts| - 1 ==> NameAt(bytes, decode, cuts[i]) != NameAt(bytes, decode, cuts[j]))
  }

  predicate Covers(bytes: seq<Byte>, decode: Decoder, cuts: seq<nat>, at: nat, left: nat, seen: set<string>, end: nat) {
    |cuts| == left + 1 && cuts[0] == at && cuts[left] == end && Tiles(bytes, cuts)
      && DistinctNames(bytes, decode, cuts, seen)
  }

  lemma {:induction false} WalkCovers(bytes: seq<Byte>, decode: Decoder, at: nat, left: nat,
                                      seen: set<string>)
    returns (cuts: seq<nat>)
    requires Walk(bytes, decode, at, left, seen).Ok?
    ensures Covers(bytes, decode, cuts, at, left, seen, Walk(bytes, decode, at, left, seen).value)
    decreases left
  {
    hide RecordEnd, NameAt;
    if left == 0 {
      cuts := [at];
    } else {
      var name := NameAt(bytes, decode, at);
      var rest := WalkCovers(bytes, decode, RecordEnd(bytes, at), left - 1, seen + {name});
      cuts := [at] + rest;
      ConsCovers(bytes, decode, at, rest, seen);
    }
  }

  lemma ConsCovers(bytes: seq<Byte>, decode: Decoder, at: nat, rest: seq<nat>, seen: set<string>)
    requires RecordAt(bytes, at) && Tiles(bytes, rest) && rest[0] == RecordEnd(bytes, at)
    ensures Tiles(bytes, [at] + rest)
    ensures DistinctNames(bytes, decode, [at] + rest, seen) <==>
      NameAt(bytes, decode, at) !in seen && DistinctNames(bytes, decode, rest, seen + {NameAt(bytes, decode, at)})
  {
    hide RecordAt, RecordEnd, NameAt;
    var cuts := [at] + rest;
    assert forall i :: 0 < i < |cuts| ==> cuts[i] == rest[i - 1];
    if DistinctNames(bytes, decode, cuts, seen) {
      forall i | 0 <= i < |rest| - 1 ensures NameAt(bytes, decode, rest[i]) !in seen + {NameAt(bytes, decode, at)} {
        assert cuts[i + 1] == rest[i] && cuts[0] == at;
      }
      forall i, j | 0 <= i < j < |rest| - 1 ensures NameAt(bytes, decode, rest[i]) != NameAt(bytes, decode, rest[j]) {
        assert cuts[i + 1] == rest[i] && cuts[j + 1] == rest[j];
      }
    }
  }

  lemma {:induction false} CoveredWalks(bytes: seq<Byte>, decode: Decoder, cuts: seq<nat>, at: nat, left: nat,
                                        seen: set<string>, end: nat)
    requires Covers(bytes, decode, cuts, at, left, seen, end)
    ensures Walk(bytes, decode, at, left, seen) == Ok(end)
    decreases left
  {
    hide RecordEnd, NameAt;
    if left > 0 {
      var rest := cuts[1..];
      assert cuts == [at] + rest;
      assert forall i :: 0 <= i < |rest| ==> rest[i] == cuts[i + 1];
      ConsCovers(bytes, decode, at, rest, seen);
      CoveredWalks(bytes, decode, rest, RecordEnd(bytes, at), left - 1, seen + {NameAt(bytes, decode, at)}, end);
    }
  }

  /** The announced number of records, laid end to end over exactly the announced directory, under distinct names. */
  predicate TilesDirectory(bytes: seq<Byte>, decode: Decoder, d: Directory, cuts: seq<nat>) {
    Covers(bytes, decode, cuts, d.offset, d.total, {}, d.offset + d.size)
  }

  /** An archive is accepted exactly when its announced records tile the announced directory under distinct names. */
  lemma AcceptedIff(bytes: seq<Byte>, decode: Decoder, end: nat)
    requires IsEnd(bytes, end)
    ensures var d := DirectoryOf(bytes, end);
      Check(bytes, decode, end).None? <==>
        !NeedsZip64(d) && d.offset + d.size <= |bytes| && exists cuts :: TilesDirectory(bytes, decode, d, cuts)
  {
    hide Walk, Covers, DirectoryOf, EndsAt;
    var d := DirectoryOf(bytes, end);
    if cuts :| TilesDirectory(bytes, decode, d, cuts) {
      CoveredWalks(bytes, decode, cuts, d.offset, d.total, {}, d.offset + d.size);
    }
    if Check(bytes, decode, end).None? {
      var cuts := WalkCovers(bytes, decode, d.offset, d.total, {});
      assert TilesDirectory(bytes, decode, d, cuts);
    }
  }

  // ----- archives as a writer lays them out -----

  /** A central directory record: the fields around its three lengths, and what those lengths count. */
  datatype Record = Record(head: seq<Byte>, tail: seq<Byte>, name: seq<Byte>, extra: seq<Byte>, comment: seq<Byte>)

  predicate Writable(r: Record) {
    |r.head| == 24 && |r.tail| == 12 && |r.name| <= 0xffff && |r.extra| <= 0xffff && |r.comment| <= 0xffff
  }

  function Le16(n: nat): (b: seq<Byte>)
    requires n <= 0xffff
    ensures |b| == 2 && U16(b, 0) == n
  {
    [n % 0x100, n / 0x100]
  }

  function Le32(n: nat): (b: seq<Byte>)
    requires n <= 0xffff_ffff
    ensures |b| == 4 && U32(b, 0) == n
  {
    var low, high := Le16(n % 0x1_0000), Le16(n / 0x1_0000);
    assert (low + high)[0] == low[0] && (low + high)[1] == low[1] && (low + high)[2] == high[0]
      && (low + high)[3] == high[1];
    low + high
  }

  function Fixed(r: Record): (b: seq<Byte>)
    requires Writable(r)
    ensures |b| == RECORD_SIZE
  {
    Le32(RECORD_SIGNATURE) + r.head + Le16(|r.name|) + Le16(|r.extra|) + Le16(|r.comment|) + r.tail
  }

  function WriteRecord(r: Record): (b: seq<Byte>)
    requires Writable(r)
    ensures |b| == RECORD_SIZE + |r.name| + |r.extra| + |r.comment|
  {
    Fixed(r) + r.name + r.extra + r.comment
  }

  function WriteRecords(records: seq<Record>): seq<Byte>
    requires forall r :: r in records ==> Writable(r)
  {
    if records == [] then [] else WriteRecord(records[0]) + WriteRecords(records[1..])
  }

  function WriteEnd(total: nat, size: nat, offset: nat): (b: seq<Byte>)
    requires total <= 0xffff && size <= 0xffff_ffff && offset <= 0xffff_ffff
    ensures |b| == END_SIZE
  {
    Le32(END_SIGNATURE) + Le16(0) + Le16(0) + Le16(total) + Le16(total) + Le32(size) + Le32(offset) + Le16(0)
  }

  predicate CanWrite(files: seq<Byte>, records: seq<Record>) {
    && (forall r :: r in records ==> Writable(r))
    && |records| < 0xffff && |files| < 0xffff_ffff && |WriteRecords(records)| < 0xffff_ffff
  }

  /** File data, then the directory, then an end record without a comment. */
  function WriteArchive(files: seq<Byte>, records: seq<Record>): (b: seq<Byte>)
    requires CanWrite(files, records)
    ensures |b| == |files| + |WriteRecords(records)| + END_SIZE
  {
    files + WriteRecords(records) + WriteEnd(|records|, |WriteRecords(records)|, |files|)
  }

  // Reading a field back from where it was laid.

  lemma Read16(before: seq<Byte>, b: seq<Byte>, after: seq<Byte>, at: nat)
    requires at + 2 <= |b|
    ensures U16(before + b + after, |before| + at) == U16(b, at)
  {
    var s := before + b + after;
    assert s[|before| + at] == b[at] && s[|before| + at + 1] == b[at + 1];
  }

  lemma Read32(before: seq<Byte>, b: seq<Byte>, after: seq<Byte>, at: nat)
    requires at + 4 <= |b|
    ensures U32(before + b + after, |before| + at) == U32(b, at)
  {
    Read16(before, b, after, at);
    Read16(before, b, after, at + 2);
  }

  lemma FixedFields(r: Record)
    requires Writable(r)
    ensures var b := Fixed(r);
      U32(b, 0) == RECORD_SIGNATURE && U16(b, 28) == |r.name| && U16(b, 30) == |r.extra| && U16(b, 32) == |r.comment|
  {
    hide U16, U32, Le16, Le32;
    var sign, name, extra, comment := Le32(RECORD_SIGNATURE), Le16(|r.name|), Le16(|r.extra|), Le16(|r.comment|);
    var b := Fixed(r);
    assert b == [] + sign + (r.head + name + extra + comment + r.tail);
    assert b == (sign + r.head) + name + (extra + comment + r.tail);
    assert b == (sign + r.head + name) + extra + (comment + r.tail);
    assert b == (sign + r.head + name + extra) + comment + r.tail;
    Read32([], sign, r.head + name + extra + comment + r.tail, 0);
    Read16(sign + r.head, name, extra + comment + r.tail, 0);
    Read16(sign + r.head + name, extra, comment + r.tail, 0);
    Read16(sign + r.head + name + extra, comment, r.tail, 0);
  }

  /** A record written anywhere in a file is read back whole. */
  lemma WrittenRecord(before: seq<Byte>, r: Record, after: seq<Byte>, decode: Decoder)
    requires Writable(r)
    ensures var bytes := before + WriteRecord(r) + after;
      RecordAt(bytes, |before|) && RecordEnd(bytes, |before|) == |before| + |WriteRecord(r)|
      && NameAt(bytes, decode, |before|) == decode(r.name)
  {
    hide U16, U32, Fixed;
    var bytes := before + WriteRecord(r) + after;
    var b, rest := Fixed(r), r.name + r.extra + r.comment + after;
    assert bytes == before + b + rest;
    FixedFields(r);
    Read32(before, b, rest, 0);
    Read16(before, b, rest, 28);
    Read16(before, b, rest, 30);
    Read16(before, b, rest, 32);
    assert bytes == (before + b) + r.name + (r.extra + r.comment + after);
    assert bytes[|before| + RECORD_SIZE..|before| + RECORD_SIZE + |r.name|] == r.name;
  }

  function Names(records: seq<Record>, decode: Decoder): (names: seq<string>)
    ensures |names| == |records| && forall i :: 0 <= i < |names| ==> names[i] == decode(records[i].name)
  {
    seq(|records|, i requires 0 <= i < |records| => decode(records[i].name))
  }

  predicate Fresh(names: seq<string>, seen: set<string>) {
    && (forall i :: 0 <= i < |names| ==> names[i] !in seen)
    && (forall i, j :: 0 <= i < j < |names| ==> names[i] != names[j])
  }

  /** Over written records the walk succeeds exactly when no name repeats, and names the culprit otherwise. */
  lemma {:induction false} WrittenWalk(before: seq<Byte>, records: seq<Record>, after: seq<Byte>, decode: Decoder,
                                       seen: set<string>)
    requires forall r :: r in records ==> Writable(r)
    ensures var walked := Walk(before + WriteRecords(records) + after, decode, |before|, |records|, seen);
      if Fresh(Names(records, decode), seen) then walked == Ok(|before| + |WriteRecords(records)|)
      else walked.Refused? && walked.refusal.Duplicate? && walked.refusal.name in Names(records, decode)
    decreases |records|
  {
    hide WriteRecord, RecordAt, RecordEnd, NameAt;
    if records != [] {
      var r, rest := records[0], records[1..];
      var name := decode(r.name);
      var bytes := before + WriteRecords(records) + after;
      var first, others := WriteRecord(r), WriteRecords(rest);
      assert bytes == before + first + (others + after);
      assert bytes == (before + first) + others + after;
      WrittenRecord(before, r, others + after, decode);
      WrittenWalk(before + first, rest, after, decode, seen + {name});
      NamesCons(records, decode, seen);
    }
  }

  lemma FreshCons(name: string, rest: seq<string>, seen: set<string>)
    ensures Fresh([name] + rest, seen) <==> name !in seen && Fresh(rest, seen + {name})
  {
    var names := [name] + rest;
    assert names[0] == name;
    assert forall i :: 0 <= i < |rest| ==> names[i + 1] == rest[i];
    if Fresh(names, seen) {
      assert forall i :: 0 <= i < |rest| ==> rest[i] == names[i + 1] && rest[i] != names[0];
      forall i, j | 0 <= i < j < |rest| ensures rest[i] != rest[j] {
        assert names[i + 1] == rest[i] && names[j + 1] == rest[j];
      }
    }
    if name !in seen && Fresh(rest, seen + {name}) {
      assert forall i :: 0 < i < |names| ==> names[i] == rest[i - 1];
    }
  }

  lemma NamesCons(records: seq<Record>, decode: Decoder, seen: set<string>)
    requires records != []
    ensures var names, rest := Names(records, decode), Names(records[1..], decode);
      names == [decode(records[0].name)] + rest
      && (Fresh(names, seen) <==> names[0] !in seen && Fresh(rest, seen + {names[0]}))
  {
    hide Fresh;
    var names, rest := Names(records, decode), Names(records[1..], decode);
    assert names == [decode(records[0].name)] + rest;
    FreshCons(names[0], rest, seen);
  }

  lemma EndFields(total: nat, size: nat, offset: nat)
    requires total <= 0xffff && size <= 0xffff_ffff && offset <= 0xffff_ffff
    ensures var b := WriteEnd(total, size, offset);
      U32(b, 0) == END_SIGNATURE && U16(b, 10) == total && U32(b, 12) == size && U32(b, 16) == offset && U16(b, 20) == 0
  {
    hide U16, U32, Le16, Le32;
    var b := WriteEnd(total, size, offset);
    var sign, zero, count, long, start := Le32(END_SIGNATURE), Le16(0), Le16(total), Le32(size), Le32(offset);
    assert b == [] + sign + (zero + zero + count + count + long + start + zero);
    assert b == (sign + zero + zero + count) + count + (long + start + zero);
    assert b == (sign + zero + zero + count + count) + long + (start + zero);
    assert b == (sign + zero + zero + count + count + long) + start + zero;
    assert b == (sign + zero + zero + count + count + long + start) + zero + [];
    Read32([], sign, zero + zero + count + count + long + start + zero, 0);
    Read16(sign + zero + zero + count, count, long + start + zero, 0);
    Read32(sign + zero + zero + count + count, long, start + zero, 0);
    Read32(sign + zero + zero + count + count + long, start, zero, 0);
    Read16(sign + zero + zero + count + count + long + start, zero, [], 0);
  }

  /** The end record is found where it was written, with the directory it announces. */
  lemma WrittenEnd(files: seq<Byte>, records: seq<Record>)
    requires CanWrite(files, records)
    ensures var bytes := WriteArchive(files, records); var end := |bytes| - END_SIZE;
      IsEnd(bytes, end) && DirectoryOf(bytes, end) == Directory(|records|, |WriteRecords(records)|, |files|)
  {
    hide U16, U32, WriteEnd, WriteRecords;
    var bytes := WriteArchive(files, records);
    var before, b := files + WriteRecords(records), WriteEnd(|records|, |WriteRecords(records)|, |files|);
    EndFields(|records|, |WriteRecords(records)|, |files|);
    assert bytes == before + b + [];
    Read32(before, b, [], 0);
    Read16(before, b, [], 10);
    Read32(before, b, [], 12);
    Read32(before, b, [], 16);
    Read16(before, b, [], 20);
  }

  /**
   * Every comment-free archive a writer lays out is accepted when its names, as decoded, are distinct; when one
   * repeats, the archive is refused over a name it holds.
   */
  lemma WrittenArchive(files: seq<Byte>, records: seq<Record>, decode: Decoder)
    requires CanWrite(files, records)
    ensures var bytes := WriteArchive(files, records); var refusal := Check(bytes, decode, |bytes| - END_SIZE);
      && IsEnd(bytes, |bytes| - END_SIZE)
      && (refusal.None? <==> Fresh(Names(records, decode), {}))
      && (refusal.Some? ==> refusal.value.Duplicate? && refusal.value.name in Names(records, decode))
  {
    hide U16, U32, Walk, WriteEnd, WriteRecords, Fresh, EndsAt, IsEnd, DirectoryOf;
    WrittenEnd(files, records);
    WrittenWalk(files, records, WriteEnd(|records|, |WriteRecords(records)|, |files|), decode, {});
    OneEnd(WriteArchive(files, records), |WriteArchive(files, records)| - END_SIZE);
  }
}
