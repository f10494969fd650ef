/**
 * The conversation sidebar: keyset pages over (updated_at, id), walked while other conversations are
 * created, answered, renamed, pinned and deleted.
 */
module Pagination {
  import opened Text
  import Seqs

  datatype Row = Row(updatedAt: nat, pinned: bool, title: string)

  type Table = map<string, Row>

  datatype Key = Key(updatedAt: nat, id: string)

  // The search box: any fixed condition on the title.
  type Filter = string -> bool

  const MAX_PINNED_CONVERSATIONS: nat := 200

  /** `(a.updated_at, a.id) < (b.updated_at, b.id)` */
  predicate Below(a: Key, b: Key) {
    a.updatedAt < b.updatedAt || (a.updatedAt == b.updatedAt && Before(a.id, b.id))
  }

  lemma BelowTotal(a: Key, b: Key)
    ensures a != b ==> Below(a, b) != Below(b, a)
    ensures !Below(a, a)
  {
    BeforeTotal(a.id, b.id);
    BeforeTotal(a.id, a.id);
  }

  lemma BelowTransitive(a: Key, b: Key, c: Key)
    requires Below(a, b) && Below(b, c)
    ensures Below(a, c)
  {
    if a.updatedAt == b.updatedAt == c.updatedAt {
      BeforeTransitive(a.id, b.id, c.id);
    }
  }

  // ----- one page -----

  predicate Selected(rows: Table, id: string, pinned: bool, hit: Filter) {
    id in rows && rows[id].pinned == pinned && hit(rows[id].title)
  }

  function KeyOf(rows: Table, id: string): Key
    requires id in rows
  {
    Key(rows[id].updatedAt, id)
  }

  /** The keys of the rows a query may return. */
  function Candidates(rows: Table, pinned: bool, hit: Filter, cursor: Option<Key>): set<Key> {
    set id | id in rows && Selected(rows, id, pinned, hit)
             && (cursor.Some? ==> Below(KeyOf(rows, id), cursor.value)) :: KeyOf(rows, id)
  }

  ghost predicate IsTop(s: set<Key>, m: Key) {
    m in s && forall k :: k in s && k != m ==> Below(k, m)
  }

  lemma {:induction false} TopExists(s: set<Key>) returns (m: Key)
    requires s != {}
    ensures IsTop(s, m)
  {
    var x :| x in s;
    var rest := s - {x};
    if rest == {} {
      m := x;
      assert forall k :: k in s && k != m ==> k in rest;
    } else {
      var t := TopExists(rest);
      assert forall k :: k in s && k != x ==> k in rest;
      BelowTotal(x, t);
      if Below(x, t) {
        m := t;
      } else {
        m := x;
        forall k | k in s && k != x ensures Below(k, x) {
          if k != t {
            BelowTransitive(k, t, x);
          }
        }
      }
    }
  }

  lemma SomeTop(s: set<Key>)
    requires s != {}
    ensures exists m :: IsTop(s, m)
  {
    var m := TopExists(s);
  }

  /** `ORDER BY updated_at DESC, id DESC` */
  ghost function Descending(s: set<Key>): (r: seq<Key>)
    decreases |s|
  {
    if s == {} then []
    else
      SomeTop(s);
      var m :| IsTop(s, m);
      [m] + Descending(s - {m})
  }

  ghost predicate Sorted(r: seq<Key>) {
    forall i, j :: 0 <= i < j < |r| ==> Below(r[j], r[i])
  }

  lemma {:induction false} DescendingShape(s: set<Key>)
    ensures |Descending(s)| == |s| && Sorted(Descending(s))
    ensures forall k :: k in Descending(s) <==> k in s
    decreases |s|
  {
    if s != {} {
      SomeTop(s);
      var r := Descending(s);
      var m := r[0];
      assert IsTop(s, m) && r == [m] + Descending(s - {m});
      DescendingShape(s - {m});
      forall i, j | 0 <= i < j < |r| ensures Below(r[j], r[i]) {
        assert r[j] in Descending(s - {m});
        if i > 0 {
          assert Descending(s - {m})[i - 1] == r[i] && Descending(s - {m})[j - 1] == r[j];
        }
      }
    }
  }

  /** A page of the query: the first `limit` rows of the order. */
  ghost function Page(rows: Table, pinned: bool, hit: Filter, cursor: Option<Key>, limit: nat): seq<Key> {
    var all := Descending(Candidates(rows, pinned, hit, cursor));
    if limit <= |all| then all[..limit] else all
  }

  function BelowIn(s: set<Key>, x: Key): set<Key> {
    set k | k in s && Below(k, x)
  }

  lemma DescendingStep(s: set<Key>) returns (m: Key)
    requires s != {}
    ensures IsTop(s, m) && Descending(s) == [m] + Descending(s - {m})
  {
    SomeTop(s);
    m := Descending(s)[0];
  }

  lemma BelowTop(s: set<Key>, m: Key, x: Key)
    requires IsTop(s, m)
    ensures BelowIn(s, m) == s - {m}
    ensures x in s - {m} ==> BelowIn(s, x) == BelowIn(s - {m}, x)
  {
    BelowTotal(m, m);
    BelowTotal(m, x);
  }

  /** The rest of the order after the first `n` rows is the order of the rows below the n-th. */
  lemma {:induction false} DescendingSuffix(s: set<Key>, n: nat)
    requires 0 < n <= |s|
    ensures n <= |Descending(s)|
    ensures Descending(s)[n..] == Descending(BelowIn(s, Descending(s)[n - 1]))
    decreases n
  {
    hide Descending, Below, IsTop, BelowIn;
    DescendingShape(s);
    var m := DescendingStep(s);
    assert m in s by { TopIsIn(s, m); }
    var t := Descending(s - {m});
    DescendingShape(s - {m});
    var r := Descending(s);
    if n == 1 {
      BelowTop(s, m, m);
    } else {
      DescendingSuffix(s - {m}, n - 1);
      assert t[n - 2] == r[n - 1] && r[n..] == t[n - 1..];
      assert t[n - 2] in t;
      BelowTop(s, m, r[n - 1]);
    }
  }

  lemma TopIsIn(s: set<Key>, m: Key)
    requires IsTop(s, m)
    ensures m in s
  {
  }

  function Clamp(limit: int): (n: nat)
    ensures 1 <= n <= 200
  {
    if limit < 1 then 1 else if limit > 200 then 200 else limit
  }

  datatype Listing = Listing(pinned: seq<Key>, recent: seq<Key>, nextCursor: Option<Key>)

  /** Pinned rows ride on the first page only; only a full page can have more behind it. */
  ghost function ListConversations(rows: Table, hit: Filter, limit: int, cursor: Option<Key>): Listing {
    var recent := Page(rows, false, hit, cursor, Clamp(limit));
    Listing(if cursor.Some? then [] else Page(rows, true, hit, None, MAX_PINNED_CONVERSATIONS),
            recent,
            if |recent| == Clamp(limit) then Some(recent[|recent| - 1]) else None)
  }

  /** A conversation with this pin, matching the search and, from the second page on, below the cursor. */
  predicate IsListed(rows: Table, hit: Filter, cursor: Option<Key>, pinned: bool, k: Key) {
    && k.id in rows && rows[k.id] == Row(k.updatedAt, pinned, rows[k.id].title) && hit(rows[k.id].title)
    && (cursor.Some? ==>
          (|| k.updatedAt < cursor.value.updatedAt
           || (k.updatedAt == cursor.value.updatedAt && Before(k.id, cursor.value.id))))
  }

  /** The newest of the conversations listed, newest first: `n` of them, or all there are. */
  ghost predicate IsNewest(page: seq<Key>, rows: Table, hit: Filter, cursor: Option<Key>, pinned: bool, n: nat) {
    && |page| <= n && Sorted(page) && (forall k :: k in page ==> IsListed(rows, hit, cursor, pinned, k))
    && (forall k :: IsListed(rows, hit, cursor, pinned, k) && k !in page ==>
         |page| == n && forall m :: m in page ==> Below(k, m))
  }

  lemma PageIsNewest(rows: Table, hit: Filter, cursor: Option<Key>, pinned: bool, n: nat)
    ensures IsNewest(Page(rows, pinned, hit, cursor, n), rows, hit, cursor, pinned, n)
  {
    hide Descending, Before;
    var all := Descending(Candidates(rows, pinned, hit, cursor));
    DescendingShape(Candidates(rows, pinned, hit, cursor));
    var page := Page(rows, pinned, hit, cursor, n);
    assert all == page + all[|page|..];
    forall k ensures IsListed(rows, hit, cursor, pinned, k) <==> k in all {
      ListedIsCandidate(rows, hit, cursor, pinned, k);
    }
    forall k, m | k in all && k !in page && m in page ensures Below(k, m) {
      var i :| 0 <= i < |all| && all[i] == k;
      var j :| 0 <= j < |page| && page[j] == m;
      assert i >= |page| && all[j] == m;
    }
  }

  lemma ListedIsCandidate(rows: Table, hit: Filter, cursor: Option<Key>, pinned: bool, k: Key)
    ensures IsListed(rows, hit, cursor, pinned, k) <==> k in Candidates(rows, pinned, hit, cursor)
  {
    hide Before;
    if IsListed(rows, hit, cursor, pinned, k) {
      assert KeyOf(rows, k.id) == k;
    }
  }

  /** What one listing shows: a page within the limit's bounds, and on the first page the pinned ones beside it. */
  lemma ListingShows(rows: Table, hit: Filter, limit: int, cursor: Option<Key>)
    ensures var n := if limit < 1 then 1 else if limit > 200 then 200 else limit;
      var l := ListConversations(rows, hit, limit, cursor);
      && IsNewest(l.recent, rows, hit, cursor, false, n)
      && (cursor.None? ==> IsNewest(l.pinned, rows, hit, None, true, 200))
      && (cursor.Some? ==> l.pinned == [])
      && (l.nextCursor.Some? <==> |l.recent| == n)
      && (l.nextCursor.Some? ==> l.nextCursor.value == l.recent[|l.recent| - 1])
  {
    hide Page, IsNewest;
    PageIsNewest(rows, hit, cursor, false, Clamp(limit));
    PageIsNewest(rows, hit, None, true, MAX_PINNED_CONVERSATIONS);
  }

  // ----- writes -----

  /** Every write that moves a row stamps the current time on it. */
  datatype Write =
    | Create(id: string, title: string)
    | Rename(id: string, title: string)
    | SetPinned(id: string, pinned: bool)
    | Touch(id: string)
    | Delete(id: string)

  function Apply(rows: Table, w: Write, now: nat): Table {
    match w
    case Create(id, title) => if id in rows then rows else rows[id := Row(now, false, title)]
    case Rename(id, title) => if id in rows then rows[id := rows[id].(title := title, updatedAt := now)] else rows
    case SetPinned(id, pinned) => if id in rows then rows[id := rows[id].(pinned := pinned, updatedAt := now)] else rows
    case Touch(id) => if id in rows then rows[id := rows[id].(updatedAt := now)] else rows
    case Delete(id) => rows - {id}
  }

  class ConversationRepository {
    var rows: Table

    constructor ()
      ensures rows == map[]
    {
      rows := map[];
    }

    method EnsureConversation(id: string, title: string, now: nat)
      modifies this
      ensures rows == if id in old(rows) then old(rows) else old(rows)[id := Row(now, false, title)]
      ensures rows == Apply(old(rows), Create(id, title), now)
    {
      if id in rows {
        return;
      }
      rows := rows[id := Row(now, false, title)];
    }

    /** Without a new title or pin this is the status change a run makes at its start and end. */
    method PatchConversation(id: string, title: Option<string>, pinned: Option<bool>, now: nat) returns (found: bool)
      modifies this
      ensures found <==> id in old(rows)
      ensures !found ==> rows == old(rows)
      ensures found ==>
        (var was := old(rows)[id];
         rows == old(rows)[id := Row(now, if pinned.Some? then pinned.value else was.pinned,
                                     if title.Some? then title.value else was.title)])
      ensures rows == (match (title, pinned)
                       case (Some(t), Some(p)) => Apply(Apply(old(rows), Rename(id, t), now), SetPinned(id, p), now)
                       case (Some(t), None) => Apply(old(rows), Rename(id, t), now)
                       case (None, Some(p)) => Apply(old(rows), SetPinned(id, p), now)
                       case (None, None) => Apply(old(rows), Touch(id), now))
    {
      if id !in rows {
        return false;
      }
      var row := rows[id];
      var next := Row(now, if pinned.Some? then pinned.value else row.pinned,
                      if title.Some? then title.value else row.title);
      rows := rows[id := next];
      found := true;
    }

    method HardDeleteConversation(id: string)
      modifies this
      ensures id !in rows && forall other :: other != id ==>
        (other in rows <==> other in old(rows)) && (other in rows ==> rows[other] == old(rows)[other])
      ensures rows == Apply(old(rows), Delete(id), 0)
    {
      rows := rows - {id};
    }
  }

  lemma OtherRowsKept(rows: Table, w: Write, now: nat, id: string)
    requires id != w.id
    ensures id in Apply(rows, w, now) <==> id in rows
    ensures id in rows ==> Apply(rows, w, now)[id] == rows[id]
  {
  }

  /** Under a clock that never runs back, rows only ever move up the order. */
  lemma WritesMoveUp(rows: Table, w: Write, now: nat, id: string)
    requires id in rows && id in Apply(rows, w, now) && rows[id].updatedAt <= now
    ensures rows[id].updatedAt <= Apply(rows, w, now)[id].updatedAt <= now
  {
  }

  // ----- a walk -----

  datatype Step = Fetch(limit: int) | Do(w: Write, now: nat)

  datatype Position = Start | At(cursor: Key) | Done

  datatype Walk = Walk(rows: Table, clock: nat, position: Position, returned: seq<Key>, touched: set<string>)

  ghost function Advance(s: Walk, hit: Filter, step: Step): Walk {
    match step
    case Fetch(limit) =>
      if s.position.Done? then s
      else
        var l := ListConversations(s.rows, hit, limit, if s.position.At? then Some(s.position.cursor) else None);
        s.(position := if l.nextCursor.Some? then At(l.nextCursor.value) else Done,
           returned := s.returned + l.recent)
    case Do(w, now) =>
      s.(rows := Apply(s.rows, w, now), clock := now, touched := s.touched + {w.id})
  }

  ghost predicate ClockRuns(s: Walk, step: Step) {
    step.Do? ==> s.clock <= step.now
  }

  ghost function RunWalk(s: Walk, hit: Filter, steps: seq<Step>): Walk
    decreases |steps|
  {
    if steps == [] then s
    else Advance(RunWalk(s, hit, steps[..|steps| - 1]), hit, steps[|steps| - 1])
  }

  ghost predicate ClockNeverRunsBack(s: Walk, hit: Filter, steps: seq<Step>)
    decreases |steps|
  {
    steps == [] || (
      && ClockNeverRunsBack(s, hit, steps[..|steps| - 1])
      && ClockRuns(RunWalk(s, hit, steps[..|steps| - 1]), steps[|steps| - 1]))
  }

  /** A walk about to fetch its first page. */
  ghost predicate Fresh(s: Walk) {
    s.position == Start && s.returned == [] && s.touched == {}
    && forall id :: id in s.rows ==> s.rows[id].updatedAt <= s.clock
  }

  predicate Passed(position: Position, k: Key) {
    match position
    case Start => false
    case At(cursor) => !Below(k, cursor)
    case Done => true
  }

  ghost predicate Inv(first: Table, hit: Filter, s: Walk) {
    && (forall id :: id in s.rows ==> s.rows[id].updatedAt <= s.clock)
    && (forall i, j :: 0 <= i < j < |s.returned| ==> s.returned[i].id != s.returned[j].id)
    && (forall i :: 0 <= i < |s.returned| ==>
          && s.returned[i].updatedAt <= s.clock
          && Passed(s.position, s.returned[i])
          && (s.returned[i].id in s.rows ==> s.returned[i].updatedAt <= s.rows[s.returned[i].id].updatedAt))
    && (forall id :: id !in s.touched ==> (id in s.rows <==> id in first) && (id in first ==> s.rows[id] == first[id]))
    && (forall id ::
          (id in s.rows && id !in s.touched && Selected(s.rows, id, false, hit)
            && Passed(s.position, KeyOf(s.rows, id)))
          ==> KeyOf(s.rows, id) in s.returned)
    && (s.position.At? ==> s.position.cursor.updatedAt <= s.clock)
  }

  lemma WriteKeepsInv(first: Table, hit: Filter, s: Walk, w: Write, now: nat)
    requires Inv(first, hit, s) && s.clock <= now
    ensures Inv(first, hit, Advance(s, hit, Do(w, now)))
  {
    var t := Advance(s, hit, Do(w, now));
    forall id | id in t.rows ensures t.rows[id].updatedAt <= t.clock {
      if id in s.rows {
        WritesMoveUp(s.rows, w, now, id);
      }
    }
    forall i | 0 <= i < |t.returned| && t.returned[i].id in t.rows
      ensures t.returned[i].updatedAt <= t.rows[t.returned[i].id].updatedAt
    {
      var id := t.returned[i].id;
      if id in s.rows {
        WritesMoveUp(s.rows, w, now, id);
      }
    }
    forall id | id !in t.touched
      ensures (id in t.rows <==> id in first) && (id in first ==> t.rows[id] == first[id])
    {
      OtherRowsKept(s.rows, w, now, id);
    }
    forall id | id in t.rows && id !in t.touched && Selected(t.rows, id, false, hit)
                && Passed(t.position, KeyOf(t.rows, id))
      ensures KeyOf(t.rows, id) in t.returned
    {
      OtherRowsKept(s.rows, w, now, id);
    }
  }

  function CursorOf(p: Position): Option<Key> {
    if p.At? then Some(p.cursor) else None
  }

  /** What one fetch returns, and where it leaves the walk. */
  lemma FetchShape(s: Walk, hit: Filter, limit: int)
    requires !s.position.Done?
    ensures var t := Advance(s, hit, Fetch(limit));
      var c := Candidates(s.rows, false, hit, CursorOf(s.position));
      var page := Page(s.rows, false, hit, CursorOf(s.position), Clamp(limit));
      && t.returned == s.returned + page && Sorted(page)
      && (forall k :: k in page ==> k in c)
      && (forall k :: k in c && Passed(t.position, k) ==> k in page)
      && (t.position.At? ==> page != [] && t.position.cursor == page[|page| - 1])
      && !t.position.Start?
      && (forall k :: k in page ==> Passed(t.position, k))
  {
    hide Candidates, Descending, Below, Sorted;
    var c := Candidates(s.rows, false, hit, CursorOf(s.position));
    var all := Descending(c);
    DescendingShape(c);
    var t := Advance(s, hit, Fetch(limit));
    var page := Page(s.rows, false, hit, CursorOf(s.position), Clamp(limit));
    assert page == all[..|page|];
    PrefixSorted(all, |page|);
    assert forall k :: k in page ==> k in all;
    if t.position.At? {
      forall k | k in c ensures k in page <==> Passed(t.position, k) {
        PrefixIs(all, |page|, k);
      }
    }
  }

  lemma PrefixSorted(all: seq<Key>, n: nat)
    requires Sorted(all) && n <= |all|
    ensures Sorted(all[..n])
  {
    hide Below;
  }

  /** Of a sorted list, the first rows are those not below the last of them. */
  lemma PrefixIs(all: seq<Key>, n: nat, k: Key)
    requires Sorted(all) && 0 < n <= |all| && k in all
    ensures k in all[..n] <==> !Below(k, all[n - 1])
  {
    hide Below;
    var i :| 0 <= i < |all| && all[i] == k;
    BelowTotal(k, k);
    BelowTotal(k, all[n - 1]);
    if i < n {
      assert all[..n][i] == k;
    } else {
      assert forall j :: 0 <= j < n ==> Below(all[i], all[j]);
    }
  }

  lemma CandidateShape(rows: Table, pinned: bool, hit: Filter, cursor: Option<Key>, k: Key)
    requires k in Candidates(rows, pinned, hit, cursor)
    ensures k.id in rows && k == KeyOf(rows, k.id) && Selected(rows, k.id, pinned, hit)
    ensures cursor.Some? ==> Below(k, cursor.value)
  {
  }

  lemma FetchKeepsInv(first: Table, hit: Filter, s: Walk, limit: int)
    requires Inv(first, hit, s)
    ensures Inv(first, hit, Advance(s, hit, Fetch(limit)))
  {
    if s.position.Done? {
      assert Advance(s, hit, Fetch(limit)) == s;
    } else {
      PageKeepsInv(first, hit, s, limit);
    }
  }

  lemma PageKeepsInv(first: Table, hit: Filter, s: Walk, limit: int)
    requires Inv(first, hit, s) && !s.position.Done?
    ensures Inv(first, hit, Advance(s, hit, Fetch(limit)))
  {
    hide Page, Descending, ListConversations, Advance, Below, Candidates, Selected;
    var t := Advance(s, hit, Fetch(limit));
    var c := Candidates(s.rows, false, hit, CursorOf(s.position));
    var page := Page(s.rows, false, hit, CursorOf(s.position), Clamp(limit));
    FetchShape(s, hit, limit);
    FetchKeepsRows(s, hit, limit);
    var n := |s.returned|;
    forall k | k in page
      ensures k in c && k.id in s.rows && k == KeyOf(s.rows, k.id)
      ensures s.position.At? ==> Below(k, s.position.cursor)
    {
      CandidateShape(s.rows, false, hit, CursorOf(s.position), k);
    }
    forall i | n <= i < |t.returned| ensures t.returned[i] == page[i - n] && t.returned[i] in page {
    }
    if t.position.At? {
      assert t.position.cursor in page;
    }
    forall i | 0 <= i < n ensures t.returned[i] == s.returned[i] && Passed(t.position, s.returned[i]) {
      assert Passed(s.position, s.returned[i]);
      if s.position.At? && t.position.At? {
        StillPassed(s.returned[i], s.position.cursor, t.position.cursor);
      }
    }
    forall i, j | 0 <= i < j < |t.returned| ensures t.returned[i].id != t.returned[j].id {
      if n <= i {
        DistinctPage(page, i - n, j - n, s.rows);
      } else if n <= j {
        NotReturnedAgain(s.rows, s.position, s.returned[i], t.returned[j]);
      }
    }
    forall id | id in t.rows && id !in t.touched && Selected(t.rows, id, false, hit)
                && Passed(t.position, KeyOf(t.rows, id))
      ensures KeyOf(t.rows, id) in t.returned
    {
      var k := KeyOf(t.rows, id);
      if !Passed(s.position, k) {
        IsCandidate(s, hit, id);
        assert k in page;
      }
    }
  }

  lemma IsCandidate(s: Walk, hit: Filter, id: string)
    requires !s.position.Done? && Selected(s.rows, id, false, hit) && !Passed(s.position, KeyOf(s.rows, id))
    ensures KeyOf(s.rows, id) in Candidates(s.rows, false, hit, CursorOf(s.position))
  {
  }

  lemma FetchKeepsRows(s: Walk, hit: Filter, limit: int)
    ensures var t := Advance(s, hit, Fetch(limit)); t.rows == s.rows && t.clock == s.clock && t.touched == s.touched
  {
  }

  lemma StillPassed(k: Key, old': Key, next: Key)
    requires !Below(k, old') && Below(next, old')
    ensures !Below(k, next)
  {
    if Below(k, next) {
      BelowTransitive(k, next, old');
    }
  }

  lemma DistinctPage(page: seq<Key>, i: nat, j: nat, rows: Table)
    requires i < j < |page| && Sorted(page)
    requires forall k :: k in page ==> k.id in rows && k == KeyOf(rows, k.id)
    ensures page[i].id != page[j].id
  {
    assert page[i] in page && page[j] in page;
    BelowTotal(page[i], page[i]);
  }

  lemma NotReturnedAgain(rows: Table, p: Position, earlier: Key, k: Key)
    requires Passed(p, earlier) && p.At? && Below(k, p.cursor)
    requires k.id in rows && k == KeyOf(rows, k.id)
    requires earlier.id in rows ==> earlier.updatedAt <= rows[earlier.id].updatedAt
    ensures earlier.id != k.id
  {
    if earlier.id == k.id {
      if earlier.updatedAt < k.updatedAt {
        BelowTransitive(earlier, k, p.cursor);
      }
      assert false;
    }
  }

  lemma {:induction false} RunKeepsInv(s: Walk, hit: Filter, steps: seq<Step>)
    requires Fresh(s) && ClockNeverRunsBack(s, hit, steps)
    ensures Inv(s.rows, hit, RunWalk(s, hit, steps))
    decreases |steps|
  {
    if steps != [] {
      var n := |steps| - 1;
      RunKeepsInv(s, hit, steps[..n]);
      var before := RunWalk(s, hit, steps[..n]);
      match steps[n]
      case Fetch(limit) => FetchKeepsInv(s.rows, hit, before, limit);
      case Do(w, now) => WriteKeepsInv(s.rows, hit, before, w, now);
    }
  }

  /** No conversation appears twice on the keyset pages, whatever is written between them. */
  lemma NeverTwice(s: Walk, hit: Filter, steps: seq<Step>)
    requires Fresh(s) && ClockNeverRunsBack(s, hit, steps)
    ensures var r := RunWalk(s, hit, steps).returned;
      forall i, j :: 0 <= i < j < |r| ==> r[i].id != r[j].id
  {
    RunKeepsInv(s, hit, steps);
  }

  /** When the walk ends, every matching row nobody touched has been returned, and just once. */
  lemma UntouchedExactlyOnce(s: Walk, hit: Filter, steps: seq<Step>, id: string)
    requires Fresh(s) && ClockNeverRunsBack(s, hit, steps)
    requires RunWalk(s, hit, steps).position == Done && id !in RunWalk(s, hit, steps).touched
    requires Selected(s.rows, id, false, hit)
    ensures var r := RunWalk(s, hit, steps).returned;
      exists i :: 0 <= i < |r| && r[i] == KeyOf(s.rows, id) && forall j :: 0 <= j < |r| && j != i ==> r[j].id != id
  {
    RunKeepsInv(s, hit, steps);
    NeverTwice(s, hit, steps);
    var t := RunWalk(s, hit, steps);
    hide Advance, Below, RunWalk, ClockNeverRunsBack;
    assert t.rows[id] == s.rows[id];
    assert KeyOf(t.rows, id) in t.returned;
    var i :| 0 <= i < |t.returned| && t.returned[i] == KeyOf(s.rows, id);
    OnlyAt(t.returned, i);
  }

  lemma OnlyAt(r: seq<Key>, i: nat)
    requires i < |r| && forall x, y :: 0 <= x < y < |r| ==> r[x].id != r[y].id
    ensures forall j :: 0 <= j < |r| && j != i ==> r[j].id != r[i].id
  {
  }

  // ----- the walk ends -----

  function Remaining(s: Walk, hit: Filter): set<Key> {
    if s.position.Done? then {} else Candidates(s.rows, false, hit, CursorOf(s.position))
  }

  /** A fetch that does not end the walk uses up at least one row below the cursor. */
  lemma FetchUsesUp(s: Walk, hit: Filter, limit: int)
    requires !s.position.Done?
    ensures var t := Advance(s, hit, Fetch(limit));
      t.position.Done? || |Remaining(t, hit)| < |Remaining(s, hit)|
  {
    var t := Advance(s, hit, Fetch(limit));
    hide Page, Descending, ListConversations, Advance, Below;
    FetchShape(s, hit, limit);
    FetchKeepsRows(s, hit, limit);
    if t.position.At? {
      var page := Page(s.rows, false, hit, CursorOf(s.position), Clamp(limit));
      var last := page[|page| - 1];
      assert last in page;
      BelowTotal(last, last);
      forall k | k in Remaining(t, hit) ensures k in Remaining(s, hit) {
        if s.position.At? {
          BelowTransitive(k, last, s.position.cursor);
        }
      }
      assert last in Remaining(s, hit) && last !in Remaining(t, hit);
      Shrinks(Remaining(t, hit), Remaining(s, hit), last);
    }
  }

  lemma Shrinks<T>(a: set<T>, b: set<T>, x: T)
    requires a <= b && x in b && x !in a
    ensures |a| < |b|
  {
    SubsetSize(a, b - {x});
  }

  lemma {:induction false} SubsetSize<T>(a: set<T>, b: set<T>)
    requires a <= b
    ensures |a| <= |b|
    decreases |a|
  {
    if a != {} {
      var x :| x in a;
      SubsetSize(a - {x}, b - {x});
    }
  }

  /** A stamped row lands below the cursor only in the cursor's own millisecond and with a smaller id. */
  lemma StampedBelowIff(cursor: Key, id: string, now: nat)
    requires cursor.updatedAt <= now
    ensures Below(Key(now, id), cursor) <==> now == cursor.updatedAt && Before(id, cursor.id)
  {
  }

  lemma WriteAddsNothing(s: Walk, hit: Filter, w: Write, now: nat)
    requires s.position.At? && s.position.cursor.updatedAt < now
    ensures |Remaining(Advance(s, hit, Do(w, now)), hit)| <= |Remaining(s, hit)|
  {
    var t := Advance(s, hit, Do(w, now));
    forall k | k in Remaining(t, hit) ensures k in Remaining(s, hit) {
      var id :| id in t.rows && Selected(t.rows, id, false, hit) && KeyOf(t.rows, id) == k;
      if id != w.id {
        OtherRowsKept(s.rows, w, now, id);
      } else {
        StampedBelowIff(s.position.cursor, id, now);
      }
    }
    SubsetSize(Remaining(t, hit), Remaining(s, hit));
  }

  function Fetches(steps: seq<Step>): nat
    decreases |steps|
  {
    if steps == [] then 0
    else Fetches(steps[..|steps| - 1]) + if steps[|steps| - 1].Fetch? then 1 else 0
  }

  /** Past the cursor's own millisecond a walk ends within as many fetches as rows are left, plus one. */
  lemma {:induction false} WalkEnds(s: Walk, hit: Filter, steps: seq<Step>)
    requires s.position.At? && s.position.cursor.updatedAt < s.clock && ClockNeverRunsBack(s, hit, steps)
    ensures var t := RunWalk(s, hit, steps);
      && (t.position.Done? || (
            && t.position.At? && t.position.cursor.updatedAt < t.clock
            && |Remaining(t, hit)| + Fetches(steps) <= |Remaining(s, hit)|))
      && (Fetches(steps) > |Remaining(s, hit)| ==> t.position.Done?)
    decreases |steps|
  {
    hide Remaining, ListConversations, Page;
    if steps != [] {
      var n := |steps| - 1;
      WalkEnds(s, hit, steps[..n]);
      var before := RunWalk(s, hit, steps[..n]);
      if !before.position.Done? {
        match steps[n]
        case Fetch(limit) =>
          FetchUsesUp(before, hit, limit);
          CursorFalls(before, hit, limit);
        case Do(w, now) =>
          WriteAddsNothing(before, hit, w, now);
      }
    }
  }

  lemma CursorFalls(s: Walk, hit: Filter, limit: int)
    requires s.position.At?
    ensures var t := Advance(s, hit, Fetch(limit));
      t.clock == s.clock
        && (t.position.Done? || (t.position.At? && t.position.cursor.updatedAt <= s.position.cursor.updatedAt))
  {
    hide Page, Descending, ListConversations, Advance;
    FetchShape(s, hit, limit);
    FetchKeepsRows(s, hit, limit);
    var t := Advance(s, hit, Fetch(limit));
    if t.position.At? {
      var page := Page(s.rows, false, hit, CursorOf(s.position), Clamp(limit));
      assert page[|page| - 1] in page;
    }
  }

  // ----- within the cursor's own millisecond -----

  const NEW_CHAT := "New chat"

  /** Ever earlier ids: b, ab, aab, ... */
  function Name(k: nat): string {
    if k == 0 then "b" else ['a'] + Name(k - 1)
  }

  lemma {:induction false} NameOrder(i: nat, j: nat)
    requires i < j
    ensures Before(Name(j), Name(i)) && Name(i) != Name(j) && !Before(Name(i), Name(j))
  {
    if i > 0 {
      NameOrder(i - 1, j - 1);
      assert Name(j)[1..] == Name(j - 1) && Name(i)[1..] == Name(i - 1);
    }
    BeforeTotal(Name(i), Name(j));
  }

  /** Conversations created in one millisecond under the first `k` names and one more. */
  function Burst(k: nat, now: nat): Table {
    if k == 0 then map[Name(0) := Row(now, false, NEW_CHAT)]
    else Burst(k - 1, now)[Name(k) := Row(now, false, NEW_CHAT)]
  }

  ghost predicate NamedUpTo(id: string, k: int) {
    exists j :: 0 <= j <= k && id == Name(j)
  }

  lemma {:induction false} BurstRows(k: nat, now: nat, id: string)
    ensures id in Burst(k, now) <==> NamedUpTo(id, k)
    ensures id in Burst(k, now) ==> Burst(k, now)[id] == Row(now, false, NEW_CHAT)
  {
    hide Name;
    if k > 0 {
      BurstRows(k - 1, now, id);
      if NamedUpTo(id, k) {
        var j :| 0 <= j <= k && id == Name(j);
        assert j < k ==> NamedUpTo(id, k - 1);
      }
    }
    assert id == Name(k) ==> NamedUpTo(id, k);
  }

  /** Of a burst, only its newest row lies below the one before it. */
  lemma BelowInBurst(k: nat, now: nat, hit: Filter, cursor: Option<Key>)
    requires hit(NEW_CHAT) && cursor == if k == 0 then None else Some(Key(now, Name(k - 1)))
    ensures Candidates(Burst(k, now), false, hit, cursor) == {Key(now, Name(k))}
  {
    hide Name, Burst, Before;
    var c := Candidates(Burst(k, now), false, hit, cursor);
    BurstRows(k, now, Name(k));
    assert NamedUpTo(Name(k), k);
    if k > 0 {
      NameOrder(k - 1, k);
    }
    forall x | x in c ensures x == Key(now, Name(k)) {
      BurstRows(k, now, x.id);
      var j :| 0 <= j <= k && x.id == Name(j);
      if j < k - 1 {
        NameOrder(j, k - 1);
      } else if j == k - 1 {
        BeforeTotal(Name(j), Name(j));
      }
    }
    assert KeyOf(Burst(k, now), Name(k)) == Key(now, Name(k));
    assert Selected(Burst(k, now), Name(k), false, hit);
    assert Key(now, Name(k)) in c;
  }

  lemma OneKey(k: Key)
    ensures Descending({k}) == [k]
  {
    var m := DescendingStep({k});
    assert m == k && {k} - {m} == {};
    NoKeys();
  }

  /** `n` fetches of one row, a conversation created before each fetch after the first. */
  function BusySteps(n: nat, now: nat): seq<Step> {
    if n == 0 then []
    else if n == 1 then [Fetch(1)]
    else BusySteps(n - 1, now) + [Do(Create(Name(n - 1), NEW_CHAT), now)] + [Fetch(1)]
  }

  function BusyStart(now: nat): Walk {
    Walk(Burst(0, now), now, Start, [], {})
  }

  /** A fetch of one row finds the newest conversation of the burst and stops on it. */
  lemma BusyFetch(s: Walk, k: nat, now: nat, hit: Filter)
    requires hit(NEW_CHAT) && s.rows == Burst(k, now) && s.clock == now
    requires s.position == if k == 0 then Start else At(Key(now, Name(k - 1)))
    ensures var t := Advance(s, hit, Fetch(1));
      t.rows == s.rows && t.clock == now && t.position == At(Key(now, Name(k)))
  {
    hide Candidates, Descending, Name, Burst;
    BelowInBurst(k, now, hit, CursorOf(s.position));
    OneKey(Key(now, Name(k)));
  }

  lemma RunMore(s: Walk, hit: Filter, steps: seq<Step>, step: Step)
    ensures RunWalk(s, hit, steps + [step]) == Advance(RunWalk(s, hit, steps), hit, step)
    ensures ClockNeverRunsBack(s, hit, steps + [step])
      <==> ClockNeverRunsBack(s, hit, steps) && ClockRuns(RunWalk(s, hit, steps), step)
    ensures Fetches(steps + [step]) == Fetches(steps) + if step.Fetch? then 1 else 0
  {
    hide Advance, ClockRuns;
    assert (steps + [step])[..|steps|] == steps;
  }

  lemma {:induction false} BusyWalk(n: nat, now: nat, hit: Filter)
    requires n > 0 && hit(NEW_CHAT)
    ensures var t := RunWalk(BusyStart(now), hit, BusySteps(n, now));
      && ClockNeverRunsBack(BusyStart(now), hit, BusySteps(n, now)) && Fetches(BusySteps(n, now)) == n
      && t.rows == Burst(n - 1, now) && t.clock == now && t.position == At(Key(now, Name(n - 1)))
  {
    hide Name, Advance;
    var s := BusyStart(now);
    if n == 1 {
      BusyFetch(s, 0, now, hit);
      RunMore(s, hit, [], Fetch(1));
      assert [] + [Fetch(1)] == [Fetch(1)];
    } else {
      BusyWalk(n - 1, now, hit);
      var steps, create := BusySteps(n - 1, now), Do(Create(Name(n - 1), NEW_CHAT), now);
      var before := RunWalk(s, hit, steps);
      BurstGrows(before, n - 1, now, hit);
      RunMore(s, hit, steps, create);
      RunMore(s, hit, steps + [create], Fetch(1));
      BusyFetch(Advance(before, hit, create), n - 1, now, hit);
    }
  }

  lemma BurstGrows(s: Walk, k: nat, now: nat, hit: Filter)
    requires k > 0 && s.rows == Burst(k - 1, now)
    ensures var t := Advance(s, hit, Do(Create(Name(k), NEW_CHAT), now));
      t.rows == Burst(k, now) && t.clock == now && t.position == s.position
  {
    hide Name;
    BurstRows(k - 1, now, Name(k));
    if Name(k) in s.rows {
      var j :| 0 <= j <= k - 1 && Name(k) == Name(j);
      NameOrder(j, k);
    }
  }

  /** The bound needs the clock to move on: within the cursor's millisecond some walk makes any number of fetches. */
  lemma NoEndWithinAMillisecond(n: nat, now: nat, hit: Filter)
    requires n > 0 && hit(NEW_CHAT)
    ensures var s, steps := BusyStart(now), BusySteps(n, now); var t := RunWalk(s, hit, steps);
      && Fresh(s) && ClockNeverRunsBack(s, hit, steps) && Fetches(steps) == n
      && t.position.At? && t.position.cursor.updatedAt == t.clock
  {
    BusyWalk(n, now, hit);
  }

  /** In such a walk a conversation created next adds to the rows left below the cursor. */
  lemma SameInstantGrows(n: nat, now: nat, hit: Filter)
    requires n > 0 && hit(NEW_CHAT)
    ensures var s := RunWalk(BusyStart(now), hit, BusySteps(n, now));
      var w := Do(Create(Name(n), NEW_CHAT), now);
      ClockRuns(s, w) && |Remaining(Advance(s, hit, w), hit)| > |Remaining(s, hit)|
  {
    hide Name, Advance, Burst, Candidates, Below;
    BusyWalk(n, now, hit);
    var s := RunWalk(BusyStart(now), hit, BusySteps(n, now));
    BurstGrows(s, n, now, hit);
    BelowInBurst(n, now, hit, CursorOf(s.position));
    NothingBelowLast(n - 1, now, hit);
  }

  lemma NothingBelowLast(k: nat, now: nat, hit: Filter)
    ensures Candidates(Burst(k, now), false, hit, Some(Key(now, Name(k)))) == {}
  {
    hide Name, Burst, Before;
    forall x | x in Candidates(Burst(k, now), false, hit, Some(Key(now, Name(k)))) ensures false {
      BurstRows(k, now, x.id);
      var j :| 0 <= j <= k && x.id == Name(j);
      BeforeTotal(Name(j), Name(j));
      if j < k {
        NameOrder(j, k);
      }
    }
  }

  // ----- nobody writes -----

  /** With no writes the pages, put together, are the sorted list as far as the walk has come. */
  lemma {:induction false} QuietWalk(s: Walk, hit: Filter, steps: seq<Step>)
    requires s.position == Start && s.returned == [] && forall i :: 0 <= i < |steps| ==> steps[i].Fetch?
    ensures var t := RunWalk(s, hit, steps);
      && t.rows == s.rows
      && t.returned + Descending(Remaining(t, hit)) == Descending(Candidates(s.rows, false, hit, None))
      && (t.position.Done? ==> t.returned == Descending(Candidates(s.rows, false, hit, None)))
    decreases |steps|
  {
    var all := Descending(Candidates(s.rows, false, hit, None));
    if steps == [] {
      assert [] + all == all;
    } else {
      var n := |steps| - 1;
      QuietWalk(s, hit, steps[..n]);
      var before := RunWalk(s, hit, steps[..n]);
      var t := RunWalk(s, hit, steps);
      if before.position.Done? {
        assert t == before;
      } else {
        QuietFetch(before, hit, steps[n].limit);
      }
      if t.position.Done? {
        assert Descending({}) == [];
        assert t.returned + [] == t.returned;
      }
    }
  }

  lemma QuietFetch(s: Walk, hit: Filter, limit: int)
    requires !s.position.Done?
    ensures var t := Advance(s, hit, Fetch(limit));
      && t.rows == s.rows
      && t.returned + Descending(Remaining(t, hit)) == s.returned + Descending(Remaining(s, hit))
  {
    var t := Advance(s, hit, Fetch(limit));
    var c := Candidates(s.rows, false, hit, CursorOf(s.position));
    var page := Page(s.rows, false, hit, CursorOf(s.position), Clamp(limit));
    FetchKeepsRows(s, hit, limit);
    PageIsPrefix(s, hit, limit);
    if t.position.At? {
      hide Page, Descending, ListConversations, Advance, Below;
      RemainingBelow(s, hit, limit);
      Seqs.Assoc(s.returned, page, Descending(Remaining(t, hit)));
    } else {
      NoKeys();
      assert t.returned + [] == s.returned + Descending(c);
    }
  }

  lemma NoKeys()
    ensures Descending({}) == []
  {
  }

  lemma PageIsPrefix(s: Walk, hit: Filter, limit: int)
    requires !s.position.Done?
    ensures var t := Advance(s, hit, Fetch(limit));
      var page := Page(s.rows, false, hit, CursorOf(s.position), Clamp(limit));
      var all := Descending(Candidates(s.rows, false, hit, CursorOf(s.position)));
      && t.returned == s.returned + page && !t.position.Start?
      && (t.position.At? ==> 0 < |page| <= |all| && page == all[..|page|] && t.position.cursor == all[|page| - 1])
      && (t.position.Done? ==> page == all)
  {
    hide Descending, Candidates;
  }

  lemma RemainingBelow(s: Walk, hit: Filter, limit: int)
    requires !s.position.Done? && Advance(s, hit, Fetch(limit)).position.At?
    ensures var t := Advance(s, hit, Fetch(limit));
      var page := Page(s.rows, false, hit, CursorOf(s.position), Clamp(limit));
      Descending(Candidates(s.rows, false, hit, CursorOf(s.position))) == page + Descending(Remaining(t, hit))
  {
    hide Page, Descending, ListConversations, Advance, Below;
    var t := Advance(s, hit, Fetch(limit));
    var c := Candidates(s.rows, false, hit, CursorOf(s.position));
    PageIsPrefix(s, hit, limit);
    FetchKeepsRows(s, hit, limit);
    var all, n := Descending(c), |Page(s.rows, false, hit, CursorOf(s.position), Clamp(limit))|;
    DescendingShape(c);
    DescendingSuffix(c, n);
    var last := all[n - 1];
    assert last in all && last in c;
    var below := BelowIn(c, last);
    forall k | k in Remaining(t, hit) ensures k in below {
      if s.position.At? {
        BelowTransitive(k, last, s.position.cursor);
      }
    }
    assert Remaining(t, hit) == below;
    assert all == all[..n] + all[n..];
  }
}
