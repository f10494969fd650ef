/**
 * What a client draws: the active path through the stored rows, and the rendered messages with each prompt
 * shown once and its answers labelled as variants of each other.
 */
module Messages {
  import opened Text
  import opened Projection

  // ----- the active path -----

  function AllIds(entries: seq<Entry>): (ids: seq<string>)
    ensures |ids| == |entries| && forall i :: 0 <= i < |ids| ==> ids[i] == entries[i].id
  {
    seq(|entries|, i requires 0 <= i < |entries| => entries[i].id)
  }

  function ParentOf(entries: seq<Entry>, id: string): Option<string>
    requires id in Ids(entries)
  {
    entries[IndexOfId(entries, id)].parent
  }

  /** Parent by parent up from the leaf, written root first, until the chain ends, leaves the table or cycles. */
  predicate IsChain(entries: seq<Entry>, path: seq<string>) {
    && (forall i :: 0 <= i < |path| ==> path[i] in Ids(entries))
    && (forall i, j :: 0 <= i < j < |path| ==> path[i] != path[j])
    && (forall i :: 0 < i < |path| ==>
         Truthy(ParentOf(entries, path[i])) && ParentOf(entries, path[i]).value == path[i - 1])
  }

  predicate ChainEnds(entries: seq<Entry>, path: seq<string>)
    requires |path| > 0 && path[0] in Ids(entries)
  {
    var parent := ParentOf(entries, path[0]);
    !Truthy(parent) || parent.value !in Ids(entries) || parent.value in path
  }

  predicate IsActivePath(entries: seq<Entry>, leaf: Option<string>, path: seq<string>) {
    if !Truthy(leaf) || leaf.value !in Ids(entries) then path == AllIds(entries)
    else IsChain(entries, path) && |path| > 0 && path[|path| - 1] == leaf.value && ChainEnds(entries, path)
  }

  function Reversed(s: seq<string>): (r: seq<string>)
    ensures |r| == |s| && forall i :: 0 <= i < |s| ==> r[i] == s[|s| - 1 - i]
  {
    seq(|s|, i requires 0 <= i < |s| => s[|s| - 1 - i])
  }

  method BuildActivePathEntryIds(entries: seq<Entry>, leaf: Option<string>) returns (ids: seq<string>)
    requires DistinctIds(entries)
    ensures IsActivePath(entries, leaf, ids)
  {
    hide Ids;
    if !Truthy(leaf) {
      return AllIds(entries);
    }
    var path: seq<string> := [];
    var seen: set<string> := {};
    var cursor := leaf;
    while Truthy(cursor) && cursor.value !in seen
      invariant seen <= Ids(entries)
      invariant forall id :: id in seen <==> id in path
      invariant IsChain(entries, Reversed(path))
      invariant if path == [] then cursor == leaf
                else path[0] == leaf.value && cursor == ParentOf(entries, path[|path| - 1])
      decreases Ids(entries) - seen
    {
      var id := cursor.value;
      if id !in Ids(entries) {
        break;
      }
      ghost var before := path;
      path, seen := path + [id], seen + {id};
      cursor := ParentOf(entries, id);
      ChainGrows(entries, before, id);
    }
    ids := if |path| > 0 then Reversed(path) else AllIds(entries);
    if |path| > 0 {
      assert forall i :: 0 <= i < |path| ==> Reversed(path)[|path| - 1 - i] == path[i];
    }
  }

  lemma ChainGrows(entries: seq<Entry>, path: seq<string>, id: string)
    requires IsChain(entries, Reversed(path)) && id in Ids(entries) && id !in path
    requires path != [] ==> path[|path| - 1] in Ids(entries) && Truthy(ParentOf(entries, path[|path| - 1]))
                            && ParentOf(entries, path[|path| - 1]).value == id
    ensures IsChain(entries, Reversed(path + [id]))
  {
    hide Ids, ParentOf;
    var r := Reversed(path + [id]);
    assert r[0] == id;
    assert forall i :: 0 < i < |r| ==> r[i] == Reversed(path)[i - 1];
  }

  /** The conditions leave no choice: there is one active path. */
  lemma ActivePathUnique(entries: seq<Entry>, leaf: Option<string>, p: seq<string>, q: seq<string>)
    requires IsActivePath(entries, leaf, p) && IsActivePath(entries, leaf, q)
    ensures p == q
  {
    hide Ids, ParentOf, AllIds;
    if Truthy(leaf) && leaf.value in Ids(entries) {
      if |p| <= |q| {
        NotLonger(entries, p, q);
      } else {
        NotLonger(entries, q, p);
      }
    }
  }

  lemma NotLonger(entries: seq<Entry>, p: seq<string>, q: seq<string>)
    requires 0 < |p| <= |q| && IsChain(entries, p) && IsChain(entries, q)
    requires p[|p| - 1] == q[|q| - 1] && ChainEnds(entries, p)
    ensures p == q
  {
    hide Ids, ParentOf;
    SameSuffix(entries, p, q, |p| - 1);
    if |p| < |q| {
      OneMoreAbove(entries, p, q);
    }
  }

  lemma OneMoreAbove(entries: seq<Entry>, p: seq<string>, q: seq<string>)
    requires 0 < |p| < |q| && IsChain(entries, p) && IsChain(entries, q)
    requires forall i :: 0 <= i < |p| ==> p[i] == q[|q| - |p| + i]
    ensures !ChainEnds(entries, p)
  {
    hide Ids, ParentOf;
    var d := |q| - |p|;
    assert p[0] == q[d] && Truthy(ParentOf(entries, q[d])) && ParentOf(entries, q[d]).value == q[d - 1];
    assert q[d - 1] !in p;
  }

  lemma {:induction false} SameSuffix(entries: seq<Entry>, p: seq<string>, q: seq<string>, k: nat)
    requires 0 < |p| <= |q| && k < |p| && IsChain(entries, p) && IsChain(entries, q)
    requires p[|p| - 1] == q[|q| - 1]
    ensures forall i :: |p| - 1 - k <= i < |p| ==> p[i] == q[|q| - |p| + i]
  {
    hide Ids, ParentOf;
    if k > 0 {
      SameSuffix(entries, p, q, k - 1);
      var i := |p| - k;
      assert p[i] == q[|q| - |p| + i];
    }
  }

  // ----- the rendered messages -----

  datatype Attachment = Attachment(entry: Option<string>, name: string)

  datatype Label = Label(index: nat, count: nat)

  datatype Rendered = Rendered(id: string, role: Role, content: string, createdAt: nat, parent: Option<string>,
                               details: Details, regenerates: Option<string>, group: Option<string>,
                               attachments: Option<seq<Attachment>>, variantLabel: Option<Label>)

  function AttachmentsOf(attachments: seq<Attachment>, id: string): seq<Attachment> {
    if attachments == [] then []
    else
      var n := |attachments| - 1;
      AttachmentsOf(attachments[..n], id)
      + if Truthy(attachments[n].entry) && attachments[n].entry.value == id then [attachments[n]] else []
  }

  method AttachmentsByEntry(attachments: seq<Attachment>) returns (byEntry: map<string, seq<Attachment>>)
    ensures forall id :: id in byEntry <==> AttachmentsOf(attachments, id) != []
    ensures forall id :: id in byEntry ==> byEntry[id] == AttachmentsOf(attachments, id)
  {
    byEntry := map[];
    for i := 0 to |attachments|
      invariant forall id :: id in byEntry <==> AttachmentsOf(attachments[..i], id) != []
      invariant forall id :: id in byEntry ==> byEntry[id] == AttachmentsOf(attachments[..i], id)
    {
      assert attachments[..i + 1][..i] == attachments[..i];
      var a := attachments[i];
      if Truthy(a.entry) {
        var list := if a.entry.value in byEntry then byEntry[a.entry.value] else [];
        byEntry := byEntry[a.entry.value := list + [a]];
      }
    }
    assert attachments[..|attachments|] == attachments;
  }

  predicate IsMessage(e: Entry) {
    e.entryType == "message" && e.role.Some?
  }

  function Render(e: Entry, attachments: seq<Attachment>): Rendered
    requires IsMessage(e)
  {
    var list := AttachmentsOf(attachments, e.id);
    Rendered(e.id, e.role.value, e.text, e.createdAt, e.parent, e.details.(attachments := None), e.regenerates, e.group,
             if list == [] then None else Some(list), None)
  }

  function AllMessages(entries: seq<Entry>, attachments: seq<Attachment>): (messages: seq<Rendered>)
    ensures forall m :: m in messages <==> exists e :: e in entries && IsMessage(e) && m == Render(e, attachments)
    ensures forall m :: m in messages ==> m.variantLabel.None?
  {
    if entries == [] then []
    else
      var n := |entries| - 1;
      assert entries == entries[..n] + [entries[n]];
      AllMessages(entries[..n], attachments) + if IsMessage(entries[n]) then [Render(entries[n], attachments)] else []
  }

  /** A prompt a regenerate wrote again on its own branch. */
  predicate Replayed(messages: seq<Rendered>, id: string) {
    exists m :: m in messages && m.role == Assistant && Truthy(m.regenerates) && m.parent == Some(id)
  }

  predicate Blank(m: Rendered, calls: Option<string> -> nat) {
    && Trim(m.content) == "" && calls(m.details.toolCalls) == 0
    && (m.details.reasoning.Some? ==> Trim(m.details.reasoning.value) == "")
  }

  predicate Shown(m: Rendered, messages: seq<Rendered>, calls: Option<string> -> nat) {
    && !(m.role == User && Replayed(messages, m.id))
    && !(m.role == Assistant && Blank(m, calls))
  }

  function Visible(list: seq<Rendered>, messages: seq<Rendered>, calls: Option<string> -> nat): (r: seq<Rendered>)
    ensures forall m :: m in r <==> m in list && Shown(m, messages, calls)
  {
    if list == [] then []
    else
      var n := |list| - 1;
      assert list == list[..n] + [list[n]];
      Visible(list[..n], messages, calls) + if Shown(list[n], messages, calls) then [list[n]] else []
  }

  // ----- variants -----

  function GroupId(m: Rendered): string {
    if m.group.Some? then m.group.value else if m.regenerates.Some? then m.regenerates.value else m.id
  }

  predicate InVariants(m: Rendered, group: string) {
    m.role == Assistant && GroupId(m) == group
  }

  /** The answers of a group among the first `n` messages, in order of appearance. */
  function Members(messages: seq<Rendered>, group: string, n: nat): (r: seq<nat>)
    requires n <= |messages|
    ensures forall k :: 0 <= k < |r| ==> r[k] < n && InVariants(messages[r[k]], group)
    ensures forall i: nat :: i < n && InVariants(messages[i], group) ==> i in r
    ensures forall a, b :: 0 <= a < b < |r| ==> r[a] < r[b]
  {
    if n == 0 then []
    else Members(messages, group, n - 1) + if InVariants(messages[n - 1], group) then [n - 1] else []
  }

  predicate Earlier(messages: seq<Rendered>, i: nat, j: nat)
    requires i < |messages| && j < |messages|
  {
    messages[i].createdAt < messages[j].createdAt || (messages[i].createdAt == messages[j].createdAt && i < j)
  }

  predicate Indices(messages: seq<Rendered>, s: seq<nat>) {
    forall k :: 0 <= k < |s| ==> s[k] < |messages|
  }

  function CountEarlier(messages: seq<Rendered>, s: seq<nat>, i: nat): (n: nat)
    requires i < |messages| && Indices(messages, s)
    ensures n <= |s|
  {
    if s == [] then 0
    else CountEarlier(messages, s[..|s| - 1], i) + if Earlier(messages, s[|s| - 1], i) then 1 else 0
  }

  /** `variant k/n`: how many of the group came before, plus one, out of how many there are. */
  function LabelOf(messages: seq<Rendered>, i: nat): Option<Label>
    requires i < |messages|
  {
    var group := Members(messages, GroupId(messages[i]), |messages|);
    if messages[i].role != Assistant || |group| < 2 then None
    else Some(Label(CountEarlier(messages, group, i) + 1, |group|))
  }

  predicate SortedByTime(messages: seq<Rendered>, s: seq<nat>) {
    Indices(messages, s) && forall a, b :: 0 <= a < b < |s| ==> Earlier(messages, s[a], s[b])
  }

  function InsertByTime(messages: seq<Rendered>, x: nat, s: seq<nat>): (r: seq<nat>)
    requires x < |messages| && Indices(messages, s)
    ensures multiset(r) == multiset(s) + multiset{x} && Indices(messages, r) && |r| == |s| + 1
  {
    if s == [] then [x]
    else
      var n := |s| - 1;
      assert s == s[..n] + [s[n]];
      if messages[x].createdAt < messages[s[n]].createdAt then InsertByTime(messages, x, s[..n]) + [s[n]] else s + [x]
  }

  /** The stable sort by creation time. */
  function SortByTime(messages: seq<Rendered>, s: seq<nat>): (r: seq<nat>)
    requires Indices(messages, s)
    ensures multiset(r) == multiset(s) && Indices(messages, r) && |r| == |s|
  {
    if s == [] then []
    else
      var n := |s| - 1;
      assert s == s[..n] + [s[n]];
      InsertByTime(messages, s[n], SortByTime(messages, s[..n]))
  }

  lemma {:induction false} InsertCounts(messages: seq<Rendered>, x: nat, s: seq<nat>, i: nat)
    requires x < |messages| && i < |messages| && Indices(messages, s)
    ensures CountEarlier(messages, InsertByTime(messages, x, s), i)
      == CountEarlier(messages, s, i) + if Earlier(messages, x, i) then 1 else 0
  {
    if s != [] {
      var n := |s| - 1;
      InsertCounts(messages, x, s[..n], i);
      var r := InsertByTime(messages, x, s[..n]);
      assert (r + [s[n]])[..|r|] == r && (s + [x])[..|s|] == s;
    }
  }

  lemma {:induction false} SortCounts(messages: seq<Rendered>, s: seq<nat>, i: nat)
    requires i < |messages| && Indices(messages, s)
    ensures CountEarlier(messages, SortByTime(messages, s), i) == CountEarlier(messages, s, i)
  {
    hide Earlier;
    if s != [] {
      var n := |s| - 1;
      SortCounts(messages, s[..n], i);
      InsertCounts(messages, s[n], SortByTime(messages, s[..n]), i);
    }
  }

  lemma {:induction false} InsertSorted(messages: seq<Rendered>, x: nat, s: seq<nat>)
    requires x < |messages| && SortedByTime(messages, s) && forall k :: 0 <= k < |s| ==> s[k] < x
    ensures SortedByTime(messages, InsertByTime(messages, x, s))
  {
    if s != [] {
      var n := |s| - 1;
      assert s == s[..n] + [s[n]];
      if messages[x].createdAt < messages[s[n]].createdAt {
        InsertSorted(messages, x, s[..n]);
        var r := InsertByTime(messages, x, s[..n]);
        forall k | 0 <= k < |r| ensures Earlier(messages, r[k], s[n]) {
          assert r[k] in multiset(r);
          assert r[k] == x || r[k] in multiset(s[..n]);
        }
      }
    }
  }

  lemma {:induction false} SortSorts(messages: seq<Rendered>, s: seq<nat>)
    requires Indices(messages, s) && forall a, b :: 0 <= a < b < |s| ==> s[a] < s[b]
    ensures SortedByTime(messages, SortByTime(messages, s))
  {
    hide Earlier;
    if s != [] {
      var n := |s| - 1;
      var r := SortByTime(messages, s[..n]);
      SortSorts(messages, s[..n]);
      forall k | 0 <= k < |r| ensures r[k] < s[n] {
        assert r[k] in multiset(r) && r[k] in multiset(s[..n]);
      }
      InsertSorted(messages, s[n], r);
    }
  }

  lemma {:induction false} CountInPrefix(messages: seq<Rendered>, s: seq<nat>, n: nat, i: nat)
    requires Indices(messages, s) && n <= |s| && i < |messages|
    requires forall k :: 0 <= k < n ==> Earlier(messages, s[k], i)
    requires forall k :: n <= k < |s| ==> !Earlier(messages, s[k], i)
    ensures CountEarlier(messages, s, i) == n
  {
    hide Earlier;
    if s != [] {
      var m := |s| - 1;
      if n == |s| {
        CountInPrefix(messages, s[..m], m, i);
      } else {
        CountInPrefix(messages, s[..m], n, i);
      }
    }
  }

  lemma RankInSorted(messages: seq<Rendered>, sorted: seq<nat>, k: nat)
    requires SortedByTime(messages, sorted) && k < |sorted|
    ensures CountEarlier(messages, sorted, sorted[k]) == k
  {
    hide CountEarlier;
    CountInPrefix(messages, sorted, k, sorted[k]);
  }

  lemma SortedMember(messages: seq<Rendered>, m: seq<nat>, k: nat)
    requires Indices(messages, m) && k < |m|
    ensures SortByTime(messages, m)[k] in m
  {
    hide SortByTime;
    var sorted := SortByTime(messages, m);
    assert sorted[k] in multiset(sorted) && sorted[k] in multiset(m);
  }

  /** Sorting puts each answer at the position its label counts. */
  lemma SortedRank(messages: seq<Rendered>, group: string, k: nat)
    requires k < |Members(messages, group, |messages|)|
    ensures var m := Members(messages, group, |messages|); var sorted := SortByTime(messages, m);
      CountEarlier(messages, m, sorted[k]) == k && InVariants(messages[sorted[k]], group)
        && SortedByTime(messages, sorted)
  {
    hide InVariants, CountEarlier, SortByTime, SortedByTime, Members;
    var m := Members(messages, group, |messages|);
    var sorted := SortByTime(messages, m);
    SortSorts(messages, m);
    RankInSorted(messages, sorted, k);
    SortCounts(messages, m, sorted[k]);
    SortedMember(messages, m, k);
  }

  /** The map after `n` messages: each group's answers so far, and no group without one. */
  predicate Grouped(messages: seq<Rendered>, groups: map<string, seq<nat>>, n: nat)
    requires n <= |messages|
  {
    && (forall g :: g in groups ==> groups[g] == Members(messages, g, n) && groups[g] != [])
    && (forall i :: 0 <= i < n && messages[i].role == Assistant ==> GroupId(messages[i]) in groups)
  }

  lemma GroupedNext(messages: seq<Rendered>, groups: map<string, seq<nat>>, n: nat)
    requires n < |messages| && Grouped(messages, groups, n)
    ensures var m := messages[n]; var g := GroupId(m);
      var group := if g in groups then groups[g] else [];
      Grouped(messages, if m.role == Assistant then groups[g := group + [n]] else groups, n + 1)
  {
    hide GroupId, Members;
    var m := messages[n];
    var g := GroupId(m);
    var group := if g in groups then groups[g] else [];
    var next := if m.role == Assistant then groups[g := group + [n]] else groups;
    SomeGrouped(messages, groups, n, g);
    forall h | h in next ensures next[h] == Members(messages, h, n + 1) && next[h] != [] {
      MembersNext(messages, h, n);
    }
    forall i | 0 <= i < n + 1 && messages[i].role == Assistant ensures GroupId(messages[i]) in next {
    }
  }

  lemma SomeGrouped(messages: seq<Rendered>, groups: map<string, seq<nat>>, n: nat, g: string)
    requires n < |messages| && Grouped(messages, groups, n)
    ensures Members(messages, g, n) != [] ==> g in groups
  {
    hide GroupId, Members;
    var r := Members(messages, g, n);
    if r != [] {
      assert InVariants(messages[r[0]], g);
    }
  }

  lemma MembersNext(messages: seq<Rendered>, g: string, n: nat)
    requires n < |messages|
    ensures Members(messages, g, n + 1)
      == Members(messages, g, n) + if messages[n].role == Assistant && g == GroupId(messages[n]) then [n] else []
  {
  }

  method GroupAnswers(messages: seq<Rendered>) returns (groups: map<string, seq<nat>>, order: seq<string>)
    ensures Grouped(messages, groups, |messages|)
    ensures forall g :: g in order <==> g in groups
    ensures forall a, b :: 0 <= a < b < |order| ==> order[a] != order[b]
  {
    hide GroupId, Grouped;
    groups, order := map[], [];
    assert Grouped(messages, groups, 0) by { NothingGrouped(messages); }
    for i := 0 to |messages|
      invariant Grouped(messages, groups, i)
      invariant forall g :: g in order <==> g in groups
      invariant forall a, b :: 0 <= a < b < |order| ==> order[a] != order[b]
    {
      GroupedNext(messages, groups, i);
      if messages[i].role == Assistant {
        var g := GroupId(messages[i]);
        var group := if g in groups then groups[g] else [];
        if g !in groups {
          order := order + [g];
        }
        groups := groups[g := group + [i]];
      }
    }
  }

  lemma NothingGrouped(messages: seq<Rendered>)
    ensures Grouped(messages, map[], 0)
  {
  }

  lemma SmallGroup(messages: seq<Rendered>, group: string)
    requires |Members(messages, group, |messages|)| < 2
    ensures forall i :: 0 <= i < |messages| && InVariants(messages[i], group) ==> LabelOf(messages, i).None?
  {
    hide Members, CountEarlier;
  }

  /** Writes the labels of one group's answers, in the order the sort puts them. */
  method LabelGroup(messages: array<Rendered>, ghost was: seq<Rendered>, ghost group: string, sorted: seq<nat>)
    requires messages.Length == |was|
    requires sorted == SortByTime(was, Members(was, group, |was|)) && |sorted| >= 2
    requires forall k :: 0 <= k < |sorted| ==> messages[sorted[k]] == was[sorted[k]]
    modifies messages
    ensures forall i :: 0 <= i < messages.Length ==>
      messages[i] == if InVariants(was[i], group) then was[i].(variantLabel := LabelOf(was, i)) else old(messages[i])
  {
    hide CountEarlier, SortByTime, Members, GroupId, Earlier;
    ghost var members := Members(was, group, |was|);
    SortedDistinct(was, group);
    for k := 0 to |sorted|
      invariant forall i :: 0 <= i < messages.Length ==>
        messages[i] == if i in sorted[..k] then was[i].(variantLabel := LabelOf(was, i)) else old(messages[i])
    {
      assert sorted[..k + 1] == sorted[..k] + [sorted[k]];
      SortedRank(was, group, k);
      assert sorted[k] !in sorted[..k];
      messages[sorted[k]] := messages[sorted[k]].(variantLabel := Some(Label(k + 1, |sorted|)));
    }
    assert sorted[..|sorted|] == sorted;
    forall i | 0 <= i < |was| ensures i in sorted <==> InVariants(was[i], group) {
      assert i in sorted <==> i in multiset(sorted);
      assert i in members <==> i in multiset(members);
    }
  }

  lemma SortedDistinct(messages: seq<Rendered>, group: string)
    ensures var sorted := SortByTime(messages, Members(messages, group, |messages|));
      forall a, b :: 0 <= a < b < |sorted| ==> sorted[a] != sorted[b]
  {
    hide Members, SortByTime;
    SortSorts(messages, Members(messages, group, |messages|));
  }

  method LabelAssistantVariants(messages: array<Rendered>)
    requires forall i :: 0 <= i < messages.Length ==> messages[i].variantLabel.None?
    modifies messages
    ensures forall i :: 0 <= i < messages.Length ==>
      messages[i] == old(messages[i]).(variantLabel := LabelOf(old(messages[..]), i))
  {
    hide Members, CountEarlier, SortByTime, GroupId, LabelOf;
    ghost var was := messages[..];
    var groups, order := GroupAnswers(messages[..]);
    for g := 0 to |order|
      invariant forall i :: 0 <= i < messages.Length ==>
        messages[i] == if was[i].role == Assistant && GroupId(was[i]) in order[..g]
                       then was[i].(variantLabel := LabelOf(was, i)) else was[i]
    {
      var group := groups[order[g]];
      assert order[..g + 1] == order[..g] + [order[g]];
      assert order[g] !in order[..g];
      if |group| < 2 {
        SmallGroup(was, order[g]);
      } else {
        assert messages.Length == |was|;
        var sorted := SortByTime(messages[..], group);
        SortIgnoresLabels(messages[..], was, group);
        forall k | 0 <= k < |sorted| ensures messages[sorted[k]] == was[sorted[k]] {
          assert sorted[k] in multiset(sorted) && sorted[k] in multiset(group) && sorted[k] in group;
        }
        LabelGroup(messages, was, order[g], sorted);
      }
    }
    assert order[..|order|] == order;
    forall i | 0 <= i < messages.Length && was[i].role != Assistant ensures LabelOf(was, i).None? {
      OnlyAnswers(was, i);
    }
  }

  lemma OnlyAnswers(messages: seq<Rendered>, i: nat)
    requires i < |messages| && messages[i].role != Assistant
    ensures LabelOf(messages, i).None?
  {
  }

  lemma {:induction false} InsertIgnoresLabels(a: seq<Rendered>, b: seq<Rendered>, x: nat, s: seq<nat>)
    requires |a| == |b| && x < |a| && Indices(a, s) && forall i :: 0 <= i < |a| ==> a[i].createdAt == b[i].createdAt
    ensures InsertByTime(a, x, s) == InsertByTime(b, x, s)
  {
    if s != [] {
      InsertIgnoresLabels(a, b, x, s[..|s| - 1]);
    }
  }

  lemma {:induction false} SortIgnoresLabels(a: seq<Rendered>, b: seq<Rendered>, s: seq<nat>)
    requires |a| == |b| && Indices(a, s) && forall i :: 0 <= i < |a| ==> a[i].createdAt == b[i].createdAt
    ensures SortByTime(a, s) == SortByTime(b, s)
  {
    if s != [] {
      var n := |s| - 1;
      SortIgnoresLabels(a, b, s[..n]);
      InsertIgnoresLabels(a, b, s[n], SortByTime(a, s[..n]));
    }
  }

  // ----- the rows the client is sent -----

  predicate BoundTo(a: Attachment, id: string) {
    Truthy(a.entry) && a.entry.value == id
  }

  predicate Increasing(pos: seq<nat>) {
    forall a, b :: 0 <= a < b < |pos| ==> pos[a] < pos[b]
  }

  /** The attachments bound to the entry, each once and in their order. */
  ghost predicate AreBoundTo(list: seq<Attachment>, attachments: seq<Attachment>, id: string) {
    exists pos :: BoundAt(list, attachments, id, pos)
  }

  ghost predicate BoundAt(list: seq<Attachment>, attachments: seq<Attachment>, id: string, pos: seq<nat>) {
    && |pos| == |list| && Increasing(pos)
    && (forall k :: 0 <= k < |pos| ==> pos[k] < |attachments| && list[k] == attachments[pos[k]])
    && forall i: nat :: i < |attachments| ==> (i in pos <==> BoundTo(attachments[i], id))
  }

  lemma {:induction false} AttachmentsBound(attachments: seq<Attachment>, id: string) returns (pos: seq<nat>)
    ensures BoundAt(AttachmentsOf(attachments, id), attachments, id, pos)
    ensures forall k :: 0 <= k < |pos| ==> pos[k] < |attachments|
    decreases |attachments|
  {
    if attachments == [] {
      pos := [];
    } else {
      var n := |attachments| - 1;
      var init := AttachmentsBound(attachments[..n], id);
      pos := init + if BoundTo(attachments[n], id) then [n] else [];
      assert forall i: nat :: i < n ==> attachments[..n][i] == attachments[i];
      assert forall i: nat :: i in pos <==> i in init || (i == n && BoundTo(attachments[n], id));
    }
  }

  /** The message shows its row, field by field. */
  ghost predicate ShowsRow(m: Rendered, e: Entry, attachments: seq<Attachment>) {
    && m.id == e.id && Some(m.role) == e.role && m.content == e.text && m.createdAt == e.createdAt
    && m.parent == e.parent && m.regenerates == e.regenerates && m.group == e.group
    && m.details.modelId == e.details.modelId && m.details.modelRuntimeId == e.details.modelRuntimeId
    && m.details.modelAlias == e.details.modelAlias && m.details.performance == e.details.performance
    && m.details.toolCalls == e.details.toolCalls && m.details.reasoning == e.details.reasoning
    && m.details.attachments.None? && m.attachments != Some([])
    && AreBoundTo(if m.attachments.Some? then m.attachments.value else [], attachments, e.id)
  }

  /** A regenerated answer hangs from the entry. */
  ghost predicate IsReplayed(entries: seq<Entry>, id: string) {
    exists a :: a in entries && a.entryType == "message" && a.role == Some(Assistant) && Truthy(a.regenerates)
                && a.parent == Some(id)
  }

  /** A user or system message, or an answer with something to show; but not a prompt replayed for another answer. */
  ghost predicate IsDrawn(entries: seq<Entry>, e: Entry, calls: Option<string> -> nat) {
    && e.entryType == "message" && e.role.Some?
    && !(e.role == Some(User) && IsReplayed(entries, e.id))
    && (e.role == Some(Assistant) ==>
          (Trim(e.text) != "" || calls(e.details.toolCalls) > 0
           || (e.details.reasoning.Some? && Trim(e.details.reasoning.value) != "")))
  }

  /** The messages are the rows to be drawn, at these positions: each once, in row order. */
  ghost predicate DrawnFrom(shown: seq<Rendered>, entries: seq<Entry>, attachments: seq<Attachment>,
                            calls: Option<string> -> nat, pos: seq<nat>) {
    && |pos| == |shown| && Increasing(pos)
    && (forall k :: 0 <= k < |pos| ==> pos[k] < |entries| && ShowsRow(shown[k], entries[pos[k]], attachments))
    && forall i: nat :: i < |entries| ==> (i in pos <==> IsDrawn(entries, entries[i], calls))
  }

  lemma RenderShows(e: Entry, attachments: seq<Attachment>)
    requires IsMessage(e)
    ensures ShowsRow(Render(e, attachments), e, attachments)
  {
    hide AttachmentsOf, BoundAt;
    var pos := AttachmentsBound(attachments, e.id);
  }

  lemma ShownIsDrawn(entries: seq<Entry>, attachments: seq<Attachment>, calls: Option<string> -> nat, e: Entry)
    requires e in entries && IsMessage(e)
    ensures Shown(Render(e, attachments), AllMessages(entries, attachments), calls) <==> IsDrawn(entries, e, calls)
  {
    hide Truthy, AttachmentsOf, Trim, AllMessages;
    var all, m := AllMessages(entries, attachments), Render(e, attachments);
    forall a | a in entries && IsMessage(a) && a.role == Some(Assistant) && a.parent == Some(e.id)
               && Truthy(a.regenerates)
      ensures Replayed(all, e.id)
    {
      assert Render(a, attachments) in all;
    }
  }

  /** `pos` holds the positions of the rows whose messages are shown, and `list` those messages. */
  ghost predicate Picks(list: seq<Rendered>, entries: seq<Entry>, attachments: seq<Attachment>, all: seq<Rendered>,
                        calls: Option<string> -> nat, pos: seq<nat>) {
    && |pos| == |list| && Increasing(pos)
    && (forall k :: 0 <= k < |pos| ==> pos[k] < |entries| && IsMessage(entries[pos[k]])
                                       && list[k] == Render(entries[pos[k]], attachments))
    && forall i: nat :: i < |entries| ==> (i in pos <==> IsPicked(entries[i], attachments, all, calls))
  }

  predicate IsPicked(e: Entry, attachments: seq<Attachment>, all: seq<Rendered>, calls: Option<string> -> nat) {
    IsMessage(e) && Shown(Render(e, attachments), all, calls)
  }

  lemma VisibleMore(entries: seq<Entry>, attachments: seq<Attachment>, all: seq<Rendered>, calls: Option<string> -> nat)
    requires entries != []
    ensures var n := |entries| - 1;
      Visible(AllMessages(entries, attachments), all, calls)
      == Visible(AllMessages(entries[..n], attachments), all, calls)
         + if IsPicked(entries[n], attachments, all, calls) then [Render(entries[n], attachments)] else []
  {
    hide IsMessage, Render, Shown;
    var n := |entries| - 1;
    var before := AllMessages(entries[..n], attachments);
    if IsMessage(entries[n]) {
      assert (before + [Render(entries[n], attachments)])[..|before|] == before;
    } else {
      assert before + [] == before;
    }
  }

  lemma PicksSame(list: seq<Rendered>, entries: seq<Entry>, attachments: seq<Attachment>, all: seq<Rendered>,
                  calls: Option<string> -> nat, pos: seq<nat>)
    requires entries != [] && Picks(list, entries[..|entries| - 1], attachments, all, calls, pos)
    requires !IsPicked(entries[|entries| - 1], attachments, all, calls)
    ensures Picks(list, entries, attachments, all, calls, pos)
  {
    hide IsMessage, Render, Shown, IsPicked, Increasing;
    var init := entries[..|entries| - 1];
    assert forall i: nat :: i < |init| ==> init[i] == entries[i];
    assert forall k :: 0 <= k < |pos| ==> pos[k] < |init|;
    assert |init| !in pos;
  }

  lemma PicksOne(list: seq<Rendered>, entries: seq<Entry>, attachments: seq<Attachment>, all: seq<Rendered>,
                 calls: Option<string> -> nat, pos: seq<nat>)
    requires entries != [] && Picks(list, entries[..|entries| - 1], attachments, all, calls, pos)
    requires var e := entries[|entries| - 1]; IsPicked(e, attachments, all, calls) && IsMessage(e)
    ensures Picks(list + [Render(entries[|entries| - 1], attachments)], entries, attachments, all, calls,
                  pos + [|entries| - 1])
  {
    hide IsMessage, Render, Shown, IsPicked;
    var n: nat := |entries| - 1;
    var init, next, longer := entries[..n], pos + [n], list + [Render(entries[n], attachments)];
    assert forall i: nat :: i < n ==> init[i] == entries[i];
    forall k | 0 <= k < |next|
      ensures next[k] < |entries| && IsMessage(entries[next[k]]) && longer[k] == Render(entries[next[k]], attachments)
    {
      if k < |pos| {
        assert pos[k] < n && list[k] == Render(init[pos[k]], attachments);
      }
    }
    assert Increasing(next) by { hide Picks; IncreasingMore(pos, n); }
    forall i: nat | i < |entries| ensures i in next <==> IsPicked(entries[i], attachments, all, calls) {
      if i < n {
        assert i in next <==> i in pos;
      } else {
        assert next[|pos|] == n;
      }
    }
  }

  lemma IncreasingMore(pos: seq<nat>, n: nat)
    requires Increasing(pos) && forall k :: 0 <= k < |pos| ==> pos[k] < n
    ensures Increasing(pos + [n])
  {
  }

  lemma PickedIsMessage(e: Entry, attachments: seq<Attachment>, all: seq<Rendered>, calls: Option<string> -> nat)
    requires IsPicked(e, attachments, all, calls)
    ensures IsMessage(e)
  {
  }

  lemma PicksNothing(attachments: seq<Attachment>, all: seq<Rendered>, calls: Option<string> -> nat)
    ensures Picks(Visible(AllMessages([], attachments), all, calls), [], attachments, all, calls, [])
  {
    hide IsPicked, Shown;
  }

  lemma {:induction false} DrawnPositions(entries: seq<Entry>, attachments: seq<Attachment>, all: seq<Rendered>,
                                          calls: Option<string> -> nat)
    returns (pos: seq<nat>)
    ensures Picks(Visible(AllMessages(entries, attachments), all, calls), entries, attachments, all, calls, pos)
    decreases |entries|
  {
    hide IsMessage, Render, IsPicked, Picks, AllMessages, Visible;
    if entries == [] {
      pos := [];
      PicksNothing(attachments, all, calls);
    } else {
      var n := |entries| - 1;
      var init := DrawnPositions(entries[..n], attachments, all, calls);
      VisibleMore(entries, attachments, all, calls);
      var list := Visible(AllMessages(entries[..n], attachments), all, calls);
      if IsPicked(entries[n], attachments, all, calls) {
        PickedIsMessage(entries[n], attachments, all, calls);
        PicksOne(list, entries, attachments, all, calls, init);
        pos := init + [n];
      } else {
        PicksSame(list, entries, attachments, all, calls, init);
        assert list + [] == list;
        pos := init;
      }
    }
  }

  lemma DrawnInRowOrder(entries: seq<Entry>, attachments: seq<Attachment>, calls: Option<string> -> nat)
    returns (pos: seq<nat>)
    ensures var all := AllMessages(entries, attachments);
      DrawnFrom(Visible(all, all, calls), entries, attachments, calls, pos)
  {
    hide IsMessage, Render, Shown, Visible, AllMessages, ShowsRow, IsDrawn, IsPicked;
    pos := DrawnPositions(entries, attachments, AllMessages(entries, attachments), calls);
    forall i: nat | i < |entries|
      ensures IsMessage(entries[i]) ==> ShowsRow(Render(entries[i], attachments), entries[i], attachments)
      ensures IsPicked(entries[i], attachments, AllMessages(entries, attachments), calls)
        <==> IsDrawn(entries, entries[i], calls)
    {
      PickedWhen(entries[i], attachments, AllMessages(entries, attachments), calls);
      if IsMessage(entries[i]) {
        RenderShows(entries[i], attachments);
        ShownIsDrawn(entries, attachments, calls, entries[i]);
      } else {
        OnlyMessages(entries, entries[i], calls);
      }
    }
  }

  lemma PickedWhen(e: Entry, attachments: seq<Attachment>, all: seq<Rendered>, calls: Option<string> -> nat)
    ensures IsPicked(e, attachments, all, calls) <==> IsMessage(e) && Shown(Render(e, attachments), all, calls)
  {
  }

  lemma OnlyMessages(entries: seq<Entry>, e: Entry, calls: Option<string> -> nat)
    requires !IsMessage(e)
    ensures !IsDrawn(entries, e, calls)
  {
  }

  lemma LabelsKeepRows(visible: seq<Rendered>, shown: seq<Rendered>, entries: seq<Entry>, attachments: seq<Attachment>,
                       calls: Option<string> -> nat, pos: seq<nat>)
    requires DrawnFrom(visible, entries, attachments, calls, pos) && |shown| == |visible|
    requires forall i :: 0 <= i < |shown| ==> shown[i] == visible[i].(variantLabel := shown[i].variantLabel)
    ensures DrawnFrom(shown, entries, attachments, calls, pos)
  {
    hide AreBoundTo, IsDrawn;
  }

  /** What a client is sent: the rows to be drawn, in row order, each answer of a larger group carrying its label. */
  method BuildConversationMessages(entries: seq<Entry>, attachments: seq<Attachment>, calls: Option<string> -> nat)
    returns (shown: seq<Rendered>)
    ensures exists pos :: DrawnFrom(shown, entries, attachments, calls, pos)
    ensures forall i :: 0 <= i < |shown| ==> shown[i].variantLabel == LabelOf(shown, i)
    ensures var all := AllMessages(entries, attachments); var visible := Visible(all, all, calls);
      |shown| == |visible|
      && forall i :: 0 <= i < |shown| ==> shown[i] == visible[i].(variantLabel := LabelOf(visible, i))
  {
    hide LabelOf, Shown, Visible, AllMessages, DrawnFrom;
    var all := AllMessages(entries, attachments);
    var visible := Visible(all, all, calls);
    var messages := new Rendered[|visible|](i requires 0 <= i < |visible| => visible[i]);
    assert messages[..] == visible;
    assert forall i :: 0 <= i < messages.Length ==> messages[i] in visible;
    LabelAssistantVariants(messages);
    shown := messages[..];
    ghost var pos := DrawnInRowOrder(entries, attachments, calls);
    LabelsKeepRows(visible, shown, entries, attachments, calls, pos);
    forall i | 0 <= i < |shown| ensures LabelOf(shown, i) == LabelOf(visible, i) {
      LabelsIgnored(shown, visible, i);
    }
  }

  lemma LabelsIgnored(a: seq<Rendered>, b: seq<Rendered>, i: nat)
    requires i < |a| == |b| && forall k :: 0 <= k < |a| ==> a[k] == b[k].(variantLabel := a[k].variantLabel)
    ensures LabelOf(a, i) == LabelOf(b, i)
  {
    hide Earlier;
    MembersIgnoreLabels(a, b, GroupId(a[i]), |a|);
    CountIgnoresLabels(a, b, Members(b, GroupId(b[i]), |b|), i);
  }

  lemma {:induction false} MembersIgnoreLabels(a: seq<Rendered>, b: seq<Rendered>, group: string, n: nat)
    requires n <= |a| == |b| && forall k :: 0 <= k < |a| ==> a[k] == b[k].(variantLabel := a[k].variantLabel)
    ensures Members(a, group, n) == Members(b, group, n)
  {
    hide InVariants, GroupId;
    if n > 0 {
      MembersIgnoreLabels(a, b, group, n - 1);
      assert InVariants(a[n - 1], group) <==> InVariants(b[n - 1], group) by {
        SameVariants(a[n - 1], b[n - 1], group);
      }
    }
  }

  lemma SameVariants(m: Rendered, n: Rendered, group: string)
    requires m == n.(variantLabel := m.variantLabel)
    ensures InVariants(m, group) <==> InVariants(n, group)
  {
  }

  lemma {:induction false} CountIgnoresLabels(a: seq<Rendered>, b: seq<Rendered>, s: seq<nat>, i: nat)
    requires i < |a| == |b| && Indices(a, s)
    requires forall k :: 0 <= k < |a| ==> a[k] == b[k].(variantLabel := a[k].variantLabel)
    ensures CountEarlier(a, s, i) == CountEarlier(b, s, i)
    decreases |s|
  {
    if s != [] {
      var n := |s| - 1;
      CountIgnoresLabels(a, b, s[..n], i);
      assert a[i].createdAt == b[i].createdAt && a[s[n]].createdAt == b[s[n]].createdAt;
    }
  }

  /** With each row's id its own, messages stand in the order of their rows. */
  lemma RowOrder(shown: seq<Rendered>, entries: seq<Entry>, attachments: seq<Attachment>, calls: Option<string> -> nat,
                 pos: seq<nat>, i: nat, j: nat)
    requires DrawnFrom(shown, entries, attachments, calls, pos) && DistinctIds(entries) && i < j < |shown|
    ensures IndexOfId(entries, shown[i].id) < IndexOfId(entries, shown[j].id) < |entries|
  {
    hide AreBoundTo, IsDrawn;
    assert entries[pos[i]].id == shown[i].id && entries[pos[j]].id == shown[j].id && pos[i] < pos[j];
    IndexIs(entries, pos[i]);
    IndexIs(entries, pos[j]);
  }

  lemma IndexIs(entries: seq<Entry>, k: nat)
    requires DistinctIds(entries) && k < |entries|
    ensures IndexOfId(entries, entries[k].id) == k
  {
  }

  // ----- what the labels and the list mean -----

  predicate HasLabel(messages: seq<Rendered>, group: string, l: Label) {
    exists i :: 0 <= i < |messages| && InVariants(messages[i], group) && LabelOf(messages, i) == Some(l)
  }

  /** The labels of a group of two or more answers are a bijection onto 1..n, in creation order. */
  lemma LabelsAreABijection(messages: seq<Rendered>, group: string)
    requires |Members(messages, group, |messages|)| >= 2
    ensures var n := |Members(messages, group, |messages|)|;
      && (forall i :: 0 <= i < |messages| && InVariants(messages[i], group) ==>
           (LabelOf(messages, i).Some? && LabelOf(messages, i).value.count == n
             && 1 <= LabelOf(messages, i).value.index <= n))
      && (forall k :: 1 <= k <= n ==> HasLabel(messages, group, Label(k, n)))
      && (forall i, j :: 0 <= i < |messages| && 0 <= j < |messages| && InVariants(messages[i], group)
                         && InVariants(messages[j], group) && Earlier(messages, i, j) ==>
           LabelOf(messages, i).value.index < LabelOf(messages, j).value.index)
  {
    hide CountEarlier, SortByTime, Members, GroupId, Earlier, LabelOf, InVariants;
    var m := Members(messages, group, |messages|);
    var sorted := SortByTime(messages, m);
    forall k | 1 <= k <= |m| ensures HasLabel(messages, group, Label(k, |m|)) {
      SortedLabel(messages, group, k - 1);
    }
    forall i | 0 <= i < |messages| && InVariants(messages[i], group)
      ensures LabelOf(messages, i).Some? && LabelOf(messages, i).value.count == |m|
        && 1 <= LabelOf(messages, i).value.index <= |m|
    {
      var k := PositionOf(messages, group, i);
      SortedLabel(messages, group, k);
    }
    forall i, j | 0 <= i < |messages| && 0 <= j < |messages| && InVariants(messages[i], group)
                  && InVariants(messages[j], group) && Earlier(messages, i, j)
      ensures LabelOf(messages, i).value.index < LabelOf(messages, j).value.index
    {
      LabelsFollowTime(messages, group, i, j);
    }
  }

  lemma PositionOf(messages: seq<Rendered>, group: string, i: nat) returns (k: nat)
    requires i < |messages| && InVariants(messages[i], group)
    ensures var m := Members(messages, group, |messages|);
      k < |m| && SortByTime(messages, m)[k] == i
  {
    hide SortByTime, Members, InVariants;
    var m := Members(messages, group, |messages|);
    var sorted := SortByTime(messages, m);
    assert i in m && i in multiset(m) && i in multiset(sorted) && i in sorted;
    k :| 0 <= k < |sorted| && sorted[k] == i;
  }

  lemma LabelsFollowTime(messages: seq<Rendered>, group: string, i: nat, j: nat)
    requires |Members(messages, group, |messages|)| >= 2
    requires i < |messages| && j < |messages| && InVariants(messages[i], group) && InVariants(messages[j], group)
    requires Earlier(messages, i, j)
    ensures LabelOf(messages, i).Some? && LabelOf(messages, j).Some?
    ensures LabelOf(messages, i).value.index < LabelOf(messages, j).value.index
  {
    hide CountEarlier, SortByTime, Members, Earlier, LabelOf, InVariants;
    var a := PositionOf(messages, group, i);
    var b := PositionOf(messages, group, j);
    SortedLabel(messages, group, a);
    SortedLabel(messages, group, b);
    SortedRank(messages, group, a);
    EarlierIsStrict(messages, i, j);
  }

  lemma SortedLabel(messages: seq<Rendered>, group: string, k: nat)
    requires |Members(messages, group, |messages|)| >= 2 && k < |Members(messages, group, |messages|)|
    ensures var m := Members(messages, group, |messages|); var i := SortByTime(messages, m)[k];
      InVariants(messages[i], group) && LabelOf(messages, i) == Some(Label(k + 1, |m|))
  {
    hide CountEarlier, SortByTime, Members, Earlier;
    SortedRank(messages, group, k);
  }

  lemma EarlierIsStrict(messages: seq<Rendered>, i: nat, j: nat)
    requires i < |messages| && j < |messages| && Earlier(messages, i, j)
    ensures i != j && !Earlier(messages, j, i)
  {
  }

  /** A message of the conversation is drawn unless it is a replayed prompt or an answer with nothing to show. */
  lemma DrawnIff(entries: seq<Entry>, attachments: seq<Attachment>, calls: Option<string> -> nat, e: Entry)
    requires e in entries && IsMessage(e)
    ensures var all := AllMessages(entries, attachments); var m := Render(e, attachments);
      m in Visible(all, all, calls) <==>
        && !(e.role == Some(User) && exists a :: a in entries && IsMessage(a) && a.role == Some(Assistant)
                                              && Truthy(a.regenerates) && a.parent == Some(e.id))
        && !(e.role == Some(Assistant) && Blank(m, calls))
  {
    hide Visible, AllMessages, Blank, Truthy, AttachmentsOf;
    var all := AllMessages(entries, attachments);
    var m := Render(e, attachments);
    assert m in all;
    if a :| (a in entries && IsMessage(a) && a.role == Some(Assistant) && Truthy(a.regenerates)
             && a.parent == Some(e.id)) {
      assert Render(a, attachments) in all;
      assert Replayed(all, e.id);
    }
  }

  /** An entry that is an answer of the group. */
  predicate IsAnswer(e: Entry, group: string) {
    && IsMessage(e) && e.role == Some(Assistant)
    && group == if e.group.Some? then e.group.value else if e.regenerates.Some? then e.regenerates.value else e.id
  }

  predicate PromptOfGroup(entries: seq<Entry>, group: string, u: Entry) {
    && u in entries && IsMessage(u) && u.role == Some(User)
    && exists a :: a in entries && IsAnswer(a, group) && a.parent == Some(u.id)
  }

  /** A flat group whose regenerated answers hang from prompts replayed for them. */
  predicate FlatGroup(entries: seq<Entry>, group: string, founder: Entry) {
    && founder in entries && IsAnswer(founder, group) && !Truthy(founder.regenerates)
    && (forall a :: a in entries && IsAnswer(a, group) && a != founder ==> Truthy(a.regenerates))
    && (forall a :: a in entries && IsMessage(a) && a.role == Some(Assistant) && Truthy(a.regenerates) ==>
         a.parent != founder.parent)
  }

  /** Of all the copies of a prompt its answers hang from, the one that is drawn is the first answer's own. */
  lemma PromptShownOnce(entries: seq<Entry>, attachments: seq<Attachment>, calls: Option<string> -> nat,
                        group: string, founder: Entry, u: Entry)
    requires FlatGroup(entries, group, founder) && PromptOfGroup(entries, group, u)
    ensures var all := AllMessages(entries, attachments);
      Render(u, attachments) in Visible(all, all, calls) <==> founder.parent == Some(u.id)
  {
    hide AllMessages, Visible, Truthy, Render, IsAnswer, Blank;
    DrawnIff(entries, attachments, calls, u);
    var a :| a in entries && IsAnswer(a, group) && a.parent == Some(u.id);
    assert IsMessage(a) && a.role == Some(Assistant) by { AnswerIsAMessage(a, group); }
  }

  lemma AnswerIsAMessage(a: Entry, group: string)
    requires IsAnswer(a, group)
    ensures IsMessage(a) && a.role == Some(Assistant)
  {
  }

  predicate DistinctMessages(list: seq<Rendered>) {
    forall i, j :: 0 <= i < j < |list| ==> list[i].id != list[j].id
  }

  /** Nothing is drawn twice. */
  lemma DrawnOnce(entries: seq<Entry>, attachments: seq<Attachment>, calls: Option<string> -> nat)
    requires DistinctIds(entries)
    ensures var all := AllMessages(entries, attachments); DistinctMessages(Visible(all, all, calls))
  {
    hide AllMessages, Visible, DistinctMessages;
    MessagesDistinct(entries, attachments);
    VisibleDistinct(AllMessages(entries, attachments), AllMessages(entries, attachments), calls);
  }

  lemma DistinctAppend(list: seq<Rendered>, m: Rendered)
    requires DistinctMessages(list) && forall k :: 0 <= k < |list| ==> list[k].id != m.id
    ensures DistinctMessages(list + [m])
  {
  }

  lemma {:induction false} MessagesDistinct(entries: seq<Entry>, attachments: seq<Attachment>)
    requires DistinctIds(entries)
    ensures DistinctMessages(AllMessages(entries, attachments))
    decreases |entries|
  {
    hide IsMessage;
    if entries != [] {
      var n := |entries| - 1;
      MessagesDistinct(entries[..n], attachments);
      var init := AllMessages(entries[..n], attachments);
      if IsMessage(entries[n]) {
        forall k | 0 <= k < |init| ensures init[k].id != entries[n].id {
          assert init[k] in init;
          var e :| e in entries[..n] && IsMessage(e) && init[k] == Render(e, attachments);
          var j :| 0 <= j < n && entries[j] == e;
        }
        DistinctAppend(init, Render(entries[n], attachments));
      } else {
        assert AllMessages(entries, attachments) == init;
      }
    }
  }

  lemma {:induction false} VisibleDistinct(list: seq<Rendered>, all: seq<Rendered>, calls: Option<string> -> nat)
    requires DistinctMessages(list)
    ensures DistinctMessages(Visible(list, all, calls))
    decreases |list|
  {
    hide Shown;
    if list != [] {
      var n := |list| - 1;
      VisibleDistinct(list[..n], all, calls);
      var init := Visible(list[..n], all, calls);
      forall k | 0 <= k < |init| ensures init[k].id != list[n].id {
        assert init[k] in init && init[k] in list[..n];
      }
      if Shown(list[n], all, calls) {
        DistinctAppend(init, list[n]);
      } else {
        assert Visible(list, all, calls) == init;
      }
    }
  }
}
