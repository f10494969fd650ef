/**
 * Waiting for a model to become runnable: what each poll observes, what it reports, and what ends the wait.
 */
module LoadWait {
  import opened Text

  const POLL_MS := 500
  const STALL_MS := 60_000
  const ABSOLUTE_MAX_MS := 30 * 60_000
  const START_GRACE_MS := 3_000

  datatype RouterModel = RouterModel(status: string, exitCode: Option<int>, progress: Option<real>)

  datatype Download = Download(bytes: nat, total: Option<nat>, fraction: Option<real>)

  /** The blobs on disk and, when every one could be priced, what they add up to. */
  datatype Blobs = Blobs(bytes: nat, total: Option<nat>)

  /**
   * One poll: the router's row, the repo directory's size, the watcher's state, the priced blobs once the
   * repo tree is known, and the clock when signals are stamped and when the deadlines are checked.
   */
  datatype Tick = Tick(model: Option<RouterModel>, disk: Option<nat>, frameAt: nat, latest: Option<real>,
                       download: Option<Download>, downloadFailed: bool, blobs: Option<Blobs>, seen: int, checked: int)

  datatype Limits = Limits(pollMs: nat, stallMs: int, absoluteMaxMs: int)

  datatype Wait = Wait(status: string, disk: Option<nat>, startedAt: int, ticks: nat -> Tick, limits: Limits)

  datatype Outcome = NotNeeded | Loaded | MarkedFailed | DiedAtStart | Stalled | TookTooLong

  predicate Runnable(status: string) {
    status == "loaded" || status == "sleeping"
  }

  /** Time moves on: within a poll, and by at least the delay between polls. */
  ghost predicate ClockRuns(w: Wait) {
    && w.limits.pollMs > 0 && w.startedAt <= w.ticks(0).seen
    && (forall k: nat :: w.ticks(k).seen <= w.ticks(k).checked)
    && (forall k: nat :: w.ticks(k).checked + w.limits.pollMs <= w.ticks(k + 1).seen)
  }

  // ----- what the history up to a poll says -----

  function StatusAt(w: Wait, k: nat): Option<string> {
    if w.ticks(k).model.Some? then Some(w.ticks(k).model.value.status) else None
  }

  function StatusBefore(w: Wait, k: nat): Option<string> {
    if k == 0 then Some(w.status) else StatusAt(w, k - 1)
  }

  function SizeOf(disk: Option<nat>): nat {
    if disk.Some? then disk.value else 0
  }

  /** The largest size of the repo directory measured before poll `k`, if any was. */
  function DiskBefore(w: Wait, k: nat): Option<nat> {
    if k == 0 then w.disk
    else
      var before, now := DiskBefore(w, k - 1), w.ticks(k - 1).disk;
      if now.Some? && now.value > SizeOf(before) then now else before
  }

  function FrameBefore(w: Wait, k: nat): nat {
    if k == 0 then 0
    else
      var before, now := FrameBefore(w, k - 1), w.ticks(k - 1).frameAt;
      if now > before then now else before
  }

  predicate Grew(w: Wait, k: nat) {
    w.ticks(k).disk.Some? && w.ticks(k).disk.value > SizeOf(DiskBefore(w, k))
  }

  /** Evidence of progress at a poll: the directory grew, a frame arrived, or the status moved. */
  predicate Signal(w: Wait, k: nat) {
    Grew(w, k) || w.ticks(k).frameAt > FrameBefore(w, k) || StatusAt(w, k) != StatusBefore(w, k)
  }

  /** No evidence for longer than the window: none at the start of the wait and none at any poll since. */
  predicate Quiet(w: Wait, k: nat) {
    && w.ticks(k).checked - w.startedAt > w.limits.stallMs
    && forall j :: 0 <= j <= k && Signal(w, j) ==> w.ticks(k).checked - w.ticks(j).seen > w.limits.stallMs
  }

  predicate Started(w: Wait, k: nat) {
    exists j :: 0 <= j <= k && StatusAt(w, j).Some? && StatusAt(w, j) != Some("unloaded")
  }

  /** The directory has grown at some poll up to `k`. */
  predicate GrewBy(w: Wait, k: nat) {
    exists j :: 0 <= j <= k && Grew(w, j)
  }

  predicate ExitedBadly(m: RouterModel) {
    m.exitCode.Some? && m.exitCode.value != 0
  }

  /** What poll `k` decides, in the order the checks run. */
  function Decision(w: Wait, k: nat): Option<Outcome> {
    var t := w.ticks(k);
    if StatusAt(w, k).Some? && Runnable(StatusAt(w, k).value) then Some(Loaded)
    else if StatusAt(w, k) == Some("failed") || t.downloadFailed then Some(MarkedFailed)
    else if !Started(w, k) && StatusAt(w, k) == Some("unloaded") && t.checked - w.startedAt > START_GRACE_MS
            && ExitedBadly(t.model.value) then Some(DiedAtStart)
    else if Quiet(w, k) then Some(Stalled)
    else if t.checked - w.startedAt > w.limits.absoluteMaxMs then Some(TookTooLong)
    else None
  }

  // ----- what each poll reports -----

  datatype Phase = Downloading | Loading

  datatype Report = Report(status: string, progress: Option<real>, phase: Option<Phase>,
                           downloaded: Option<nat>, total: Option<nat>)

  function StageOf(t: Tick): Option<real> {
    if t.latest.Some? then t.latest else if t.model.Some? then t.model.value.progress else None
  }

  function PhaseOf(t: Tick, grew: bool): Option<Phase> {
    if StageOf(t).Some? || (t.model.Some? && Runnable(t.model.value.status)) then Some(Loading)
    else if t.download.Some? || grew then Some(Downloading)
    else None
  }

  function DownloadedOf(t: Tick, dirBytes: Option<nat>): Option<nat> {
    if t.download.Some? then Some(t.download.value.bytes)
    else if t.blobs.Some? then Some(t.blobs.value.bytes)
    else dirBytes
  }

  function TotalOf(t: Tick): Option<nat> {
    if t.download.Some? && t.download.value.total.Some? then t.download.value.total
    else if t.blobs.Some? then t.blobs.value.total
    else None
  }

  function FractionOf(t: Tick): Option<real> {
    if t.download.Some? then t.download.value.fraction else None
  }

  /** A non-zero total: the code divides by it. */
  ghost predicate TotalsArePositive(w: Wait) {
    forall k: nat :: TotalOf(w.ticks(k)) != Some(0)
  }

  /** A poll's report; outside a download it carries the load's stage and no bytes. */
  predicate IsReport(r: Report, t: Tick, dirBytes: Option<nat>, grew: bool) {
    && r.status == (if t.model.Some? then t.model.value.status else "unknown")
    && r.phase == PhaseOf(t, grew)
    && if r.phase != Some(Downloading) then r.downloaded == None && r.total == None && r.progress == StageOf(t)
       else IsDownloadReport(r, t, DownloadedOf(t, dirBytes))
  }

  /** The total is dropped exactly when the bytes outrun it, and a fraction of our own goes with it. */
  predicate IsDownloadReport(r: Report, t: Tick, downloaded: Option<nat>) {
    var outrun := downloaded.Some? && TotalOf(t).Some? && downloaded.value > TotalOf(t).value;
    && r.downloaded == downloaded
    && r.total == (if outrun then None else TotalOf(t))
    && (FractionOf(t).Some? ==> r.progress == FractionOf(t))
    && (FractionOf(t).None? ==> (r.progress.Some? <==> r.downloaded.Some? && r.total.Some?))
    && (FractionOf(t).None? && r.progress.Some? ==>
         r.total.value > 0 && r.progress.value == r.downloaded.value as real / r.total.value as real)
  }

  /** Never more downloaded than the total, and a fraction between nothing and all. */
  lemma ReportsAreHonest(r: Report, t: Tick, dirBytes: Option<nat>, grew: bool)
    requires IsReport(r, t, dirBytes, grew)
    requires FractionOf(t).Some? ==> 0.0 <= FractionOf(t).value <= 1.0
    ensures r.downloaded.Some? && r.total.Some? ==> r.downloaded.value <= r.total.value
    ensures r.phase == Some(Downloading) && r.progress.Some? ==> 0.0 <= r.progress.value <= 1.0
  {
    if r.phase == Some(Downloading) && r.progress.Some? && FractionOf(t).None? {
      ShareBounds(r.downloaded.value, r.total.value);
    }
  }

  /** What a report is made of: a load's stage when there is one, else the best count of bytes there is. */
  lemma ReportSays(r: Report, t: Tick, dirBytes: Option<nat>, grew: bool)
    requires IsReport(r, t, dirBytes, grew)
    ensures t.latest.Some? ==> r == Report(r.status, t.latest, Some(Loading), None, None)
    ensures t.latest.None? && t.model.Some? && t.model.value.progress.Some? ==>
      r == Report(t.model.value.status, t.model.value.progress, Some(Loading), None, None)
    ensures t.latest.None? && (t.model.None? || (t.model.value.progress.None? && !Runnable(t.model.value.status))) ==>
      && (t.download.None? && !grew ==> r.phase.None? && r.progress.None? && r.downloaded.None?)
      && (t.download.Some? || grew ==> r.phase == Some(Downloading))
      && (t.download.Some? ==> r.downloaded == Some(t.download.value.bytes))
      && (t.download.None? && grew && t.blobs.Some? ==> r.downloaded == Some(t.blobs.value.bytes))
      && (t.download.None? && grew && t.blobs.None? ==> r.downloaded == dirBytes && r.total.None? && r.progress.None?)
      && (t.download.Some? && t.download.value.fraction.Some? ==> r.progress == t.download.value.fraction)
      && (forall total :: t.download.Some? && t.download.value.total == Some(total) ==>
            r.total == if t.download.value.bytes <= total then Some(total) else None)
      && (forall total :: t.download.None? && grew && t.blobs.Some? && t.blobs.value.total == Some(total) ==>
            r.total == if t.blobs.value.bytes <= total then Some(total) else None)
  {
  }

  method Describe(t: Tick, dirBytes: Option<nat>, grew: bool) returns (r: Report)
    requires TotalOf(t) != Some(0)
    ensures IsReport(r, t, dirBytes, grew)
  {
    var phase := PhaseOf(t, grew);
    var downloaded: Option<nat> := None;
    var total: Option<nat> := None;
    var fraction: Option<real> := None;
    if phase == Some(Downloading) {
      downloaded, total, fraction := DownloadedOf(t, dirBytes), TotalOf(t), FractionOf(t);
      if fraction.None? && downloaded.Some? && total.Some? {
        var share := downloaded.value as real / total.value as real;
        ShareBounds(downloaded.value, total.value);
        fraction := Some(if share < 1.0 then share else 1.0);
      }
      if downloaded.Some? && total.Some? && downloaded.value > total.value {
        total, fraction := None, FractionOf(t);
      }
    }
    r := Report(if t.model.Some? then t.model.value.status else "unknown",
                if phase == Some(Downloading) then fraction else StageOf(t), phase, downloaded, total);
  }

  lemma ShareBounds(a: nat, b: nat)
    requires b > 0
    ensures var share := a as real / b as real; 0.0 <= share && (a <= b ==> share <= 1.0)
  {
  }

  // ----- the wait -----

  /** What the loop remembers before poll `n`. */
  datatype Memory = Memory(dirBytes: Option<nat>, grew: bool, lastProgressAt: int, lastStatus: Option<string>,
                           lastFrameAt: nat, everStarted: bool)

  ghost predicate Remembers(w: Wait, n: nat, m: Memory) {
    && m.dirBytes == DiskBefore(w, n) && (m.grew <==> n > 0 && GrewBy(w, n - 1)) && m.lastFrameAt == FrameBefore(w, n)
      && m.lastStatus == StatusBefore(w, n)
    && (m.everStarted <==> n > 0 && Started(w, n - 1))
    && Latest(w, n, m.lastProgressAt)
  }

  /** Progress detection: each signal of a poll moves the stall deadline. */
  method Notice(before: Memory, t: Tick) returns (m: Memory)
    ensures Noticed(before, t, m)
  {
    m := before;
    if t.disk.Some? && t.disk.value > SizeOf(m.dirBytes) {
      m := m.(dirBytes := t.disk, grew := true, lastProgressAt := t.seen);
    }
    if t.frameAt > m.lastFrameAt {
      m := m.(lastFrameAt := t.frameAt, lastProgressAt := t.seen);
    }
    var status := if t.model.Some? then Some(t.model.value.status) else None;
    if status != m.lastStatus {
      m := m.(lastStatus := status, lastProgressAt := t.seen);
    }
  }

  predicate Noticed(before: Memory, t: Tick, m: Memory) {
    var grew := t.disk.Some? && t.disk.value > SizeOf(before.dirBytes);
    var status := if t.model.Some? then Some(t.model.value.status) else None;
    && m.dirBytes == (if grew then t.disk else before.dirBytes) && m.grew == (before.grew || grew)
    && m.lastFrameAt == (if t.frameAt > before.lastFrameAt then t.frameAt else before.lastFrameAt)
    && m.lastStatus == status && m.everStarted == before.everStarted
    && m.lastProgressAt == (if grew || t.frameAt > before.lastFrameAt || status != before.lastStatus
                            then t.seen else before.lastProgressAt)
  }

  /** One report a poll, each about its own poll. */
  predicate Reported(w: Wait, reports: seq<Report>) {
    forall k :: 0 <= k < |reports| ==> IsReport(reports[k], w.ticks(k), DiskBefore(w, k + 1), GrewBy(w, k))
  }

  lemma ReportedMore(w: Wait, reports: seq<Report>, r: Report)
    requires Reported(w, reports)
    requires IsReport(r, w.ticks(|reports|), DiskBefore(w, |reports| + 1), GrewBy(w, |reports|))
    ensures Reported(w, reports + [r])
  {
    hide IsReport, DiskBefore, GrewBy;
  }

  /** The poll loop: it ends with the first poll that decides. */
  method PollUntilDecided(w: Wait) returns (outcome: Outcome, polls: nat, reports: seq<Report>)
    requires ClockRuns(w) && TotalsArePositive(w)
    ensures polls > 0 && Decision(w, polls - 1) == Some(outcome)
    ensures forall k :: 0 <= k < polls - 1 ==> Decision(w, k).None?
    ensures |reports| == polls && Reported(w, reports)
    ensures polls > 1 ==> (polls - 2) * w.limits.pollMs <= w.limits.absoluteMaxMs
  {
    hide Remembers, Decision, TotalOf, IsReport, GrewBy, Reported, DiskBefore, Noticed;
    assert Reported(w, []) by { NothingReported(w); }
    var m := Memory(w.disk, false, w.startedAt, Some(w.status), 0, false);
    assert Remembers(w, 0, m) by { AtTheStart(w); }
    polls, reports := 0, [];
    while true
      invariant |reports| == polls && Reported(w, reports)
      invariant forall k :: 0 <= k < polls ==> Decision(w, k).None?
      invariant Remembers(w, polls, m)
      invariant polls > 0 ==> (polls - 1) * w.limits.pollMs <= w.limits.absoluteMaxMs
      invariant polls > 0 ==> polls - 1 <= w.limits.absoluteMaxMs
      decreases if polls == 0 then 1 else 0, w.limits.absoluteMaxMs - polls + 1
    {
      var t := w.ticks(polls);
      var status := if t.model.Some? then Some(t.model.value.status) else None;
      ghost var before := m;
      m := Notice(m, t);
      var report := Describe(t, m.dirBytes, m.grew);
      NextMemory(w, polls, before, m);
      ReportedMore(w, reports, report);
      reports := reports + [report];
      polls := polls + 1;
      if status.Some? && Runnable(status.value) {
        return Loaded, polls, reports;
      }
      if status == Some("failed") || t.downloadFailed {
        return MarkedFailed, polls, reports;
      }
      if status.Some? && status != Some("unloaded") {
        m := m.(everStarted := true);
      }
      if !m.everStarted && status == Some("unloaded") && t.checked - w.startedAt > START_GRACE_MS
         && t.model.value.exitCode.Some? && t.model.value.exitCode.value != 0 {
        return DiedAtStart, polls, reports;
      }
      if t.checked - m.lastProgressAt > w.limits.stallMs {
        return Stalled, polls, reports;
      }
      if t.checked - w.startedAt > w.limits.absoluteMaxMs {
        return TookTooLong, polls, reports;
      }
      PollsTakeTime(w, polls - 1);
      AtLeastOneEach(polls - 1, w.limits.pollMs);
    }
  }

  lemma NothingReported(w: Wait)
    ensures Reported(w, [])
  {
  }

  lemma AtTheStart(w: Wait)
    ensures Remembers(w, 0, Memory(w.disk, false, w.startedAt, Some(w.status), 0, false))
  {
  }

  /** A poll's updates keep the memory true, and its checks ask what the whole history says. */
  lemma NextMemory(w: Wait, n: nat, before: Memory, m: Memory)
    requires ClockRuns(w) && Remembers(w, n, before)
    requires Noticed(before, w.ticks(n), m)
    ensures m.dirBytes == DiskBefore(w, n + 1) && m.grew == GrewBy(w, n)
    ensures var started := m.everStarted || (StatusAt(w, n).Some? && StatusAt(w, n) != Some("unloaded"));
      && Remembers(w, n + 1, m.(everStarted := started))
      && var t := w.ticks(n);
         Decision(w, n) ==
         if StatusAt(w, n).Some? && Runnable(StatusAt(w, n).value) then Some(Loaded)
         else if StatusAt(w, n) == Some("failed") || t.downloadFailed then Some(MarkedFailed)
         else if !started && StatusAt(w, n) == Some("unloaded") && t.checked - w.startedAt > START_GRACE_MS
                 && ExitedBadly(t.model.value) then Some(DiedAtStart)
         else if t.checked - m.lastProgressAt > w.limits.stallMs then Some(Stalled)
         else if t.checked - w.startedAt > w.limits.absoluteMaxMs then Some(TookTooLong)
         else None
  {
    hide Latest, Quiet, ClockRuns, DiskBefore, FrameBefore, Signal, Grew, GrewBy, Started, Noticed;
    LatestNext(w, n, before.lastProgressAt);
    SignalNoticed(w, n, before, m);
    GrewByNext(w, n);
    StartedNext(w, n);
  }

  lemma SignalNoticed(w: Wait, n: nat, before: Memory, m: Memory)
    requires before.dirBytes == DiskBefore(w, n) && before.lastFrameAt == FrameBefore(w, n)
    requires before.lastStatus == StatusBefore(w, n) && Noticed(before, w.ticks(n), m)
    ensures m.lastProgressAt == if Signal(w, n) then w.ticks(n).seen else before.lastProgressAt
    ensures m.dirBytes == DiskBefore(w, n + 1) && m.lastFrameAt == FrameBefore(w, n + 1)
    ensures m.lastStatus == StatusBefore(w, n + 1) && m.everStarted == before.everStarted
    ensures m.grew <==> before.grew || Grew(w, n)
  {
  }

  lemma GrewByNext(w: Wait, n: nat)
    ensures GrewBy(w, n) <==> (n > 0 && GrewBy(w, n - 1)) || Grew(w, n)
  {
    hide Grew;
  }

  lemma StartedNext(w: Wait, n: nat)
    ensures Started(w, n) <==>
      (n > 0 && Started(w, n - 1)) || (StatusAt(w, n).Some? && StatusAt(w, n) != Some("unloaded"))
  {
    hide StatusAt;
  }

  lemma {:induction false} AtLeastOneEach(n: nat, pollMs: nat)
    requires pollMs > 0
    ensures n <= n * pollMs
  {
    if n > 0 {
      AtLeastOneEach(n - 1, pollMs);
      assert n * pollMs == (n - 1) * pollMs + pollMs;
    }
  }

  /** `at` is when the last evidence before poll `n` was stamped, or the start of the wait. */
  ghost predicate Latest(w: Wait, n: nat, at: int) {
    && w.startedAt <= at
    && (at == w.startedAt || exists j :: 0 <= j < n && Signal(w, j) && w.ticks(j).seen == at)
    && forall j :: 0 <= j < n && Signal(w, j) ==> w.ticks(j).seen <= at
  }

  lemma LatestNext(w: Wait, n: nat, at: int)
    requires ClockRuns(w) && Latest(w, n, at)
    ensures var now := if Signal(w, n) then w.ticks(n).seen else at;
      Latest(w, n + 1, now) && (w.ticks(n).checked - now > w.limits.stallMs <==> Quiet(w, n))
  {
    hide Signal;
    PollsTakeTime(w, n);
    forall j | 0 <= j < n ensures w.ticks(j).seen <= w.ticks(n).seen {
      LaterPoll(w, j, n);
    }
  }

  lemma {:induction false} LaterPoll(w: Wait, j: nat, n: nat)
    requires ClockRuns(w) && j <= n
    ensures w.ticks(j).seen <= w.ticks(n).seen
    decreases n
  {
    if j < n {
      LaterPoll(w, j, n - 1);
      assert w.ticks(n - 1).checked + w.limits.pollMs <= w.ticks(n - 1 + 1).seen;
    }
  }

  /** Poll `n` happens no sooner than `n` delays after the start. */
  lemma {:induction false} PollsTakeTime(w: Wait, n: nat)
    requires ClockRuns(w)
    ensures w.startedAt + n * w.limits.pollMs <= w.ticks(n).seen
    decreases n
  {
    if n > 0 {
      PollsTakeTime(w, n - 1);
      assert w.ticks(n - 1).checked + w.limits.pollMs <= w.ticks(n - 1 + 1).seen;
      assert n * w.limits.pollMs == (n - 1) * w.limits.pollMs + w.limits.pollMs;
    }
  }

  // ----- what the outcome means -----

  predicate RunnableAt(w: Wait, k: nat) {
    StatusAt(w, k) == Some("loaded") || StatusAt(w, k) == Some("sleeping")
  }

  /** The repo directory holds something, and more than was measured at the start and at every poll before. */
  predicate IsLarger(w: Wait, k: nat) {
    && w.ticks(k).disk.Some? && w.ticks(k).disk.value > 0
    && (w.disk.Some? ==> w.disk.value < w.ticks(k).disk.value)
    && forall j :: 0 <= j < k && w.ticks(j).disk.Some? ==> w.ticks(j).disk.value < w.ticks(k).disk.value
  }

  /** A frame has arrived that no poll before had seen. */
  predicate HasNewFrame(w: Wait, k: nat) {
    w.ticks(k).frameAt > 0 && forall j :: 0 <= j < k ==> w.ticks(j).frameAt < w.ticks(k).frameAt
  }

  predicate HasEvidence(w: Wait, k: nat) {
    IsLarger(w, k) || HasNewFrame(w, k) || StatusAt(w, k) != if k == 0 then Some(w.status) else StatusAt(w, k - 1)
  }

  lemma {:induction false} DiskIsLargest(w: Wait, k: nat)
    ensures SizeOf(w.disk) <= SizeOf(DiskBefore(w, k))
    ensures forall j :: 0 <= j < k && w.ticks(j).disk.Some? ==> w.ticks(j).disk.value <= SizeOf(DiskBefore(w, k))
    ensures SizeOf(DiskBefore(w, k)) == SizeOf(w.disk)
      || exists j :: 0 <= j < k && w.ticks(j).disk == Some(SizeOf(DiskBefore(w, k)))
  {
    if k > 0 {
      DiskIsLargest(w, k - 1);
    }
  }

  lemma {:induction false} FrameIsLatest(w: Wait, k: nat)
    ensures forall j :: 0 <= j < k ==> w.ticks(j).frameAt <= FrameBefore(w, k)
    ensures FrameBefore(w, k) == 0 || exists j :: 0 <= j < k && w.ticks(j).frameAt == FrameBefore(w, k)
  {
    if k > 0 {
      FrameIsLatest(w, k - 1);
    }
  }

  lemma SignalIsEvidence(w: Wait, k: nat)
    ensures Signal(w, k) <==> HasEvidence(w, k)
  {
    hide DiskBefore, FrameBefore;
    DiskIsLargest(w, k);
    FrameIsLatest(w, k);
  }

  /** The child never got going: `unloaded` at every poll, and past the grace window with a bad exit code. */
  predicate IsDeadChild(w: Wait, k: nat) {
    && (forall j :: 0 <= j <= k ==> StatusAt(w, j).None? || StatusAt(w, j) == Some("unloaded"))
    && w.ticks(k).model.Some? && w.ticks(k).checked - w.startedAt > 3000
    && w.ticks(k).model.value.exitCode.Some? && w.ticks(k).model.value.exitCode.value != 0
  }

  /** The start and every piece of evidence lie further back than the stall window. */
  predicate IsSilent(w: Wait, k: nat) {
    && w.ticks(k).checked - w.startedAt > w.limits.stallMs
    && forall j :: 0 <= j <= k && HasEvidence(w, j) ==> w.ticks(k).checked - w.ticks(j).seen > w.limits.stallMs
  }

  predicate HasFailed(w: Wait, k: nat) {
    StatusAt(w, k) == Some("failed") || w.ticks(k).downloadFailed
  }

  predicate IsOverdue(w: Wait, k: nat) {
    w.ticks(k).checked - w.startedAt > w.limits.absoluteMaxMs
  }

  /** What ends a wait. */
  predicate MustEnd(w: Wait, k: nat) {
    RunnableAt(w, k) || HasFailed(w, k) || IsDeadChild(w, k) || IsSilent(w, k) || IsOverdue(w, k)
  }

  lemma DecisionIs(w: Wait, k: nat)
    ensures Decision(w, k).Some? <==> MustEnd(w, k)
    ensures Decision(w, k) == Some(Loaded) <==> RunnableAt(w, k)
    ensures Decision(w, k) == Some(MarkedFailed) <==> HasFailed(w, k) && !RunnableAt(w, k)
    ensures Decision(w, k) == Some(DiedAtStart) <==> IsDeadChild(w, k) && !HasFailed(w, k)
    ensures Decision(w, k) == Some(Stalled) <==>
      IsSilent(w, k) && !RunnableAt(w, k) && !HasFailed(w, k) && !IsDeadChild(w, k)
    ensures Decision(w, k) == Some(TookTooLong) <==>
      IsOverdue(w, k) && !IsSilent(w, k) && !RunnableAt(w, k) && !HasFailed(w, k) && !IsDeadChild(w, k)
    ensures Decision(w, k) != Some(NotNeeded)
  {
    hide Signal, HasEvidence;
    forall j: nat ensures Signal(w, j) <==> HasEvidence(w, j) {
      SignalIsEvidence(w, j);
    }
    assert !Started(w, k) <==> forall j :: 0 <= j <= k ==> StatusAt(w, j).None? || StatusAt(w, j) == Some("unloaded");
  }

  /**
   * The wait ends at the first poll that shows the model runnable or failed, its child dead at the start, or nothing
   * moving for too long, and tells which of these it was, in that order.
   */
  method EnsureModelRunnable(found: bool, w: Wait) returns (outcome: Outcome, polls: nat, reports: seq<Report>)
    requires ClockRuns(w) && TotalsArePositive(w)
    ensures outcome == NotNeeded <==> !found || w.status == "loaded" || w.status == "sleeping"
    ensures outcome == NotNeeded <==> polls == 0
    ensures |reports| == polls && Reported(w, reports)
    ensures polls > 1 ==> (polls - 2) * w.limits.pollMs <= w.limits.absoluteMaxMs
    ensures polls > 0 ==> MustEnd(w, polls - 1) && forall k :: 0 <= k < polls - 1 ==> !MustEnd(w, k)
    ensures polls > 0 ==>
      && (outcome == Loaded <==> RunnableAt(w, polls - 1))
      && (outcome == MarkedFailed <==> HasFailed(w, polls - 1) && !RunnableAt(w, polls - 1))
      && (outcome == DiedAtStart <==> IsDeadChild(w, polls - 1) && !HasFailed(w, polls - 1))
      && (outcome == TookTooLong ==> IsOverdue(w, polls - 1) && !IsSilent(w, polls - 1))
      && (outcome == Stalled ==> IsSilent(w, polls - 1))
  {
    hide Decision, Reported, ClockRuns, TotalsArePositive, MustEnd, IsSilent, IsDeadChild, HasFailed;
    if !found || Runnable(w.status) {
      NothingReported(w);
      return NotNeeded, 0, [];
    }
    outcome, polls, reports := PollUntilDecided(w);
    DecisionIs(w, polls - 1);
    forall k | 0 <= k < polls - 1 ensures !MustEnd(w, k) {
      DecisionIs(w, k);
    }
  }

  // ----- load progress -----

  /** What llama.cpp sends about a load: a bare number, or a stage among stages with or without a measurement. */
  datatype Frame = Bare(value: real) | Staged(stages: seq<string>, current: string, measured: Option<real>) | Unreadable

  function Clamp(x: real): (r: real)
    ensures 0.0 <= r <= 1.0
  {
    if x < 0.0 then 0.0 else if x > 1.0 then 1.0 else x
  }

  function StageIndex(stages: seq<string>, stage: string): (i: int)
    ensures -1 <= i < |stages|
  {
    if stages == [] then -1
    else if stages[0] == stage then 0
    else
      var i := StageIndex(stages[1..], stage);
      if i < 0 then -1 else i + 1
  }

  function RouterLoadProgress(f: Frame): (r: Option<real>)
    ensures r.Some? ==> 0.0 <= r.value <= 1.0
  {
    match f
    case Bare(value) => Some(Clamp(value))
    case Unreadable => None
    case Staged(stages, current, measured) =>
      if measured.None? then None
      else
        var value, index := Clamp(measured.value), StageIndex(stages, current);
        if stages == [] || index < 0 then Some(value)
        else Some(Clamp((index as real + value) / |stages| as real))
  }

  /** A measured stage counts as one part in as many as there are; a stage not listed is taken for the whole. */
  lemma FractionIs(stages: seq<string>, current: string, value: real, i: nat)
    requires 0.0 <= value <= 1.0
    ensures current !in stages ==> RouterLoadProgress(Staged(stages, current, Some(value))) == Some(value)
    ensures i < |stages| && stages[i] == current && current !in stages[..i] ==>
      RouterLoadProgress(Staged(stages, current, Some(value))) == Some((i as real + value) / |stages| as real)
    ensures RouterLoadProgress(Staged(stages, current, None)).None? && RouterLoadProgress(Unreadable).None?
    ensures RouterLoadProgress(Bare(value)) == Some(value)
  {
    StageFirst(stages, current);
    if i < |stages| && stages[i] == current && current !in stages[..i] {
      var n := |stages| as real;
      assert StageIndex(stages, current) == i;
      DivideMonotone(0.0, i as real + value, n);
      DivideMonotone(i as real + value, n, n);
    }
  }

  /** Values outside 0 to 1 count as the nearer end. */
  lemma FractionClamps(stages: seq<string>, current: string, value: real)
    ensures value < 0.0 ==>
      RouterLoadProgress(Staged(stages, current, Some(value))) == RouterLoadProgress(Staged(stages, current, Some(0.0)))
    ensures value > 1.0 ==>
      RouterLoadProgress(Staged(stages, current, Some(value))) == RouterLoadProgress(Staged(stages, current, Some(1.0)))
  {
  }

  lemma {:induction false} StageFirst(stages: seq<string>, stage: string)
    ensures var i := StageIndex(stages, stage);
      if stage in stages then 0 <= i < |stages| && stages[i] == stage && stage !in stages[..i] else i == -1
  {
    if stages != [] && stages[0] != stage {
      StageFirst(stages[1..], stage);
      var i := StageIndex(stages, stage);
      assert i >= 0 ==> stages[..i] == [stages[0]] + stages[1..][..i - 1];
      assert stages == [stages[0]] + stages[1..];
    }
  }

  /** A later stage, or a later value in the same stage. */
  predicate Advances(stages: seq<string>, f: Frame, g: Frame) {
    && f.Staged? && g.Staged? && f.stages == stages && g.stages == stages && f.measured.Some? && g.measured.Some?
    && 0 <= StageIndex(stages, f.current) <= StageIndex(stages, g.current)
    && (StageIndex(stages, f.current) == StageIndex(stages, g.current) ==> f.measured.value <= g.measured.value)
  }

  lemma DivideMonotone(a: real, b: real, n: real)
    requires a <= b && n > 0.0
    ensures a / n <= b / n
  {
  }

  /** Though every stage restarts its own value at zero, the reported progress does not move back. */
  lemma ProgressAdvances(stages: seq<string>, f: Frame, g: Frame)
    requires Advances(stages, f, g)
    ensures RouterLoadProgress(f).Some? && RouterLoadProgress(g).Some?
    ensures RouterLoadProgress(f).value <= RouterLoadProgress(g).value
  {
    var n := |stages| as real;
    var i, j := StageIndex(stages, f.current), StageIndex(stages, g.current);
    DivideMonotone(i as real + Clamp(f.measured.value), j as real + Clamp(g.measured.value), n);
  }

  /** The watcher's number: the last frame that measured anything. */
  function LatestOf(frames: seq<Frame>): (r: Option<real>) {
    if frames == [] then None
    else
      var last := RouterLoadProgress(frames[|frames| - 1]);
      if last.Some? then last else LatestOf(frames[..|frames| - 1])
  }

  /** That is: the frame at `i` measured, and none after it. */
  lemma {:induction false} LatestIs(frames: seq<Frame>, i: nat)
    ensures LatestOf(frames).None? <==> forall j :: 0 <= j < |frames| ==> RouterLoadProgress(frames[j]).None?
    ensures i < |frames| && RouterLoadProgress(frames[i]).Some?
            && (forall j :: i < j < |frames| ==> RouterLoadProgress(frames[j]).None?) ==>
      LatestOf(frames) == RouterLoadProgress(frames[i])
    decreases |frames|
  {
    hide RouterLoadProgress;
    if frames != [] {
      var n := |frames| - 1;
      LatestIs(frames[..n], i);
      assert forall j :: 0 <= j < n ==> frames[..n][j] == frames[j];
    }
  }

  predicate Measures(f: Frame) {
    f.Staged? && f.measured.Some?
  }

  predicate Orderly(stages: seq<string>, frames: seq<Frame>) {
    && (forall i :: 0 <= i < |frames| ==> RouterLoadProgress(frames[i]).Some? ==> Measures(frames[i]))
    && (forall i, j :: 0 <= i <= j < |frames| && Measures(frames[i]) && Measures(frames[j]) ==>
         Advances(stages, frames[i], frames[j]))
  }

  lemma {:induction false} LatestMeasures(frames: seq<Frame>) returns (i: nat)
    requires LatestOf(frames).Some?
    ensures i < |frames| && RouterLoadProgress(frames[i]) == LatestOf(frames)
    decreases |frames|
  {
    var n := |frames| - 1;
    if RouterLoadProgress(frames[n]).Some? {
      i := n;
    } else {
      i := LatestMeasures(frames[..n]);
    }
  }

  /** While frames advance by stage and value, unmeasured ones in between, the watcher's number never moves back. */
  lemma WatchedProgressNeverRewinds(stages: seq<string>, frames: seq<Frame>, next: Frame)
    requires Orderly(stages, frames + [next]) && LatestOf(frames).Some?
    ensures LatestOf(frames + [next]).Some? && LatestOf(frames).value <= LatestOf(frames + [next]).value
  {
    hide RouterLoadProgress, Advances, Measures;
    var all := frames + [next];
    assert all[..|all| - 1] == frames;
    if RouterLoadProgress(next).Some? {
      var i := LatestMeasures(frames);
      assert all[i] == frames[i] && all[|frames|] == next;
      assert Measures(all[i]) && Measures(all[|frames|]);
      ProgressAdvances(stages, all[i], all[|frames|]);
    }
  }

  // ----- download frames -----

  /** One file of a download frame; a field is absent where it is not a usable number. */
  datatype FileProgress = FileProgress(done: Option<nat>, total: Option<nat>)

  function DoneOf(files: seq<FileProgress>): nat {
    if files == [] then 0
    else
      var f := files[|files| - 1];
      DoneOf(files[..|files| - 1]) + if f.done.Some? then f.done.value else 0
  }

  function TotalsOf(files: seq<FileProgress>): nat {
    if files == [] then 0
    else
      var f := files[|files| - 1];
      TotalsOf(files[..|files| - 1]) + if f.done.Some? && f.total.Some? then f.total.value else 0
  }

  /** Wherever a file stands in the frame it adds what it reports, and its total where it reports at all. */
  lemma {:induction false} FilesAdd(a: seq<FileProgress>, f: FileProgress, b: seq<FileProgress>)
    ensures DoneOf([]) == 0 && TotalsOf([]) == 0
    ensures f.done.None? ==>
      DoneOf(a + [f] + b) == DoneOf(a) + DoneOf(b) && TotalsOf(a + [f] + b) == TotalsOf(a) + TotalsOf(b)
    ensures f.done.Some? ==> DoneOf(a + [f] + b) == DoneOf(a) + f.done.value + DoneOf(b)
    ensures f.done.Some? && f.total.Some? ==> TotalsOf(a + [f] + b) == TotalsOf(a) + f.total.value + TotalsOf(b)
    decreases |b|
  {
    var all := a + [f] + b;
    var n := |all| - 1;
    if b == [] {
      assert all[n] == f && all[..n] == a;
    } else {
      assert all[n] == b[|b| - 1] && all[..n] == a + [f] + b[..|b| - 1];
      FilesAdd(a, f, b[..|b| - 1]);
    }
  }

  predicate Priced(f: FileProgress) {
    f.done.Some? ==> f.total.Some? && f.total.value > 0
  }

  /** Sums over the files that report bytes; a total only when every one of those knows its own. */
  method RouterDownloadProgress(files: seq<FileProgress>) returns (r: Option<Download>)
    ensures r.Some? <==> exists f :: f in files && f.done.Some?
    ensures r.Some? ==> r.value.bytes == DoneOf(files)
    ensures r.Some? ==> (r.value.total.Some? <==> forall f :: f in files ==> Priced(f))
    ensures r.Some? && r.value.total.Some? ==> r.value.total.value == TotalsOf(files) > 0
    ensures r.Some? ==> (r.value.fraction.Some? <==> r.value.total.Some?)
    ensures r.Some? && r.value.fraction.Some? ==>
      r.value.fraction.value == Clamp(r.value.bytes as real / r.value.total.value as real)
  {
    var downloaded, total, sawFile, everyTotalKnown := 0, 0, false, true;
    for i := 0 to |files|
      invariant downloaded == DoneOf(files[..i])
      invariant sawFile <==> exists f :: f in files[..i] && f.done.Some?
      invariant everyTotalKnown <==> forall f :: f in files[..i] ==> Priced(f)
      invariant everyTotalKnown ==> total == TotalsOf(files[..i])
      invariant sawFile && everyTotalKnown ==> total > 0
    {
      assert files[..i + 1] == files[..i] + [files[i]] && files[..i + 1][..i] == files[..i];
      var entry := files[i];
      assert entry in files[..i + 1];
      assert forall f :: f in files[..i + 1] <==> f in files[..i] || f == entry;
      if entry.done.Some? {
        sawFile, downloaded := true, downloaded + entry.done.value;
        if entry.total.Some? && entry.total.value > 0 {
          total := total + entry.total.value;
        } else {
          everyTotalKnown := false;
        }
      }
    }
    assert files[..|files|] == files;
    if !sawFile {
      return None;
    }
    if !everyTotalKnown || total <= 0 {
      return Some(Download(downloaded, None, None));
    }
    r := Some(Download(downloaded, Some(total), Some(Clamp(downloaded as real / total as real))));
  }
}
