/**
 * Whether an accepted message leaves room to answer: exactly when, for the images it turns out to send, and for
 * every way its documents may render, from the documents alone.
 */
module ReplyRoom {
  import opened Text
  import opened Attachments

  /** Exhaustion is one comparison with the minimum window, whatever is sent, images or none. */
  lemma ExhaustedExactly(contextSize: int, images: nat)
    ensures IsReplyBudgetExhausted(contextSize, PI_AGENT_PROMPT_TOKENS + images * PI_ESTIMATED_IMAGE_TOKENS)
      <==> 0 < contextSize < MinimumContextSizeForImages(images, PI_AGENT_PROMPT_TOKENS)
  {
    if contextSize > 0 {
      ExhaustedIff(contextSize, PI_AGENT_PROMPT_TOKENS + images * PI_ESTIMATED_IMAGE_TOKENS);
    }
  }

  // ----- what the documents fix and what they leave open -----

  /** A scan whose pages were never counted. */
  predicate Uncounted(u: Upload) {
    PdfNeedsPageImages(u) && u.pageCount.None?
  }

  /** The rendering gives every counted scan its recorded number of pages. */
  predicate Agrees(uploads: seq<Upload>, pages: Pages) {
    forall u :: u in uploads && PdfNeedsPageImages(u) && u.pageCount.Some? ==> |pages(u)| == u.pageCount.value
  }

  function FixedImagesOf(u: Upload): nat {
    if Uncounted(u) then 0 else ImagesOf(u)
  }

  /** The images a message sends whatever its uncounted scans hold. */
  function FixedImages(uploads: seq<Upload>): nat {
    if uploads == [] then 0 else FixedImages(uploads[..|uploads| - 1]) + FixedImagesOf(uploads[|uploads| - 1])
  }

  function FixedItemsOf(u: Upload): nat {
    if PdfNeedsPageImages(u) then FixedImagesOf(u) else 1
  }

  function FixedItems(uploads: seq<Upload>): nat {
    if uploads == [] then 0 else FixedItems(uploads[..|uploads| - 1]) + FixedItemsOf(uploads[|uploads| - 1])
  }

  function FixedBytesOf(u: Upload): nat {
    if PdfNeedsPageImages(u) then 0 else u.size
  }

  function FixedBytes(uploads: seq<Upload>): nat {
    if uploads == [] then 0 else FixedBytes(uploads[..|uploads| - 1]) + FixedBytesOf(uploads[|uploads| - 1])
  }

  /** The pages the uncounted scans render to, each as often as it is referred to. */
  function OpenPages(uploads: seq<Upload>, count: Upload -> nat): nat {
    if uploads == [] then 0
    else
      var u := uploads[|uploads| - 1];
      OpenPages(uploads[..|uploads| - 1], count) + if Uncounted(u) then count(u) else 0
  }

  function RenderedPages(pages: Pages, budget: nat): Upload -> nat {
    (u: Upload) => Min(|pages(u)|, Min(budget, MAX_RENDERED_PDF_PAGES))
  }

  lemma OneExpands(u: Upload, pages: Pages, budget: nat)
    requires PdfNeedsPageImages(u) && u.pageCount.Some? ==> |pages(u)| == PagesOf(u) <= budget <= MAX_RENDERED_PDF_PAGES
    ensures var sent := Expand(u, pages, budget);
      var more := if Uncounted(u) then RenderedPages(pages, budget)(u) else 0;
      && ImagesIn(sent) == FixedImagesOf(u) + more && |sent| == FixedItemsOf(u) + more
      && FixedBytesOf(u) <= TotalBytes(sent)
      && ((forall i :: 0 <= i < |pages(u)| ==> pages(u)[i] == 0) ==> TotalBytes(sent) == FixedBytesOf(u))
  {
    hide PdfNeedsPageImages;
    var sent := Expand(u, pages, budget);
    if PdfNeedsPageImages(u) {
      var n := RenderedPages(pages, budget)(u);
      PagesAreImages(u, pages(u)[..n]);
      if forall i :: 0 <= i < |pages(u)| ==> pages(u)[i] == 0 {
        ZeroPagesWeighNothing(sent);
      }
    } else {
      assert sent == [Attachment(Whole(u.id), u.kind, u.size)] && sent[..0] == [];
    }
  }

  lemma {:induction false} ZeroPagesWeighNothing(sent: seq<Attachment>)
    requires forall i :: 0 <= i < |sent| ==> sent[i].size == 0
    ensures TotalBytes(sent) == 0
    decreases |sent|
  {
    if sent != [] {
      ZeroPagesWeighNothing(sent[..|sent| - 1]);
    }
  }

  predicate WithinPages(uploads: seq<Upload>, budget: nat) {
    budget <= MAX_RENDERED_PDF_PAGES && forall u :: u in uploads && PdfNeedsPageImages(u) ==> PagesOf(u) <= budget
  }

  /** What is sent is what the documents fix plus the pages they leave open. */
  lemma {:induction false} SentIsFixedAndOpen(uploads: seq<Upload>, pages: Pages, budget: nat)
    requires Agrees(uploads, pages) && WithinPages(uploads, budget)
    ensures var sent := Expansion(uploads, pages, budget);
      var open := OpenPages(uploads, RenderedPages(pages, budget));
      && ImagesIn(sent) == FixedImages(uploads) + open && |sent| == FixedItems(uploads) + open
      && FixedBytes(uploads) <= TotalBytes(sent)
      && ((forall u, i :: u in uploads && 0 <= i < |pages(u)| ==> pages(u)[i] == 0) ==>
           TotalBytes(sent) == FixedBytes(uploads))
    decreases |uploads|
  {
    hide PdfNeedsPageImages, Expand, ImagesIn, TotalBytes, FixedImagesOf, FixedItemsOf, FixedBytesOf, RenderedPages;
    if uploads == [] {
      NoImages();
      NothingWeighsNothing();
    } else {
      var n := |uploads| - 1;
      var u, init := uploads[n], uploads[..n];
      assert u in uploads && uploads == init + [u];
      assert forall x :: x in init ==> x in uploads;
      SentIsFixedAndOpen(init, pages, budget);
      OneExpands(u, pages, budget);
      ImagesAppend(Expansion(init, pages, budget), Expand(u, pages, budget));
      TotalAppend(Expansion(init, pages, budget), Expand(u, pages, budget));
    }
  }

  // ----- the most pages the open scans can add -----

  function Times(uploads: seq<Upload>, u: Upload): nat {
    if uploads == [] then 0
    else Times(uploads[..|uploads| - 1], u) + if uploads[|uploads| - 1] == u then 1 else 0
  }

  function Others(uploads: seq<Upload>, u: Upload): (r: seq<Upload>)
    ensures |r| <= |uploads| && u !in r
    ensures forall x :: x in r <==> x in uploads && x != u
  {
    if uploads == [] then []
    else
      var n := |uploads| - 1;
      assert uploads == uploads[..n] + [uploads[n]];
      Others(uploads[..n], u) + if uploads[n] == u then [] else [uploads[n]]
  }

  lemma OthersShrink(uploads: seq<Upload>)
    requires uploads != []
    ensures |Others(uploads, uploads[|uploads| - 1])| < |uploads|
  {
  }

  /**
   * The largest number of pages within `cap` that the uncounted scans can add, each rendering at most `budget`:
   * the same document renders the same each time it is referred to.
   */
  function Largest(uploads: seq<Upload>, budget: nat, cap: nat): nat
    decreases |uploads|, 0
  {
    if uploads == [] then 0
    else
      var u := uploads[|uploads| - 1];
      OthersShrink(uploads);
      if Uncounted(u) then LargestWith(Others(uploads, u), Times(uploads, u), budget, cap, budget)
      else Largest(Others(uploads, u), budget, cap)
  }

  /** With one scan, referred to `times` times, rendering at most `n` pages. */
  function LargestWith(others: seq<Upload>, times: nat, budget: nat, cap: nat, n: nat): nat
    decreases |others|, n + 1
  {
    var fewer := if n == 0 then Largest(others, budget, cap) else LargestWith(others, times, budget, cap, n - 1);
    if n > 0 && times * n <= cap then Larger(fewer, times * n + Largest(others, budget, cap - times * n)) else fewer
  }

  function Larger(a: nat, b: nat): nat {
    if a < b then b else a
  }

  lemma OthersOfLast(uploads: seq<Upload>, u: Upload)
    requires uploads != []
    ensures var n := |uploads| - 1;
      && Others(uploads, u) == Others(uploads[..n], u) + (if uploads[n] == u then [] else [uploads[n]])
      && Times(uploads, u) == Times(uploads[..n], u) + if uploads[n] == u then 1 else 0
  {
  }

  lemma OpenPagesMore(uploads: seq<Upload>, u: Upload, count: Upload -> nat)
    ensures OpenPages(uploads + [u], count) == OpenPages(uploads, count) + if Uncounted(u) then count(u) else 0
  {
    hide Uncounted;
    assert (uploads + [u])[..|uploads|] == uploads;
  }

  lemma {:induction false} OpenPagesApart(uploads: seq<Upload>, u: Upload, count: Upload -> nat)
    ensures OpenPages(uploads, count)
      == OpenPages(Others(uploads, u), count) + if Uncounted(u) then Times(uploads, u) * count(u) else 0
    decreases |uploads|
  {
    hide Uncounted, Others, Times, OpenPages;
    if uploads == [] {
      NothingOpen(count);
      NotAmong(uploads, u);
    } else {
      var n := |uploads| - 1;
      var init, last := uploads[..n], uploads[n];
      assert uploads == init + [last];
      OpenPagesApart(init, u, count);
      OthersOfLast(uploads, u);
      OpenPagesMore(init, last, count);
      if last == u {
        assert Others(init, u) + [] == Others(init, u);
        Once(Times(init, u), count(u));
      } else {
        OpenPagesMore(Others(init, u), last, count);
      }
    }
  }

  lemma Once(times: nat, n: nat)
    ensures (times + 1) * n == times * n + n
  {
  }

  lemma {:induction false} SameOpenPages(uploads: seq<Upload>, a: Upload -> nat, b: Upload -> nat)
    requires forall u :: u in uploads ==> a(u) == b(u)
    ensures OpenPages(uploads, a) == OpenPages(uploads, b)
    decreases |uploads|
  {
    hide Uncounted;
    if uploads != [] {
      var n := |uploads| - 1;
      assert uploads == uploads[..n] + [uploads[n]];
      SameOpenPages(uploads[..n], a, b);
    }
  }

  predicate Bounded(uploads: seq<Upload>, count: Upload -> nat, budget: nat) {
    forall u :: u in uploads && Uncounted(u) ==> count(u) <= budget
  }

  /** No rendering that fits adds more. */
  lemma {:induction false} LargestIsABound(uploads: seq<Upload>, budget: nat, cap: nat, count: Upload -> nat)
    requires Bounded(uploads, count, budget) && OpenPages(uploads, count) <= cap
    ensures OpenPages(uploads, count) <= Largest(uploads, budget, cap)
    decreases |uploads|, 0
  {
    hide Uncounted, OpenPages, LargestWith;
    if uploads == [] {
      NothingOpen(count);
    } else {
      var u := uploads[|uploads| - 1];
      var others := Others(uploads, u);
      OthersShrink(uploads);
      OpenPagesApart(uploads, u, count);
      if Uncounted(u) {
        assert u in uploads;
        LargestWithIsABound(others, Times(uploads, u), budget, cap, budget, count, count(u));
      } else {
        LargestIsABound(others, budget, cap, count);
      }
    }
  }

  lemma NothingOpen(count: Upload -> nat)
    ensures OpenPages([], count) == 0
  {
  }

  lemma {:induction false} LargestWithIsABound(others: seq<Upload>, times: nat, budget: nat, cap: nat, n: nat,
                                               count: Upload -> nat, k: nat)
    requires Bounded(others, count, budget) && k <= n && times * k + OpenPages(others, count) <= cap
    ensures times * k + OpenPages(others, count) <= LargestWith(others, times, budget, cap, n)
    decreases |others|, n + 1
  {
    hide Uncounted, OpenPages, Largest, Bounded;
    if k == n {
      LargestIsABound(others, budget, cap - times * k, count);
    } else {
      LargestWithIsABound(others, times, budget, cap, n - 1, count, k);
    }
  }

  /** Some rendering that fits adds as much. */
  lemma {:induction false} LargestIsReached(uploads: seq<Upload>, budget: nat, cap: nat) returns (count: Upload -> nat)
    ensures Bounded(uploads, count, budget)
    ensures OpenPages(uploads, count) == Largest(uploads, budget, cap) <= cap
    decreases |uploads|, 0
  {
    hide Uncounted, OpenPages, LargestWith;
    if uploads == [] {
      count := (u: Upload) => 0;
      NothingOpen(count);
    } else {
      var u := uploads[|uploads| - 1];
      var others := Others(uploads, u);
      OthersShrink(uploads);
      var rest: Upload -> nat;
      var k: nat := 0;
      if Uncounted(u) {
        rest, k := LargestWithIsReached(others, Times(uploads, u), budget, cap, budget);
      } else {
        rest := LargestIsReached(others, budget, cap);
      }
      count := (x: Upload) => if x == u then k else rest(x);
      OpenPagesApart(uploads, u, count);
      SameOpenPages(others, count, rest);
    }
  }

  lemma {:induction false} LargestWithIsReached(others: seq<Upload>, times: nat, budget: nat, cap: nat, n: nat)
    returns (count: Upload -> nat, k: nat)
    ensures Bounded(others, count, budget) && k <= n
    ensures times * k + OpenPages(others, count) == LargestWith(others, times, budget, cap, n) <= cap
    decreases |others|, n + 1
  {
    hide Uncounted, OpenPages, Largest, Bounded;
    if n == 0 {
      count := LargestIsReached(others, budget, cap);
      k := 0;
    } else {
      count, k := LargestWithIsReached(others, times, budget, cap, n - 1);
      if times * n <= cap
        && times * n + Largest(others, budget, cap - times * n) > times * k + OpenPages(others, count) {
        count := LargestIsReached(others, budget, cap - times * n);
        k := n;
      }
    }
  }

  // ----- exactly when room is always left -----

  /** What can be told before anything is rendered: some agreeing rendering of the message is accepted. */
  predicate Sendable(uploads: seq<Upload>, m: Model) {
    && WithinBudget(uploads, m) && Renderable(uploads, m)
    && FixedItems(uploads) <= MAX_FILES && FixedBytes(uploads) <= MAX_DRAFT_BYTES
  }

  /** The most images the message can come to send: those fixed, and open pages up to the files a message may hold. */
  function WorstCase(uploads: seq<Upload>, m: Model): nat {
    FixedImages(uploads)
    + if FixedItems(uploads) > MAX_FILES then 0 else Largest(uploads, PageBudget(m), MAX_FILES - FixedItems(uploads))
  }

  lemma BudgetBounds(uploads: seq<Upload>, m: Model)
    requires WithinBudget(uploads, m)
    ensures WithinPages(uploads, PageBudget(m))
  {
    hide PdfNeedsPageImages, MaxAffordableImages;
  }

  /** An accepted rendering is one of a sendable message, and sends no more images than the worst case. */
  lemma AcceptedWithinWorst(uploads: seq<Upload>, m: Model, pages: Pages)
    requires Agrees(uploads, pages) && Acceptable(uploads, m, pages)
    ensures Sendable(uploads, m) && ImagesIn(Expansion(uploads, pages, PageBudget(m))) <= WorstCase(uploads, m)
  {
    hide WithinBudget, Renderable, Agrees, PageBudget, OpenPages, Largest, Expansion, RenderedPages, WithinPages;
    var budget := PageBudget(m);
    BudgetBounds(uploads, m);
    SentIsFixedAndOpen(uploads, pages, budget);
    RenderedIsBounded(uploads, pages, budget);
    LargestIsABound(uploads, budget, MAX_FILES - FixedItems(uploads), RenderedPages(pages, budget));
  }

  lemma RenderedIsBounded(uploads: seq<Upload>, pages: Pages, budget: nat)
    ensures Bounded(uploads, RenderedPages(pages, budget), budget)
  {
  }

  function Blank(n: nat): (r: seq<nat>)
    ensures |r| == n && forall i :: 0 <= i < n ==> r[i] == 0
  {
    seq(n, i => 0)
  }

  /** The rendering that gives each document a chosen number of empty pages. */
  function Rendering(count: Upload -> nat): Pages {
    (u: Upload) => if u.pageCount.Some? then Blank(u.pageCount.value) else Blank(count(u))
  }

  lemma RenderingAgrees(uploads: seq<Upload>, count: Upload -> nat, budget: nat)
    requires Bounded(uploads, count, budget) && budget <= MAX_RENDERED_PDF_PAGES
    ensures Agrees(uploads, Rendering(count))
    ensures OpenPages(uploads, RenderedPages(Rendering(count), budget)) == OpenPages(uploads, count)
    ensures forall u, i :: u in uploads && 0 <= i < |Rendering(count)(u)| ==> Rendering(count)(u)[i] == 0
  {
    hide PdfNeedsPageImages;
    OpenOnly(uploads, RenderedPages(Rendering(count), budget), count);
  }

  lemma {:induction false} OpenOnly(uploads: seq<Upload>, a: Upload -> nat, b: Upload -> nat)
    requires forall u :: u in uploads && Uncounted(u) ==> a(u) == b(u)
    ensures OpenPages(uploads, a) == OpenPages(uploads, b)
    decreases |uploads|
  {
    hide Uncounted;
    if uploads != [] {
      var n := |uploads| - 1;
      assert uploads == uploads[..n] + [uploads[n]];
      OpenOnly(uploads[..n], a, b);
    }
  }

  /** Every sendable message has an accepted rendering that sends the worst case. */
  lemma WorstIsAccepted(uploads: seq<Upload>, m: Model) returns (pages: Pages)
    requires Sendable(uploads, m)
    ensures Agrees(uploads, pages) && Acceptable(uploads, m, pages)
    ensures ImagesIn(Expansion(uploads, pages, PageBudget(m))) == WorstCase(uploads, m)
  {
    hide WithinBudget, Renderable, Agrees, PageBudget, OpenPages, Largest, Expansion, RenderedPages, WithinPages,
         Rendering, Bounded;
    var budget := PageBudget(m);
    BudgetBounds(uploads, m);
    SmallBudget(uploads, m);
    var count := LargestIsReached(uploads, budget, MAX_FILES - FixedItems(uploads));
    pages := Rendering(count);
    RenderingAgrees(uploads, count, budget);
    SentIsFixedAndOpen(uploads, pages, budget);
  }

  lemma SmallBudget(uploads: seq<Upload>, m: Model)
    ensures PageBudget(m) <= MAX_RENDERED_PDF_PAGES
  {
    hide MaxAffordableImages;
  }

  /** However the documents render within their recorded counts, an accepted message leaves room for its reply. */
  ghost predicate RoomAlwaysLeft(uploads: seq<Upload>, contextSize: int, vision: Option<bool>) {
    var m := Model(Some(contextSize), vision);
    forall pages: Pages :: Agrees(uploads, pages) && Acceptable(uploads, m, pages) ==>
      !IsReplyBudgetExhausted(contextSize, PI_AGENT_PROMPT_TOKENS
        + ImagesIn(Expansion(uploads, pages, PageBudget(m))) * PI_ESTIMATED_IMAGE_TOKENS)
  }

  /**
   * Room is always left exactly when the message is refused outright, or the window reaches the minimum for the
   * most images the documents can come to.
   */
  lemma RoomAlwaysLeftIff(uploads: seq<Upload>, contextSize: int, vision: Option<bool>)
    ensures var m := Model(Some(contextSize), vision);
      RoomAlwaysLeft(uploads, contextSize, vision) <==>
        !Sendable(uploads, m) || contextSize <= 0
        || contextSize >= MinimumContextSizeForImages(WorstCase(uploads, m), PI_AGENT_PROMPT_TOKENS)
  {
    hide Agrees, Acceptable, Sendable, WorstCase, Expansion, ImagesIn, PageBudget, IsReplyBudgetExhausted;
    var m := Model(Some(contextSize), vision);
    forall pages: Pages | Agrees(uploads, pages) && Acceptable(uploads, m, pages)
      ensures Sendable(uploads, m)
      ensures IsReplyBudgetExhausted(contextSize, PI_AGENT_PROMPT_TOKENS
                + ImagesIn(Expansion(uploads, pages, PageBudget(m))) * PI_ESTIMATED_IMAGE_TOKENS) ==>
        0 < contextSize < MinimumContextSizeForImages(WorstCase(uploads, m), PI_AGENT_PROMPT_TOKENS)
    {
      AcceptedWithinWorst(uploads, m, pages);
      ExhaustedExactly(contextSize, ImagesIn(Expansion(uploads, pages, PageBudget(m))));
    }
    if Sendable(uploads, m) {
      var pages := WorstIsAccepted(uploads, m);
      ExhaustedExactly(contextSize, WorstCase(uploads, m));
    }
  }

  /** A message without a single attachment, accepted on a window of 8192 that cannot hold its reply. */
  lemma PlainMessageOverruns(vision: Option<bool>, pages: Pages)
    ensures Acceptable([], Model(Some(8192), vision), pages)
    ensures ImagesIn(Expansion([], pages, PageBudget(Model(Some(8192), vision)))) == 0
    ensures IsReplyBudgetExhausted(8192, PI_AGENT_PROMPT_TOKENS)
    ensures !RoomAlwaysLeft([], 8192, vision)
  {
    var m := Model(Some(8192), vision);
    var none: seq<Upload> := [];
    assert Expansion(none, pages, PageBudget(m)) == [];
    assert Agrees(none, pages) && Acceptable(none, m, pages);
  }

  // ----- the worst case in closed form -----

  function OpenScans(uploads: seq<Upload>): nat {
    if uploads == [] then 0
    else OpenScans(uploads[..|uploads| - 1]) + if Uncounted(uploads[|uploads| - 1]) then 1 else 0
  }

  predicate ReferredOnce(uploads: seq<Upload>) {
    forall i, j :: 0 <= i < j < |uploads| ==> uploads[i] != uploads[j]
  }

  lemma {:induction false} NotAmong(uploads: seq<Upload>, u: Upload)
    requires u !in uploads
    ensures Times(uploads, u) == 0 && Others(uploads, u) == uploads
    decreases |uploads|
  {
    if uploads != [] {
      var n := |uploads| - 1;
      assert uploads == uploads[..n] + [uploads[n]];
      NotAmong(uploads[..n], u);
    }
  }

  /** When no document is referred to twice: the page budget for each open scan, as far as files are left. */
  lemma {:induction false} LargestOnce(uploads: seq<Upload>, budget: nat, cap: nat)
    requires ReferredOnce(uploads)
    ensures Largest(uploads, budget, cap) == Min(OpenScans(uploads) * budget, cap)
    decreases |uploads|, 0
  {
    hide Uncounted, LargestWith;
    if uploads != [] {
      var n := |uploads| - 1;
      var u, init := uploads[n], uploads[..n];
      assert uploads == init + [u];
      NotAmong(init, u);
      assert Others(uploads, u) == init && Times(uploads, u) == 1;
      if Uncounted(u) {
        LargestWithOnce(init, budget, cap, budget);
        Once(OpenScans(init), budget);
      } else {
        LargestOnce(init, budget, cap);
      }
    }
  }

  lemma {:induction false} LargestWithOnce(others: seq<Upload>, budget: nat, cap: nat, n: nat)
    requires ReferredOnce(others) && n <= budget
    ensures LargestWith(others, 1, budget, cap, n) == Min(OpenScans(others) * budget + n, cap)
    decreases |others|, n + 1
  {
    hide Largest, OpenScans, ReferredOnce;
    if n == 0 {
      LargestOnce(others, budget, cap);
    } else {
      LargestWithOnce(others, budget, cap, n - 1);
      if n <= cap {
        LargestOnce(others, budget, cap - n);
      }
    }
  }

  /** The worst case of a message that refers to each document once. */
  lemma WorstCaseOnce(uploads: seq<Upload>, m: Model)
    requires ReferredOnce(uploads) && FixedItems(uploads) <= MAX_FILES
    ensures WorstCase(uploads, m)
      == FixedImages(uploads) + Min(OpenScans(uploads) * PageBudget(m), MAX_FILES - FixedItems(uploads))
  {
    hide Largest, PageBudget, OpenScans;
    LargestOnce(uploads, PageBudget(m), MAX_FILES - FixedItems(uploads));
  }
}
