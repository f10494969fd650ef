/**
 * What a message may carry: how many images a context window can answer to, and the expansion of uploads into
 * the attachments a run is given.
 */
module Attachments {
  import opened Text

  // ----- the reply budget -----

  const PI_CONTEXT_SAFETY_TOKENS := 4096
  const PI_MIN_MAX_TOKENS := 1
  const PI_ESTIMATED_IMAGE_TOKENS := 1200
  const PI_AGENT_PROMPT_TOKENS := 9439
  const MIN_USABLE_REPLY_TOKENS := 256
  const MAX_REPLY_TOKENS := 8192

  function Min(a: int, b: int): int {
    if a < b then a else b
  }

  function Max(a: int, b: int): int {
    if a < b then b else a
  }

  function ReplyTokenBudget(contextSize: int): int {
    if contextSize <= 0 then 1024 else Max(1024, Min(MAX_REPLY_TOKENS, contextSize / 4))
  }

  function AvailableReplyTokens(contextSize: int, promptTokens: int): int {
    if contextSize <= 0 then ReplyTokenBudget(contextSize)
    else Min(ReplyTokenBudget(contextSize),
             Max(PI_MIN_MAX_TOKENS, contextSize - promptTokens - PI_CONTEXT_SAFETY_TOKENS))
  }

  /** A quarter of the window, rounded down, held between 1024 and 8192; 1024 without a window. */
  lemma BudgetIs(contextSize: int)
    ensures var budget := ReplyTokenBudget(contextSize);
      && 1024 <= budget <= 8192
      && (budget > 1024 ==> contextSize > 0 && 4 * budget <= contextSize)
      && (budget < 8192 ==> contextSize < 4 * (budget + 1) || contextSize <= 0)
  {
  }

  /** The most a reply can have: within its budget, and in the room behind prompt and margin while that has any. */
  lemma AvailableIs(contextSize: int, promptTokens: nat)
    ensures var reply, budget := AvailableReplyTokens(contextSize, promptTokens), ReplyTokenBudget(contextSize);
      && 1 <= reply <= budget
      && (contextSize <= 0 ==> reply == 1024)
      && (contextSize > 0 ==>
            && (promptTokens + 4096 + reply <= contextSize || reply == 1)
            && (promptTokens + 4096 + reply >= contextSize || reply == budget))
  {
  }

  function MinimumUsableContextSize(promptTokens: int): int {
    promptTokens + PI_CONTEXT_SAFETY_TOKENS + MIN_USABLE_REPLY_TOKENS
  }

  predicate IsReplyBudgetExhausted(contextSize: int, promptTokens: int) {
    AvailableReplyTokens(contextSize, promptTokens) < MIN_USABLE_REPLY_TOKENS
  }

  function MinimumContextSizeForImages(imageCount: nat, basePromptTokens: int): int {
    MinimumUsableContextSize(basePromptTokens + imageCount * PI_ESTIMATED_IMAGE_TOKENS)
  }

  function MaxAffordableImages(contextSize: int, basePromptTokens: int): nat {
    var room := contextSize - basePromptTokens - PI_CONTEXT_SAFETY_TOKENS - MIN_USABLE_REPLY_TOKENS;
    if room <= 0 then 0 else room / PI_ESTIMATED_IMAGE_TOKENS
  }

  /** Images are affordable exactly on windows of at least the size the refusal names. */
  lemma AffordableIff(contextSize: int, basePromptTokens: int, n: nat)
    requires n >= 1
    ensures n <= MaxAffordableImages(contextSize, basePromptTokens)
      <==> contextSize >= MinimumContextSizeForImages(n, basePromptTokens)
  {
    var room := contextSize - basePromptTokens - PI_CONTEXT_SAFETY_TOKENS - MIN_USABLE_REPLY_TOKENS;
    if room > 0 {
      var q := room / PI_ESTIMATED_IMAGE_TOKENS;
      assert q * PI_ESTIMATED_IMAGE_TOKENS <= room < (q + 1) * PI_ESTIMATED_IMAGE_TOKENS;
    }
  }

  /** A prompt leaves a usable reply exactly on windows of at least the minimum, once there is a window at all. */
  lemma ExhaustedIff(contextSize: int, promptTokens: nat)
    requires contextSize > 0
    ensures IsReplyBudgetExhausted(contextSize, promptTokens) <==> contextSize < MinimumUsableContextSize(promptTokens)
  {
  }

  // ----- uploads -----

  const MAX_FILES := 20
  const MAX_DRAFT_BYTES := 100 * 1024 * 1024
  const MAX_RENDERED_PDF_PAGES := 20

  datatype Kind = Image | Pdf | TextFile

  datatype Upload = Upload(id: string, name: string, kind: Kind, text: Option<string>, pageCount: Option<nat>,
                           size: nat)

  datatype Origin = Whole(id: string) | Page(id: string, number: nat)

  datatype Attachment = Attachment(origin: Origin, kind: Kind, size: nat)

  datatype Model = Model(contextSize: Option<int>, vision: Option<bool>)

  datatype Refusal =
    | Missing(id: string)
    | NeedsVision(name: string)
    | ScanOverBudget(name: string, pages: nat)
    | ImagesOverBudget(count: nat)
    | TooManyFiles
    | DraftTooLarge

  datatype Result<T> = Accepted(value: T) | Refused(refusal: Refusal)

  /** What rendering a document yields: the size of each of its pages as an image. */
  type Pages = Upload -> seq<nat>

  predicate PdfNeedsPageImages(u: Upload) {
    u.kind == Pdf && (u.text.None? || Trim(u.text.value) == "")
  }

  function PagesOf(u: Upload): nat {
    if u.pageCount.Some? then u.pageCount.value else 1
  }

  /** How many images the window carries; `None` when the window is unknown and nothing is priced. */
  function ImageBudget(m: Model): Option<nat> {
    if m.contextSize.None? then None else Some(MaxAffordableImages(m.contextSize.value, PI_AGENT_PROMPT_TOKENS))
  }

  function PageBudget(m: Model): nat {
    if ImageBudget(m).None? then MAX_RENDERED_PDF_PAGES else Min(ImageBudget(m).value, MAX_RENDERED_PDF_PAGES)
  }

  function ImagesOf(u: Upload): nat {
    if PdfNeedsPageImages(u) then PagesOf(u) else if u.kind == Image then 1 else 0
  }

  function ImageCount(uploads: seq<Upload>): nat {
    if uploads == [] then 0 else ImageCount(uploads[..|uploads| - 1]) + ImagesOf(uploads[|uploads| - 1])
  }

  function PageAttachments(u: Upload, sizes: seq<nat>): (r: seq<Attachment>)
    ensures |r| == |sizes| && forall i :: 0 <= i < |r| ==> r[i] == Attachment(Page(u.id, i + 1), Image, sizes[i])
  {
    seq(|sizes|, i requires 0 <= i < |sizes| => Attachment(Page(u.id, i + 1), Image, sizes[i]))
  }

  /** One upload as attachments: a scan page by page, anything else whole. */
  function Expand(u: Upload, pages: Pages, budget: nat): seq<Attachment> {
    if PdfNeedsPageImages(u) then PageAttachments(u, pages(u)[..Min(|pages(u)|, Min(budget, MAX_RENDERED_PDF_PAGES))])
    else [Attachment(Whole(u.id), u.kind, u.size)]
  }

  function Expansion(uploads: seq<Upload>, pages: Pages, budget: nat): seq<Attachment> {
    if uploads == [] then []
    else Expansion(uploads[..|uploads| - 1], pages, budget) + Expand(uploads[|uploads| - 1], pages, budget)
  }

  function TotalBytes(attachments: seq<Attachment>): nat {
    if attachments == [] then 0
    else TotalBytes(attachments[..|attachments| - 1]) + attachments[|attachments| - 1].size
  }

  method RenderPdfPages(u: Upload, pages: Pages, maxPages: nat) returns (r: Result<seq<Attachment>>)
    ensures r.Refused? <==> maxPages == 0
    ensures r.Refused? ==> r.refusal == TooManyFiles
    ensures r.Accepted? ==>
      r.value == PageAttachments(u, pages(u)[..Min(|pages(u)|, Min(maxPages, MAX_RENDERED_PDF_PAGES))])
  {
    var pageLimit := Min(maxPages, MAX_RENDERED_PDF_PAGES);
    if pageLimit <= 0 {
      return Refused(TooManyFiles);
    }
    var document := pages(u);
    var renderCount := Min(|document|, pageLimit);
    var rendered: seq<Attachment> := [];
    for n := 0 to renderCount
      invariant |rendered| == n
      invariant forall i :: 0 <= i < n ==> rendered[i] == Attachment(Page(u.id, i + 1), Image, document[i])
    {
      rendered := rendered + [Attachment(Page(u.id, n + 1), Image, document[n])];
    }
    r := Accepted(rendered);
  }

  // ----- what is accepted -----

  predicate AllKnown(references: seq<string>, uploads: map<string, Upload>) {
    forall i :: 0 <= i < |references| ==> references[i] in uploads
  }

  function Resolved(references: seq<string>, uploads: map<string, Upload>): (r: seq<Upload>)
    requires AllKnown(references, uploads)
    ensures |r| == |references| && forall i :: 0 <= i < |r| ==> r[i] == uploads[references[i]]
  {
    seq(|references|, i requires 0 <= i < |references| => uploads[references[i]])
  }

  predicate WithinBudget(resolved: seq<Upload>, m: Model) {
    && (forall u :: u in resolved && PdfNeedsPageImages(u) ==> m.vision != Some(false) && PagesOf(u) <= PageBudget(m))
    && (ImageBudget(m).Some? ==> ImageCount(resolved) <= ImageBudget(m).value)
  }

  predicate WithinLimits(attachments: seq<Attachment>) {
    |attachments| <= MAX_FILES && TotalBytes(attachments) <= MAX_DRAFT_BYTES
  }

  /** A scan is rendered at all only when some page may be. */
  predicate Renderable(resolved: seq<Upload>, m: Model) {
    (exists u :: u in resolved && PdfNeedsPageImages(u)) ==> PageBudget(m) > 0
  }

  predicate Acceptable(resolved: seq<Upload>, m: Model, pages: Pages) {
    && WithinBudget(resolved, m) && Renderable(resolved, m)
    && WithinLimits(Expansion(resolved, pages, PageBudget(m)))
  }

  method ResolveReferences(references: seq<string>, uploads: map<string, Upload>) returns (r: Result<seq<Upload>>)
    ensures r.Accepted? <==> AllKnown(references, uploads)
    ensures r.Accepted? ==> r.value == Resolved(references, uploads)
    ensures r.Refused? ==> r.refusal.Missing? && r.refusal.id in references && r.refusal.id !in uploads
  {
    var resolved: seq<Upload> := [];
    for i := 0 to |references|
      invariant |resolved| == i
      invariant forall k :: 0 <= k < i ==> references[k] in uploads && resolved[k] == uploads[references[k]]
    {
      if references[i] !in uploads {
        return Refused(Missing(references[i]));
      }
      resolved := resolved + [uploads[references[i]]];
    }
    r := Accepted(resolved);
  }

  /** A PDF without a text layer, or with a blank one. */
  predicate IsScan(u: Upload) {
    u.kind == Pdf && (u.text.None? || AllSpace(u.text.value))
  }

  lemma ScanIff(u: Upload)
    ensures PdfNeedsPageImages(u) <==> IsScan(u)
  {
    hide IsSpace, Trim;
    if u.text.Some? {
      BlankIff(u.text.value);
    }
  }

  /** The first scan that fails a test is the one a refusal names. */
  predicate IsFirst(resolved: seq<Upload>, i: nat, fails: Upload -> bool) {
    i < |resolved| && fails(resolved[i]) && forall j :: 0 <= j < i ==> !fails(resolved[j])
  }

  /** The checks made before anything is rendered, in their order: vision, each scan's pages, all images together. */
  method CheckBudget(resolved: seq<Upload>, m: Model) returns (refusal: Option<Refusal>)
    ensures refusal.None? <==> WithinBudget(resolved, m)
    ensures m.vision == Some(false) && (exists u :: u in resolved && IsScan(u)) ==>
      exists i: nat :: IsFirst(resolved, i, IsScan) && refusal == Some(NeedsVision(resolved[i].name))
    ensures refusal.Some? && refusal.value.NeedsVision? ==> m.vision == Some(false)
    ensures refusal.Some? && refusal.value.ScanOverBudget? ==>
      exists i: nat :: IsFirst(resolved, i, (u: Upload) => IsScan(u) && PagesOf(u) > PageBudget(m))
                       && refusal.value == ScanOverBudget(resolved[i].name, PagesOf(resolved[i]))
    ensures refusal.Some? && refusal.value.ImagesOverBudget? ==>
      && refusal.value.count == ImageCount(resolved)
      && forall u :: u in resolved && IsScan(u) ==> m.vision != Some(false) && PagesOf(u) <= PageBudget(m)
    ensures refusal.Some? ==>
      refusal.value.NeedsVision? || refusal.value.ScanOverBudget? || refusal.value.ImagesOverBudget?
  {
    forall u: Upload ensures PdfNeedsPageImages(u) <==> IsScan(u) {
      ScanIff(u);
    }
    hide PdfNeedsPageImages, MaxAffordableImages, IsScan, PageBudget, ImageBudget;
    var imageCount := 0;
    for i := 0 to |resolved|
      invariant forall u :: u in resolved[..i] && PdfNeedsPageImages(u) ==> m.vision != Some(false)
      invariant m.vision == Some(false) ==> forall k :: 0 <= k < i ==> !IsScan(resolved[k])
    {
      assert resolved[..i + 1] == resolved[..i] + [resolved[i]];
      if PdfNeedsPageImages(resolved[i]) && m.vision == Some(false) {
        assert resolved[i] in resolved;
        assert IsFirst(resolved, i, IsScan);
        return Some(NeedsVision(resolved[i].name));
      }
    }
    assert resolved[..|resolved|] == resolved;
    for i := 0 to |resolved|
      invariant forall u :: u in resolved[..i] && PdfNeedsPageImages(u) ==> PagesOf(u) <= PageBudget(m)
      invariant forall k :: 0 <= k < i ==> !(IsScan(resolved[k]) && PagesOf(resolved[k]) > PageBudget(m))
      invariant imageCount == ImageCount(resolved[..i])
    {
      assert resolved[..i + 1] == resolved[..i] + [resolved[i]] && resolved[..i + 1][..i] == resolved[..i];
      if PdfNeedsPageImages(resolved[i]) && PagesOf(resolved[i]) > PageBudget(m) {
        assert resolved[i] in resolved;
        assert IsFirst(resolved, i, (u: Upload) => IsScan(u) && PagesOf(u) > PageBudget(m));
        return Some(ScanOverBudget(resolved[i].name, PagesOf(resolved[i])));
      }
      imageCount := imageCount + ImagesOf(resolved[i]);
    }
    if ImageBudget(m).Some? && imageCount > ImageBudget(m).value {
      return Some(ImagesOverBudget(imageCount));
    }
    refusal := None;
  }

  method ResolveChatAttachments(uploads: map<string, Upload>, references: seq<string>, m: Model, pages: Pages)
    returns (r: Result<seq<Attachment>>)
    ensures r.Accepted? <==> AllKnown(references, uploads) && Acceptable(Resolved(references, uploads), m, pages)
    ensures r.Accepted? ==> r.value == Expansion(Resolved(references, uploads), pages, PageBudget(m))
  {
    hide WithinBudget, PdfNeedsPageImages, Expand, TotalBytes, PageBudget;
    var known := ResolveReferences(references, uploads);
    if known.Refused? {
      return Refused(known.refusal);
    }
    var resolved := known.value;
    var over := CheckBudget(resolved, m);
    if over.Some? {
      return Refused(over.value);
    }
    r := ExpandAll(resolved, m, pages);
  }

  method ExpandAll(resolved: seq<Upload>, m: Model, pages: Pages) returns (r: Result<seq<Attachment>>)
    ensures r.Accepted? <==> Renderable(resolved, m) && WithinLimits(Expansion(resolved, pages, PageBudget(m)))
    ensures r.Accepted? ==> r.value == Expansion(resolved, pages, PageBudget(m))
  {
    hide PdfNeedsPageImages, TotalBytes, PageBudget;
    NothingWeighsNothing();
    var attachments: seq<Attachment> := [];
    for i := 0 to |resolved|
      invariant attachments == Expansion(resolved[..i], pages, PageBudget(m)) && WithinLimits(attachments)
      invariant forall u :: u in resolved[..i] && PdfNeedsPageImages(u) ==> PageBudget(m) > 0
    {
      var upload := resolved[i];
      assert resolved[..i + 1] == resolved[..i] + [upload] && resolved[..i + 1][..i] == resolved[..i];
      assert upload in resolved;
      ExpansionGrows(resolved, pages, PageBudget(m), i + 1);
      if PdfNeedsPageImages(upload) {
        var rendered := RenderPdfPages(upload, pages, PageBudget(m));
        if rendered.Refused? {
          return Refused(rendered.refusal);
        }
        attachments := attachments + rendered.value;
      } else {
        attachments := attachments + [Attachment(Whole(upload.id), upload.kind, upload.size)];
      }
      if |attachments| > MAX_FILES {
        return Refused(TooManyFiles);
      }
      if TotalBytes(attachments) > MAX_DRAFT_BYTES {
        return Refused(DraftTooLarge);
      }
    }
    assert resolved[..|resolved|] == resolved;
    r := Accepted(attachments);
  }

  lemma {:induction false} TotalAppend(a: seq<Attachment>, b: seq<Attachment>)
    ensures TotalBytes(a + b) == TotalBytes(a) + TotalBytes(b)
    decreases |b|
  {
    if b == [] {
      assert a + b == a;
    } else {
      var n := |b| - 1;
      assert (a + b)[..|a + b| - 1] == a + b[..n];
      TotalAppend(a, b[..n]);
    }
  }

  /** What is over a limit stays over it as more is added. */
  lemma {:induction false} ExpansionGrows(uploads: seq<Upload>, pages: Pages, budget: nat, n: nat)
    requires n <= |uploads|
    ensures var part, whole := Expansion(uploads[..n], pages, budget), Expansion(uploads, pages, budget);
      |part| <= |whole| && TotalBytes(part) <= TotalBytes(whole)
    decreases |uploads|
  {
    hide Expand, TotalBytes;
    if n == |uploads| {
      assert uploads[..n] == uploads;
    } else {
      var k := |uploads| - 1;
      assert uploads[..k][..n] == uploads[..n];
      ExpansionGrows(uploads[..k], pages, budget, n);
      TotalAppend(Expansion(uploads[..k], pages, budget), Expand(uploads[k], pages, budget));
    }
  }

  lemma NothingWeighsNothing()
    ensures TotalBytes([]) == 0
  {
  }

  // ----- what acceptance promises -----

  function ImagesIn(attachments: seq<Attachment>): nat {
    if attachments == [] then 0
    else ImagesIn(attachments[..|attachments| - 1]) + if attachments[|attachments| - 1].kind == Image then 1 else 0
  }

  /** Every scan's recorded page count is the number of pages it renders to. */
  predicate Honest(uploads: seq<Upload>, pages: Pages) {
    forall u :: u in uploads && PdfNeedsPageImages(u) ==> u.pageCount == Some(|pages(u)|)
  }

  lemma {:induction false} ImagesAppend(a: seq<Attachment>, b: seq<Attachment>)
    ensures ImagesIn(a + b) == ImagesIn(a) + ImagesIn(b)
    decreases |b|
  {
    if b == [] {
      assert a + b == a;
    } else {
      var n := |b| - 1;
      assert (a + b)[..|a + b| - 1] == a + b[..n];
      ImagesAppend(a, b[..n]);
    }
  }

  lemma {:induction false} PagesAreImages(u: Upload, sizes: seq<nat>)
    ensures ImagesIn(PageAttachments(u, sizes)) == |sizes|
    decreases |sizes|
  {
    if sizes != [] {
      var n := |sizes| - 1;
      PagesAreImages(u, sizes[..n]);
      assert PageAttachments(u, sizes)[..n] == PageAttachments(u, sizes[..n]);
    }
  }

  /** A scan whose pages were counted right and fit the budget is rendered page for page. */
  lemma ScanInFull(u: Upload, pages: Pages, budget: nat)
    requires PdfNeedsPageImages(u) && u.pageCount == Some(|pages(u)|) && PagesOf(u) <= budget <= MAX_RENDERED_PDF_PAGES
    ensures Expand(u, pages, budget) == PageAttachments(u, pages(u))
  {
    assert pages(u)[..|pages(u)|] == pages(u);
  }

  lemma ImagesOfOne(u: Upload, pages: Pages, budget: nat)
    requires PdfNeedsPageImages(u) ==> u.pageCount == Some(|pages(u)|) && PagesOf(u) <= budget <= MAX_RENDERED_PDF_PAGES
    ensures ImagesIn(Expand(u, pages, budget)) == ImagesOf(u)
  {
    if PdfNeedsPageImages(u) {
      ScanInFull(u, pages, budget);
      PagesAreImages(u, pages(u));
    } else {
      hide PdfNeedsPageImages;
      assert Expand(u, pages, budget)[..0] == [];
    }
  }

  /** What was priced is what is sent. */
  lemma {:induction false} PricedIsSent(uploads: seq<Upload>, pages: Pages, budget: nat)
    requires Honest(uploads, pages) && budget <= MAX_RENDERED_PDF_PAGES
    requires forall u :: u in uploads && PdfNeedsPageImages(u) ==> PagesOf(u) <= budget
    ensures ImagesIn(Expansion(uploads, pages, budget)) == ImageCount(uploads)
    decreases |uploads|
  {
    hide PdfNeedsPageImages, Expand, ImagesOf, ImagesIn;
    if uploads == [] {
      NoImages();
    } else {
      var n := |uploads| - 1;
      assert uploads[n] in uploads && uploads == uploads[..n] + [uploads[n]];
      PricedIsSent(uploads[..n], pages, budget);
      ImagesOfOne(uploads[n], pages, budget);
      ImagesAppend(Expansion(uploads[..n], pages, budget), Expand(uploads[n], pages, budget));
    }
  }

  lemma NoImages()
    ensures ImagesIn([]) == 0
  {
  }

  /**
   * With page counts recorded right, an accepted message exhausts its reply exactly when it carries no image and the
   * window is too small for the base prompt alone; and its scans are sent page for page.
   */
  lemma AcceptedLeavesRoom(uploads: seq<Upload>, contextSize: int, vision: Option<bool>, pages: Pages)
    requires var m := Model(Some(contextSize), vision); Acceptable(uploads, m, pages)
    requires Honest(uploads, pages)
    ensures var m := Model(Some(contextSize), vision);
      forall u :: u in uploads && PdfNeedsPageImages(u) ==>
        Expand(u, pages, PageBudget(m)) == PageAttachments(u, pages(u))
    ensures var m := Model(Some(contextSize), vision); var images := ImagesIn(Expansion(uploads, pages, PageBudget(m)));
      IsReplyBudgetExhausted(contextSize, PI_AGENT_PROMPT_TOKENS + images * PI_ESTIMATED_IMAGE_TOKENS)
      <==> images == 0 && 0 < contextSize < MinimumUsableContextSize(PI_AGENT_PROMPT_TOKENS)
  {
    hide PdfNeedsPageImages, Expand, ImagesIn, Expansion;
    var m := Model(Some(contextSize), vision);
    var images := ImagesIn(Expansion(uploads, pages, PageBudget(m)));
    PricedIsSent(uploads, pages, PageBudget(m));
    forall u | u in uploads && PdfNeedsPageImages(u)
      ensures Expand(u, pages, PageBudget(m)) == PageAttachments(u, pages(u))
    {
      ScanInFull(u, pages, PageBudget(m));
    }
    if contextSize > 0 {
      ExhaustedIff(contextSize, PI_AGENT_PROMPT_TOKENS + images * PI_ESTIMATED_IMAGE_TOKENS);
    }
    if images >= 1 {
      AffordableIff(contextSize, PI_AGENT_PROMPT_TOKENS, images);
    }
  }

  /** Attachments follow the order the message refers to its uploads in. */
  lemma {:induction false} ExpansionFollowsReferences(a: seq<Upload>, b: seq<Upload>, pages: Pages, budget: nat)
    ensures Expansion(a + b, pages, budget) == Expansion(a, pages, budget) + Expansion(b, pages, budget)
    decreases |b|
  {
    hide Expand;
    if b == [] {
      assert a + b == a;
    } else {
      var n := |b| - 1;
      assert (a + b)[..|a + b| - 1] == a + b[..n];
      ExpansionFollowsReferences(a, b[..n], pages, budget);
    }
  }

  function UncountedScan(id: string): Upload {
    Upload(id, id, Pdf, None, None, 0)
  }

  const TWO_SCANS := [UncountedScan("a"), UncountedScan("b")]
  const TWO_IMAGE_WINDOW := MinimumContextSizeForImages(2, PI_AGENT_PROMPT_TOKENS)
  const TWO_IMAGE_MODEL := Model(Some(TWO_IMAGE_WINDOW), Some(true))

  function TwoPages(): Pages {
    (u: Upload) => [1, 1]
  }

  lemma TwoPagesWeigh(u: Upload)
    ensures TotalBytes(PageAttachments(u, [1, 1])) == 2
  {
    var r := PageAttachments(u, [1, 1]);
    assert r[..1][..0] == [];
    assert TotalBytes(r[..1]) == 1;
  }

  lemma TwoScansExpand()
    ensures var sent := Expansion(TWO_SCANS, TwoPages(), 2);
      |sent| == 4 && ImagesIn(sent) == 4 && TotalBytes(sent) == 4
  {
    hide ImagesIn, TotalBytes;
    var a, b := UncountedScan("a"), UncountedScan("b");
    assert [1, 1][..2] == [1, 1];
    var first, second := PageAttachments(a, [1, 1]), PageAttachments(b, [1, 1]);
    assert Expand(a, TwoPages(), 2) == first && Expand(b, TwoPages(), 2) == second;
    OneExpansion(a, TwoPages(), 2);
    OneExpansion(b, TwoPages(), 2);
    assert TWO_SCANS == [a] + [b];
    ExpansionFollowsReferences([a], [b], TwoPages(), 2);
    PagesAreImages(a, [1, 1]);
    PagesAreImages(b, [1, 1]);
    ImagesAppend(first, second);
    TwoPagesWeigh(a);
    TwoPagesWeigh(b);
    TotalAppend(first, second);
  }

  lemma OneExpansion(u: Upload, pages: Pages, budget: nat)
    ensures Expansion([u], pages, budget) == Expand(u, pages, budget)
  {
    hide Expand;
    assert [u][..0] == [];
    assert [] + Expand(u, pages, budget) == Expand(u, pages, budget);
  }

  lemma TwoScansPriced()
    ensures PageBudget(TWO_IMAGE_MODEL) == 2 && ImageBudget(TWO_IMAGE_MODEL) == Some(2)
    ensures WithinBudget(TWO_SCANS, TWO_IMAGE_MODEL)
  {
    assert TWO_SCANS[..1] == [UncountedScan("a")] && [UncountedScan("a")][..0] == [];
    assert ImageCount(TWO_SCANS[..1]) == 1 && ImageCount(TWO_SCANS) == 2;
  }

  /**
   * The price of a scan without a page count is one page, though it is rendered up to the budget: two of them
   * overrun it.
   */
  lemma UncountedScansOverrun()
    ensures var sent := Expansion(TWO_SCANS, TwoPages(), PageBudget(TWO_IMAGE_MODEL));
      Acceptable(TWO_SCANS, TWO_IMAGE_MODEL, TwoPages()) && ImagesIn(sent) == 4
      && IsReplyBudgetExhausted(TWO_IMAGE_WINDOW, PI_AGENT_PROMPT_TOKENS + ImagesIn(sent) * PI_ESTIMATED_IMAGE_TOKENS)
  {
    hide WithinBudget, Expansion, ImagesIn, TotalBytes, PageBudget, ImageBudget;
    TwoScansPriced();
    TwoScansExpand();
  }
}
