/** The PDF viewer component: five state cells (`pdfInfo`, `currentPage`,
    `renderedPage`, `loading`, `error`) driven by the page-information
    request, the Previous/Next buttons and page-render requests.

    Each `invoke` is split in two: issuing the request (recorded in
    `requests`) and, later, its response arriving. A render's response
    names the in-flight slot it answers, because the handler captured the
    page number it was started with; responses may arrive in any order.

    `Session` and the `After...` functions describe the component as
    values; the class `Viewer` updates its fields step by step, as the
    component's handlers do, and each of its methods is proved to end in
    the state the matching `After...` function gives. */
module PdfViewer {
  import opened Common

  /** The backend's answer to `get_pdf_info`. */
  datatype PdfInfo = PdfInfo(path: string, pageCount: nat, currentPage: nat)

  /** The backend's answer to `render_pdf_page`. */
  datatype RenderedPage = RenderedPage(imageData: string, width: nat, height: nat, pageNum: nat)

  /** A backend call the viewer has issued. */
  datatype Request = GetPdfInfo(path: string) | RenderPdfPage(path: string, pageNum: nat)

  const MetadataErrorMessage: string := "Failed to load PDF information"
  const RenderErrorPrefix: string := "Failed to render page "

  /** The error text for a failed render of zero-based page `pageNum`: it
      names the one-based page number. */
  function RenderErrorMessage(pageNum: nat): (m: string)
    ensures |m| > |RenderErrorPrefix| && m[..|RenderErrorPrefix|] == RenderErrorPrefix
    ensures AllDigits(m[|RenderErrorPrefix|..]) && ParseDecimal(m[|RenderErrorPrefix|..]) == pageNum + 1
    ensures m != MetadataErrorMessage
  {
    var m := RenderErrorPrefix + Decimal(pageNum + 1);
    assert m[|RenderErrorPrefix|..] == Decimal(pageNum + 1);
    assert m[10] == 'r' != MetadataErrorMessage[10];
    ParseDecimalOfDecimal(pageNum + 1);
    m
  }

  /** The viewer's state cells, plus what is in flight and what was issued. */
  datatype Session = Session(
    filePath: string,
    pdfInfo: Option<PdfInfo>,
    currentPage: nat,
    renderedPage: Option<RenderedPage>,
    loading: bool,
    error: Option<string>,
    infoInFlight: bool,          // the `get_pdf_info` call has not answered yet
    rendersInFlight: seq<nat>,   // page numbers of the unanswered render calls
    requests: seq<Request>)      // every backend call, oldest first

  /** The last page index Next can reach: `max(0, page_count - 1)`, and 0
      while the page count is unknown. */
  function LastPage(s: Session): nat
  {
    if s.pdfInfo.Some? && s.pdfInfo.value.pageCount > 0 then s.pdfInfo.value.pageCount - 1 else 0
  }

  // ---------------------------------------------------------------------
  // Display predicates

  /** The Previous button is disabled on the first page. */
  predicate PreviousDisabled(s: Session): (r: bool)
    ensures r <==> !(s.currentPage > 0)  // exactly when the handler's guard fails
  {
    s.currentPage == 0
  }

  /** The Next button is disabled without page information or on the last page. */
  predicate NextDisabled(s: Session): (r: bool)
    ensures r <==> !(s.pdfInfo.Some? && s.currentPage < s.pdfInfo.value.pageCount - 1)  // exactly when the handler's guard fails
  {
    s.pdfInfo.None? || s.currentPage >= s.pdfInfo.value.pageCount - 1
  }

  /** The page count in the label: `pdfInfo?.page_count || 0`. */
  function ShownPageCount(s: Session): (n: nat)
    ensures s.pdfInfo.Some? ==> n == s.pdfInfo.value.pageCount
    ensures s.pdfInfo.None? ==> n == 0
  {
    if s.pdfInfo.Some? && s.pdfInfo.value.pageCount != 0 then s.pdfInfo.value.pageCount else 0
  }

  /** The toolbar label, "Page <currentPage + 1> of <count>". */
  /** The label reads back as the one-based current page and the count. */
  function PageLabel(s: Session): (r: string)
    ensures var k := |Decimal(s.currentPage + 1)|;
      |r| > 9 + k && r[..5] == "Page " && r[5 + k..9 + k] == " of " &&
      AllDigits(r[5..5 + k]) && ParseDecimal(r[5..5 + k]) == s.currentPage + 1 &&
      AllDigits(r[9 + k..]) && ParseDecimal(r[9 + k..]) == ShownPageCount(s)
  {
    var a := Decimal(s.currentPage + 1);
    var b := Decimal(ShownPageCount(s));
    var r := "Page " + a + " of " + b;
    assert r[5..5 + |a|] == a && r[9 + |a|..] == b;
    ParseDecimalOfDecimal(s.currentPage + 1);
    ParseDecimalOfDecimal(ShownPageCount(s));
    r
  }

  /** The "Loading..." indicator is shown while `loading` is set. */
  predicate LoadingVisible(s: Session): (r: bool)
    ensures r <==> s.loading
    ensures r ==> !ImageVisible(s)  // the indicator and the image never show together
  {
    s.loading
  }

  /** The error box is shown for a truthy error text. */
  predicate ErrorVisible(s: Session): (r: bool)
    ensures r <==> s.error.Some? && s.error.value != ""
    ensures s.error == Some(MetadataErrorMessage) ==> r
    ensures forall p: nat :: s.error == Some(RenderErrorMessage(p)) ==> r
  {
    s.error.Some? && Truthy(s.error.value)
  }

  /** The page image is shown when a page has been rendered and nothing is loading. */
  predicate ImageVisible(s: Session): (r: bool)
    ensures r <==> s.renderedPage.Some? && !s.loading
  {
    s.renderedPage.Some? && !s.loading
  }

  // ---------------------------------------------------------------------
  // Transitions

  /** The component as first mounted for `filePath`: the state cells hold
      their initial values and the mount effect has issued `get_pdf_info`. */
  function Mount(filePath: string): (s: Session)
    ensures s.filePath == filePath && s.requests == [GetPdfInfo(filePath)] && s.infoInFlight
    ensures s.pdfInfo.None? && s.currentPage == 0 && s.renderedPage.None? && !s.loading && s.error.None?
    ensures s.rendersInFlight == []
    ensures PreviousDisabled(s) && NextDisabled(s)
    ensures !LoadingVisible(s) && !ErrorVisible(s) && !ImageVisible(s)
  {
    Session(filePath, None, 0, None, false, None, true, [], [GetPdfInfo(filePath)])
  }

  /** `renderPage(pageNum)` up to its `await`: mark loading, clear the
      error and issue exactly one render call for `pageNum`. */
  function AfterRenderStart(s: Session, pageNum: nat): (t: Session)
    ensures t.loading && t.error.None?
    ensures t.requests == s.requests + [RenderPdfPage(s.filePath, pageNum)]
    ensures t.rendersInFlight == s.rendersInFlight + [pageNum]
    ensures t.filePath == s.filePath && t.pdfInfo == s.pdfInfo && t.currentPage == s.currentPage
    ensures t.renderedPage == s.renderedPage && t.infoInFlight == s.infoInFlight
  {
    s.(loading := true, error := None,
       rendersInFlight := s.rendersInFlight + [pageNum],
       requests := s.requests + [RenderPdfPage(s.filePath, pageNum)])
  }

  /** The effect that runs after `currentPage` or `pdfInfo` changed: it
      renders the current page, but only once page information is known. */
  function AfterRenderEffect(s: Session): (t: Session)
    ensures s.pdfInfo.Some? ==>
              t.loading && t.error.None? &&
              t.requests == s.requests + [RenderPdfPage(s.filePath, s.currentPage)] &&
              t.rendersInFlight == s.rendersInFlight + [s.currentPage]
    ensures s.pdfInfo.None? ==> t == s
    ensures t.filePath == s.filePath && t.pdfInfo == s.pdfInfo && t.currentPage == s.currentPage
    ensures t.renderedPage == s.renderedPage && t.infoInFlight == s.infoInFlight
  {
    if s.pdfInfo.Some? then AfterRenderStart(s, s.currentPage) else s
  }

  /** `get_pdf_info` answered: store the information, which triggers a
      render of the current page. */
  function AfterInfoLoaded(s: Session, info: PdfInfo): (t: Session)
    requires s.infoInFlight
    ensures t.pdfInfo == Some(info) && !t.infoInFlight
    ensures t.requests == s.requests + [RenderPdfPage(s.filePath, s.currentPage)]
    ensures t.loading && t.error.None?
    ensures t.currentPage == s.currentPage && t.renderedPage == s.renderedPage
  {
    AfterRenderEffect(s.(infoInFlight := false, pdfInfo := Some(info)))
  }

  /** `get_pdf_info` failed: record the error; page information stays unknown. */
  function AfterInfoFailed(s: Session): (t: Session)
    requires s.infoInFlight
    ensures t.error == Some(MetadataErrorMessage) && !t.infoInFlight
    ensures t.pdfInfo == s.pdfInfo && t.currentPage == s.currentPage && t.renderedPage == s.renderedPage
    ensures t.loading == s.loading && t.requests == s.requests && t.rendersInFlight == s.rendersInFlight
  {
    s.(infoInFlight := false, error := Some(MetadataErrorMessage))
  }

  /** `goToPreviousPage`: step back one page unless on the first page;
      the disabled state of the button is exactly when this does nothing. */
  function AfterPrevious(s: Session): (t: Session)
    ensures t == s <==> PreviousDisabled(s)
    ensures !PreviousDisabled(s) ==> t.currentPage == s.currentPage - 1
    ensures t.filePath == s.filePath && t.pdfInfo == s.pdfInfo && t.renderedPage == s.renderedPage
    ensures t.infoInFlight == s.infoInFlight
  {
    if s.currentPage > 0 then AfterRenderEffect(s.(currentPage := s.currentPage - 1)) else s
  }

  /** `goToNextPage`: step forward one page when page information is known
      and the current page is not the last; the disabled state of the
      button is exactly when this does nothing. */
  function AfterNext(s: Session): (t: Session)
    ensures t == s <==> NextDisabled(s)
    ensures !NextDisabled(s) ==> t.currentPage == s.currentPage + 1
    ensures s.pdfInfo.None? ==> t == s
    ensures t.filePath == s.filePath && t.pdfInfo == s.pdfInfo && t.renderedPage == s.renderedPage
    ensures t.infoInFlight == s.infoInFlight
  {
    if s.pdfInfo.Some? && s.currentPage < s.pdfInfo.value.pageCount - 1 then
      AfterRenderEffect(s.(currentPage := s.currentPage + 1))
    else
      s
  }

  /** The in-flight list without its `slot`-th entry. */
  function RemoveSlot(pages: seq<nat>, slot: nat): (r: seq<nat>)
    requires slot < |pages|
    ensures |r| == |pages| - 1
    ensures multiset(r) + multiset{pages[slot]} == multiset(pages)
  {
    assert pages == pages[..slot] + [pages[slot]] + pages[slot + 1..];
    pages[..slot] + pages[slot + 1..]
  }

  /** The render in flight at `slot` answered with `page`: the page replaces
      whatever was shown and loading ends, whichever render it answers. */
  function AfterRenderLoaded(s: Session, slot: nat, page: RenderedPage): (t: Session)
    requires slot < |s.rendersInFlight|
    ensures t.renderedPage == Some(page) && !t.loading
    ensures t.rendersInFlight == RemoveSlot(s.rendersInFlight, slot)
    ensures t.filePath == s.filePath && t.pdfInfo == s.pdfInfo && t.currentPage == s.currentPage
    ensures t.error == s.error && t.requests == s.requests && t.infoInFlight == s.infoInFlight
  {
    s.(renderedPage := Some(page), loading := false,
       rendersInFlight := RemoveSlot(s.rendersInFlight, slot))
  }

  /** The render in flight at `slot` failed: an error naming its page is
      recorded and loading ends; the shown page and the position are kept. */
  function AfterRenderFailed(s: Session, slot: nat): (t: Session)
    requires slot < |s.rendersInFlight|
    ensures t.error == Some(RenderErrorMessage(s.rendersInFlight[slot])) && !t.loading
    ensures t.rendersInFlight == RemoveSlot(s.rendersInFlight, slot)
    ensures t.filePath == s.filePath && t.pdfInfo == s.pdfInfo && t.currentPage == s.currentPage
    ensures t.renderedPage == s.renderedPage && t.requests == s.requests && t.infoInFlight == s.infoInFlight
  {
    s.(error := Some(RenderErrorMessage(s.rendersInFlight[slot])), loading := false,
       rendersInFlight := RemoveSlot(s.rendersInFlight, slot))
  }

  // ---------------------------------------------------------------------
  // The component, with its state cells as fields

  class Viewer {
    const filePath: string
    var pdfInfo: Option<PdfInfo>
    var currentPage: nat
    var renderedPage: Option<RenderedPage>
    var loading: bool
    var error: Option<string>
    var infoInFlight: bool
    var rendersInFlight: seq<nat>
    var requests: seq<Request>

    /** The fields as a value. */
    function State(): Session
      reads this
    {
      Session(filePath, pdfInfo, currentPage, renderedPage, loading, error,
              infoInFlight, rendersInFlight, requests)
    }

    /** Mounting with `filePath`: the state cells start empty and the mount
        effect issues `get_pdf_info`. */
    constructor (filePath: string)
      ensures State() == Mount(filePath)
    {
      this.filePath := filePath;
      pdfInfo := None;
      currentPage := 0;
      renderedPage := None;
      loading := false;
      error := None;
      infoInFlight := true;
      rendersInFlight := [];
      requests := [GetPdfInfo(filePath)];
    }

    /** The synchronous part of `renderPage(pageNum)`. */
    method RenderPage(pageNum: nat)
      modifies this
      ensures State() == AfterRenderStart(old(State()), pageNum)
    {
      loading := true;
      error := None;
      requests := requests + [RenderPdfPage(filePath, pageNum)];
      rendersInFlight := rendersInFlight + [pageNum];
    }

    /** The effect on `[currentPage, pdfInfo]`. */
    method RenderTrigger()
      modifies this
      ensures State() == AfterRenderEffect(old(State()))
    {
      if pdfInfo.Some? {
        RenderPage(currentPage);
      }
    }

    /** `loadPdfInfo` resumed with the backend's answer. */
    method PdfInfoArrived(info: PdfInfo)
      requires infoInFlight
      modifies this
      ensures State() == AfterInfoLoaded(old(State()), info)
    {
      infoInFlight := false;
      pdfInfo := Some(info);
      RenderTrigger();
    }

    /** `loadPdfInfo` resumed with a thrown error. */
    method PdfInfoFailed()
      requires infoInFlight
      modifies this
      ensures State() == AfterInfoFailed(old(State()))
    {
      infoInFlight := false;
      error := Some(MetadataErrorMessage);
    }

    /** `goToPreviousPage`. */
    method GoToPreviousPage()
      modifies this
      ensures State() == AfterPrevious(old(State()))
    {
      if currentPage > 0 {
        currentPage := currentPage - 1;
        RenderTrigger();
      }
    }

    /** `goToNextPage`. */
    method GoToNextPage()
      modifies this
      ensures State() == AfterNext(old(State()))
    {
      if pdfInfo.Some? && currentPage < pdfInfo.value.pageCount - 1 {
        currentPage := currentPage + 1;
        RenderTrigger();
      }
    }

    /** `renderPage` resumed with the page for the render at `slot`. */
    method RenderArrived(slot: nat, page: RenderedPage)
      requires slot < |rendersInFlight|
      modifies this
      ensures State() == AfterRenderLoaded(old(State()), slot, page)
    {
      renderedPage := Some(page);
      loading := false;
      rendersInFlight := RemoveSlot(rendersInFlight, slot);
    }

    /** `renderPage` resumed with a thrown error for the render at `slot`. */
    method RenderFailed(slot: nat)
      requires slot < |rendersInFlight|
      modifies this
      ensures State() == AfterRenderFailed(old(State()), slot)
    {
      var pageNum := rendersInFlight[slot];
      error := Some(RenderErrorMessage(pageNum));
      loading := false;
      rendersInFlight := RemoveSlot(rendersInFlight, slot);
    }
  }
}
