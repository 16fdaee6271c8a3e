/** What the viewer guarantees over any interleaving of user clicks and
    backend answers, and the behaviour it shows when renders overlap. */
module PdfViewerProps {
  import opened Common
  import opened PdfViewer

  /** One thing that can happen to a mounted viewer. */
  datatype Event =
    | InfoLoaded(info: PdfInfo)
    | InfoFailed
    | PreviousClicked
    | NextClicked
    | RenderLoaded(slot: nat, page: RenderedPage)
    | RenderRejected(slot: nat)

  /** An answer can only arrive for a call that is still in flight. */
  predicate CanHappen(s: Session, e: Event) {
    match e
    case InfoLoaded(_) => s.infoInFlight
    case InfoFailed => s.infoInFlight
    case RenderLoaded(slot, _) => slot < |s.rendersInFlight|
    case RenderRejected(slot) => slot < |s.rendersInFlight|
    case _ => true
  }

  function Step(s: Session, e: Event): Session
    requires CanHappen(s, e)
  {
    match e
    case InfoLoaded(info) => AfterInfoLoaded(s, info)
    case InfoFailed => AfterInfoFailed(s)
    case PreviousClicked => AfterPrevious(s)
    case NextClicked => AfterNext(s)
    case RenderLoaded(slot, page) => AfterRenderLoaded(s, slot, page)
    case RenderRejected(slot) => AfterRenderFailed(s, slot)
  }

  /** The session after `events`, or None when some answer in it has no
      call in flight to answer. */
  function Run(s: Session, events: seq<Event>): Option<Session>
    decreases |events|
  {
    if events == [] then Some(s)
    else if CanHappen(s, events[0]) then Run(Step(s, events[0]), events[1..])
    else None
  }

  /** The invariant of every reachable session. */
  predicate Valid(s: Session) {
    // the position stays within `0 .. max(0, page_count - 1)`
    s.currentPage <= LastPage(s)
    // page information arrives at most once
    && (s.infoInFlight ==> s.pdfInfo.None?)
    // no render is ever requested before page information is known
    && (s.pdfInfo.None? ==> s.rendersInFlight == [] && forall i :: 0 <= i < |s.requests| ==> s.requests[i].GetPdfInfo?)
    // every render in flight is for a page Next could reach
    && (forall i :: 0 <= i < |s.rendersInFlight| ==> s.rendersInFlight[i] <= LastPage(s))
    // every call is about the viewer's own file
    && (forall i :: 0 <= i < |s.requests| ==> s.requests[i].path == s.filePath)
  }

  lemma MountIsValid(filePath: string)
    ensures Valid(Mount(filePath))
  {
  }

  /** Every event keeps the invariant. */
  lemma StepKeepsValid(s: Session, e: Event)
    requires Valid(s) && CanHappen(s, e)
    ensures Valid(Step(s, e)) && Step(s, e).filePath == s.filePath
  {
  }

  /** The invariant holds after any sequence of events. */
  lemma {:induction false} RunKeepsValid(s: Session, events: seq<Event>, t: Session)
    requires Valid(s) && Run(s, events) == Some(t)
    ensures Valid(t) && t.filePath == s.filePath
    decreases |events|
  {
    if events != [] {
      StepKeepsValid(s, events[0]);
      RunKeepsValid(Step(s, events[0]), events[1..], t);
    }
  }

  /** After any sequence of clicks and answers from mounting, the position
      is within `0 .. max(0, page_count - 1)`, and a render is in flight or
      has been requested only if page information is known. */
  lemma ReachablePageInBounds(filePath: string, events: seq<Event>, t: Session)
    requires Run(Mount(filePath), events) == Some(t)
    ensures t.currentPage <= LastPage(t)
    ensures t.pdfInfo.None? ==> t.currentPage == 0 && t.rendersInFlight == []
    ensures t.pdfInfo.None? ==> forall i :: 0 <= i < |t.requests| ==> t.requests[i] == GetPdfInfo(filePath)
  {
    MountIsValid(filePath);
    RunKeepsValid(Mount(filePath), events, t);
  }

  /** Render requests: one event issues at most one request; it issues one,
      for the page now current and only with page information known,
      exactly when the position changed or page information arrived; that
      start sets `loading` and clears `error`. Every answer to a render
      clears `loading`. */
  lemma StepIssuesRenderRequests(s: Session, e: Event)
    requires Valid(s) && CanHappen(s, e)
    ensures var t := Step(s, e);
      (t.currentPage != s.currentPage || e.InfoLoaded?) ==>
        t.pdfInfo.Some? && t.loading && t.error.None? &&
        t.requests == s.requests + [RenderPdfPage(s.filePath, t.currentPage)] &&
        t.rendersInFlight == s.rendersInFlight + [t.currentPage]
    ensures var t := Step(s, e);
      !(t.currentPage != s.currentPage || e.InfoLoaded?) ==> t.requests == s.requests
    ensures (e.RenderLoaded? || e.RenderRejected?) ==> !Step(s, e).loading
  {
  }

  /** A click on a disabled button changes nothing and requests nothing. */
  lemma BoundaryClicksAreNoOps(s: Session)
    ensures PreviousDisabled(s) ==> Step(s, PreviousClicked) == s
    ensures NextDisabled(s) ==> Step(s, NextClicked) == s
  {
  }

  /** Errors leave the session intact: a failed render keeps the file, the
      page information, the position and the shown page, and its message
      names the one-based number of the page that failed. */
  lemma RenderFailureKeepsSession(s: Session, slot: nat)
    requires slot < |s.rendersInFlight|
    ensures var t := Step(s, RenderRejected(slot));
      t.filePath == s.filePath && t.pdfInfo == s.pdfInfo && t.currentPage == s.currentPage &&
      t.renderedPage == s.renderedPage && !t.loading && ErrorVisible(t)
    ensures var m := Step(s, RenderRejected(slot)).error.value;
      |m| > |RenderErrorPrefix| && m[..|RenderErrorPrefix|] == RenderErrorPrefix &&
      AllDigits(m[|RenderErrorPrefix|..]) && ParseDecimal(m[|RenderErrorPrefix|..]) == s.rendersInFlight[slot] + 1
  {
  }

  /** The two error texts cannot be confused, and render errors for
      different pages read differently. */
  lemma ErrorMessagesDistinct(p: nat, q: nat)
    ensures RenderErrorMessage(p) != MetadataErrorMessage
    ensures RenderErrorMessage(p) == RenderErrorMessage(q) ==> p == q
  {
  }

  /** A failed page keeps the session usable: stepping back afterwards
      clears the error, sets `loading` and requests the previous page. */
  lemma PreviousAfterFailureRetries(s: Session, slot: nat)
    requires Valid(s) && slot < |s.rendersInFlight| && s.currentPage > 0
    ensures var t := Step(Step(s, RenderRejected(slot)), PreviousClicked);
      t.currentPage == s.currentPage - 1 && t.error.None? && t.loading &&
      t.requests == s.requests + [RenderPdfPage(s.filePath, s.currentPage - 1)]
  {
  }

  /** A session whose page-information call failed. */
  predicate InfoLoadFailed(s: Session) {
    !s.infoInFlight && s.pdfInfo.None?
  }

  /** After page information failed to load, the viewer is frozen: no
      event can change it, so no render is ever requested, Next stays a
      no-op and the error text stays. */
  lemma {:induction false} InfoFailureIsFinal(s: Session, events: seq<Event>, t: Session)
    requires Valid(s) && InfoLoadFailed(s)
    requires Run(s, events) == Some(t)
    ensures t == s
    decreases |events|
  {
    if events != [] {
      var e := events[0];
      assert CanHappen(s, e);
      assert Step(s, e) == s;
      InfoFailureIsFinal(s, events[1..], t);
    }
  }

  /** Mounting and then failing to load page information shows the
      "Failed to load PDF information" error with no page count, and
      nothing after that issues a render. */
  lemma InfoFailureFromMount(filePath: string, events: seq<Event>, t: Session)
    requires Run(Mount(filePath), [InfoFailed] + events) == Some(t)
    ensures t.error == Some(MetadataErrorMessage) && t.pdfInfo.None?
    ensures t.requests == [GetPdfInfo(filePath)]
    ensures NextDisabled(t) && PageLabel(t) == PageLabel(Mount(filePath))
  {
    var s := AfterInfoFailed(Mount(filePath));
    assert ([InfoFailed] + events)[1..] == events;
    assert Run(s, events) == Some(t);
    MountIsValid(filePath);
    StepKeepsValid(Mount(filePath), InfoFailed);
    InfoFailureIsFinal(s, events, t);
  }

  /** Overlapping renders, as the component behaves: whichever answer
      arrives last is shown, even if it answers an older request, and the
      first answer to arrive already clears `loading` while the other
      render is still in flight. */
  lemma LastArrivalWins(s: Session, older: RenderedPage, newer: RenderedPage)
    requires |s.rendersInFlight| == 2
    ensures var u := Step(s, RenderLoaded(1, newer));
      !u.loading && |u.rendersInFlight| == 1 && u.rendersInFlight[0] == s.rendersInFlight[0]
    ensures var u := Step(Step(s, RenderLoaded(1, newer)), RenderLoaded(0, older));
      u.renderedPage == Some(older) && u.rendersInFlight == []
  {
  }

  /** A concrete run that shows it: on the first of three pages with
      nothing in flight, Next is clicked twice and the answer for the third
      page arrives before the one for the second; the second page's image
      is then shown while the position is the third page. */
  lemma StaleImageShown(s: Session, p1: RenderedPage, p2: RenderedPage)
    requires s.pdfInfo.Some? && s.pdfInfo.value.pageCount == 3
    requires s.currentPage == 0 && s.rendersInFlight == []
    requires p1.pageNum == 1 && p2.pageNum == 2
    ensures var s2 := Step(Step(s, NextClicked), NextClicked);
      s2.rendersInFlight == [1, 2] &&
      var t := Step(Step(s2, RenderLoaded(1, p2)), RenderLoaded(0, p1));
      t.currentPage == 2 && t.renderedPage == Some(p1) && ImageVisible(t) && t.rendersInFlight == []
  {
  }

  /** The label's page number is, once the count is known
      and positive, at most the count; without page information the label
      reads "of 0". */
  lemma LabelNumbersInRange(s: Session)
    requires Valid(s)
    ensures ShownPageCount(s) > 0 ==> s.currentPage + 1 <= ShownPageCount(s)
    ensures s.pdfInfo.None? ==> PageLabel(s) == "Page " + Decimal(s.currentPage + 1) + " of 0"
  {
  }
}
