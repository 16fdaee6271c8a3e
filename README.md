# PDF viewing session, modelled in Dafny

This project models the front end of a small desktop PDF viewer. A user
opens a file from a selector, pages through it one rasterised page at a
time, and closes it again. Three components make up that flow:

- **FileSelector** (`file_selector.dfy`, module `FileSelector`). Its
  `handleOpenFile` handler turns the outcome of the host's file dialog into
  a forwarded path. A path is forwarded, a `null` or empty result is
  dropped, and a thrown error is logged. It keeps no state, so it is one
  function.
- **App** (`app_shell.dfy`, module `AppShell`). It holds the single
  `filePath` cell. Opening a document stores the path and asks for a
  1200×900 window. Closing it clears the path and asks for 800×600. The
  state is updated before the resize request. A failed resize is only
  logged. The viewer is shown exactly when `filePath` is truthy. Modelled as
  the class `App` with an ordered log of effects.
- **PDFViewer** (`pdf_viewer.dfy`, module `PdfViewer`). Five state cells:
  `pdfInfo`, `currentPage`, `renderedPage`, `loading` and `error`. They are
  driven by the page-information call, the Previous/Next buttons and
  page-render calls. Each backend `invoke` is split into two events: the
  request (appended to `requests`) and, later, its answer. An answer names
  the in-flight call it answers and may arrive in any order. The `Session`
  datatype and the `After...` functions describe each event on values. The
  class `Viewer` updates its fields step by step, as the component's
  handlers do. Each of its methods is proved to end in the state the
  matching `After...` function gives. The display predicates (button
  disabled states, page label, image visibility) are functions on `Session`.
- **Properties** (`pdf_viewer_props.dfy`, module `PdfViewerProps`). A trace
  semantics (`Event`, `Step`, `Run`) and a session invariant `Valid`. The
  invariant holds after any interleaving of clicks and answers. Further
  lemmas cover render requests, no-ops at the ends of the document, error
  handling, and what happens when renders overlap.
- `common.dfy` (module `Common`) holds `Option`, JavaScript string
  truthiness, and the decimal text of a number. The render error message
  embeds a decimal number, and `ParseDecimal(Decimal(n)) == n` is proved.

Behaviour of the code worth knowing:

- A render result is applied whenever it arrives, so the last arrival wins.
  Stale results are not discarded (`LastArrivalWins`, `StaleImageShown`).
- The first answer to arrive clears `loading` even while another render is
  still in flight.
- There is no `goToPage(n)`.
- A failed page-information load leaves the session frozen
  (`InfoFailureIsFinal`).

## Model

| member | source | states |
|---|---|---|
| Common.Decimal | corpus-tauri/src/components/PDFViewer.tsx:59 | the text of a page number in a message is non-empty, all digits, with no leading zero |
| Common.ParseDecimalOfDecimal | corpus-tauri/src/components/PDFViewer.tsx:59 | reading the digits back gives the number that was printed |
| Common.DecimalInjective | corpus-tauri/src/components/PDFViewer.tsx:59 | different numbers print differently |
| FileSelector.HandleOpenFile | corpus-tauri/src/components/FileSelector.tsx:11-20 | a path is forwarded iff the dialog returned a non-empty string, and it is exactly that string; an error is logged iff the dialog call threw; cancel forwards nothing |
| FileSelector.EmptyPathActsAsCancel | corpus-tauri/src/components/FileSelector.tsx:14 | an empty-string result is handled exactly like a `null` one: nothing is forwarded |
| FileSelector.ForwardedPathIsTruthy | corpus-tauri/src/components/FileSelector.tsx:14-15 | a forwarded path is never empty |
| AppShell.CurrentView | oversee-tauri/src/App.tsx:41-45 | exactly one of viewer or selector is shown; the viewer, for that path, iff `filePath` is truthy |
| AppShell.ResizeEffects | oversee-tauri/src/App.tsx:16-23 | one awaited resize issues exactly one request for the given size, followed by exactly one logged error if and only if it failed |
| AppShell.App.constructor | oversee-tauri/src/App.tsx:11 | initially no file is open and the selector is shown |
| AppShell.App.HandleFileSelected | oversee-tauri/src/App.tsx:13-24 | `filePath` becomes exactly the path whether or not the resize fails; the path is stored before one 1200×900 request is issued |
| AppShell.App.HandleClose | oversee-tauri/src/App.tsx:26-37 | `filePath` becomes null whatever it was and the selector is shown; the state change precedes one 800×600 request; a failure is only logged |
| AppShell.ForwardedPathOpensViewer | oversee-tauri/src/App.tsx:41-45 | a path forwarded by the selector, once stored, brings up the viewer for that path |
| Common.Truthy | corpus-tauri/src/components/FileSelector.tsx:14 | a string is truthy exactly when it is not empty (the test used here and at `oversee-tauri/src/App.tsx:41`) |
| PdfViewer.RenderErrorMessage | corpus-tauri/src/components/PDFViewer.tsx:59 | the render error text is "Failed to render page " followed by digits that read back as `pageNum + 1`, and it differs from the metadata error |
| PdfViewer.PreviousDisabled | corpus-tauri/src/components/PDFViewer.tsx:94 | Previous is disabled iff `currentPage == 0`, that is exactly when the guard of `goToPreviousPage` fails |
| PdfViewer.NextDisabled | corpus-tauri/src/components/PDFViewer.tsx:104 | Next is disabled iff `pdfInfo` is null or `currentPage >= page_count - 1`, that is exactly when the guard of `goToNextPage` fails |
| PdfViewer.PageLabel | corpus-tauri/src/components/PDFViewer.tsx:99 | the label reads "Page <a> of <b>", where `a` reads back as `currentPage + 1` and `b` as the shown page count |
| PdfViewer.LoadingVisible | corpus-tauri/src/components/PDFViewer.tsx:113 | "Loading..." shows iff `loading` is set, and then the page image does not |
| PdfViewer.ErrorVisible | corpus-tauri/src/components/PDFViewer.tsx:118 | the error box shows iff the error text is non-null and non-empty; both texts the viewer sets are shown |
| PdfViewer.ImageVisible | corpus-tauri/src/components/PDFViewer.tsx:123 | the image shows iff a page has been rendered and `loading` is clear |
| PdfViewer.ShownPageCount | corpus-tauri/src/components/PDFViewer.tsx:99 | the label's count is the page count when it is known and 0 otherwise |
| PdfViewer.Mount | corpus-tauri/src/components/PDFViewer.tsx:23-31 | the initial state has `pdfInfo` null, page 0, no rendered page, `loading` false and `error` null; only `get_pdf_info` is requested; both buttons are disabled and nothing but the toolbar shows |
| PdfViewer.AfterRenderStart | corpus-tauri/src/components/PDFViewer.tsx:49-56 | starting a render sets `loading`, clears `error` and issues exactly one request for that page, changing nothing else |
| PdfViewer.AfterRenderEffect | corpus-tauri/src/components/PDFViewer.tsx:33-37 | the effect renders the current page when page information is known, and does nothing otherwise |
| PdfViewer.AfterInfoLoaded | corpus-tauri/src/components/PDFViewer.tsx:39-42 | page information is stored and one render of the current page is requested, with `loading` set and `error` cleared |
| PdfViewer.AfterInfoFailed | corpus-tauri/src/components/PDFViewer.tsx:43-46 | the error becomes "Failed to load PDF information"; `pdfInfo`, position, page, `loading` and requests are unchanged |
| PdfViewer.AfterPrevious | corpus-tauri/src/components/PDFViewer.tsx:66-70 | the state is unchanged iff the Previous button is disabled; otherwise the page goes down by exactly one |
| PdfViewer.AfterNext | corpus-tauri/src/components/PDFViewer.tsx:72-76 | the state is unchanged iff the Next button is disabled (always so without `pdfInfo`); otherwise the page goes up by exactly one |
| PdfViewer.AfterRenderLoaded | corpus-tauri/src/components/PDFViewer.tsx:57-63 | the arriving page replaces the shown one and `loading` is cleared; position, page info and error are unchanged |
| PdfViewer.AfterRenderFailed | corpus-tauri/src/components/PDFViewer.tsx:58-63 | the error names the page of the failed request and `loading` is cleared; the shown page, position and page info are unchanged |
| PdfViewer.Viewer.constructor | corpus-tauri/src/components/PDFViewer.tsx:23-31 | the fields start as `Mount` gives |
| PdfViewer.Viewer.RenderPage | corpus-tauri/src/components/PDFViewer.tsx:49-56 | the fields end as `AfterRenderStart` gives |
| PdfViewer.Viewer.RenderTrigger | corpus-tauri/src/components/PDFViewer.tsx:33-37 | the fields end as `AfterRenderEffect` gives |
| PdfViewer.Viewer.PdfInfoArrived | corpus-tauri/src/components/PDFViewer.tsx:41-42 | the fields end as `AfterInfoLoaded` gives |
| PdfViewer.Viewer.PdfInfoFailed | corpus-tauri/src/components/PDFViewer.tsx:43-46 | the fields end as `AfterInfoFailed` gives |
| PdfViewer.Viewer.GoToPreviousPage | corpus-tauri/src/components/PDFViewer.tsx:66-70 | the fields end as `AfterPrevious` gives |
| PdfViewer.Viewer.GoToNextPage | corpus-tauri/src/components/PDFViewer.tsx:72-76 | the fields end as `AfterNext` gives |
| PdfViewer.Viewer.RenderArrived | corpus-tauri/src/components/PDFViewer.tsx:57-63 | the fields end as `AfterRenderLoaded` gives |
| PdfViewer.Viewer.RenderFailed | corpus-tauri/src/components/PDFViewer.tsx:58-63 | the fields end as `AfterRenderFailed` gives |
| PdfViewerProps.MountIsValid | corpus-tauri/src/components/PDFViewer.tsx:23-31 | the initial session satisfies the invariant |
| PdfViewerProps.StepKeepsValid | corpus-tauri/src/components/PDFViewer.tsx:33-76 | every click and every answer keeps the invariant: page within `0..max(0, page_count - 1)`, no render before page info, one info answer, renders in flight within range |
| PdfViewerProps.RunKeepsValid | corpus-tauri/src/components/PDFViewer.tsx:33-76 | the invariant holds after any sequence of events, and the file never changes |
| PdfViewerProps.ReachablePageInBounds | corpus-tauri/src/components/PDFViewer.tsx:24 | after any events from mounting, `0 <= currentPage <= max(0, page_count - 1)`; without page info the page is 0 and no render was ever requested |
| PdfViewerProps.StepIssuesRenderRequests | corpus-tauri/src/components/PDFViewer.tsx:33-37 | an event issues one render request, for the new current page and only with page info known, exactly when the page changed or page info arrived; otherwise none; every render answer clears `loading` |
| PdfViewerProps.BoundaryClicksAreNoOps | corpus-tauri/src/components/PDFViewer.tsx:94-104 | a click on a disabled Previous or Next button changes nothing and requests nothing |
| PdfViewerProps.RenderFailureKeepsSession | corpus-tauri/src/components/PDFViewer.tsx:57-62 | a failed render keeps file, page info, position and shown page, and its visible message names page `pageNum + 1` |
| PdfViewerProps.ErrorMessagesDistinct | corpus-tauri/src/components/PDFViewer.tsx:44-59 | a render error never reads as the metadata error, and different pages give different messages |
| PdfViewerProps.PreviousAfterFailureRetries | corpus-tauri/src/components/PDFViewer.tsx:49-70 | after a failed render, Previous clears the error, sets `loading` and requests the previous page |
| PdfViewerProps.InfoFailureIsFinal | corpus-tauri/src/components/PDFViewer.tsx:34-47 | once page info has failed, no event changes the session: no render is ever requested and Next stays a no-op |
| PdfViewerProps.InfoFailureFromMount | corpus-tauri/src/components/PDFViewer.tsx:39-47 | failing page info from mount shows the metadata error, leaves `pdfInfo` null, keeps the request log at `get_pdf_info` alone and keeps Next disabled, whatever follows |
| PdfViewerProps.LastArrivalWins | corpus-tauri/src/components/PDFViewer.tsx:57-62 | with two renders in flight, the first answer clears `loading` while the other is still pending, and the last answer to arrive is shown even if it is the older request |
| PdfViewerProps.StaleImageShown | corpus-tauri/src/components/PDFViewer.tsx:57 | a three-page run in which the image of page 2 is shown, with no load pending, while the position is page 3 |
| PdfViewerProps.LabelNumbersInRange | corpus-tauri/src/components/PDFViewer.tsx:99 | in a valid session the label's page number is at most the count when the count is positive, and the label reads "of 0" without page info |

## Left out

- The rendering engine and the host plumbing are not part of this model.
  This covers loading a PDF, page access, rasterisation, PNG and base64
  encoding and the DPI scale factor (`oversee-tauri/src-tauri/src/commands/pdf.rs`).
  It also covers the native dialog, command registration and window
  resizing (`corpus-tauri/src-tauri/src/lib.rs`). Their calls appear only
  as events that succeed or fail; the success or failure of a resize is a
  parameter.
- `corpus-tauri/src-tauri/src/indexer/parse.rs` only prints page text, so
  there is nothing to model.
- Console logging in the selector and the shell is recorded as an effect
  (`ErrorLogged`, `ResizeFailureLogged`). The logged text is not modelled.
- The viewer's two `console.error` calls
  (`corpus-tauri/src/components/PDFViewer.tsx:45` and `:60`) are not
  recorded. The model keeps only the error text each failure stores.
- AppShell.App.HandleFileSelected and AppShell.App.HandleClose each run as
  one atomic step. The `await` of the resize call
  (`oversee-tauri/src/App.tsx:17` and `:30`) is not split into a request and
  an answer. So the model has no trace in which a close happens between a
  resize request and that resize's failure log.
- The `dpi: null` render option is always the same constant and is left
  out of `RenderPdfPage`.
- React mount and re-render semantics are replaced by explicit event
  methods. The effect on `[currentPage, pdfInfo]` runs when one of them
  changes: after a page change and after page info arrives.
- The viewer is not tied to the shell's `filePath`. Closing unmounts the
  viewer in the source, and answers that arrive after that are dropped by
  React. The model's viewer lives for one mount and one file only.
- A path change while the viewer is mounted is not modelled. This could
  come from a late `onFileSelected` call
  (`corpus-tauri/src/components/FileSelector.tsx:15`) if a second dialog
  were open. It would reach `setFilePath`
  (`oversee-tauri/src/App.tsx:14`) and change the viewer's `filePath`
  without remounting it. The effect at
  `corpus-tauri/src/components/PDFViewer.tsx:29-31` would then reload page
  information without resetting `currentPage` or the other cells. The
  page-bounds invariant is therefore proved per file, not for such a
  reload.
- JSX markup and styling are left out. The display predicates are modelled
  as functions on `Session`.
