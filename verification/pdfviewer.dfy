/** The PDF viewer (`evidence/PDFViewer.tsx`): page navigation, zoom,
    loading a document, external page requests and copying the selected
    text to a snippet. Rendering and text extraction are left to PDF.js
    and not modelled. */
module PdfViewer {
  import opened Wrappers

  /** The viewer's state. */
  datatype Viewer = Viewer(
    numPages: nat, currentPage: int, scale: real, loading: bool,
    error: Option<string>, selectedText: string, copied: bool)

  /** The viewer as it mounts: no pages yet, page 1, 100%, loading. */
  const Initial := Viewer(0, 1, 1.0, true, None, "", false)

  /** The page is a real page once a document with pages is loaded, and
      never below 1. */
  predicate PageValid(v: Viewer) {
    1 <= v.currentPage && (v.numPages >= 1 ==> v.currentPage <= v.numPages)
  }

  /** The zoom stays between 50% and 300%. */
  predicate ScaleValid(v: Viewer) {
    0.5 <= v.scale <= 3.0
  }

  predicate Valid(v: Viewer) {
    PageValid(v) && ScaleValid(v)
  }

  lemma InitialValid()
    ensures Valid(Initial)
  {
  }

  // ---------------------------------------------------------------------
  // Loading
  // ---------------------------------------------------------------------

  /** A new URL starts loading and clears the error. */
  function StartLoad(v: Viewer): (r: Viewer)
    ensures r.loading && r.error.None?
    ensures r.currentPage == v.currentPage && r.numPages == v.numPages && r.scale == v.scale
  {
    v.(loading := true, error := None)
  }

  /** A document with `n` pages arrived: back to page 1. */
  function Loaded(v: Viewer, n: nat): (r: Viewer)
    ensures r.numPages == n && r.currentPage == 1 && !r.loading
    ensures Valid(v) ==> Valid(r)
  {
    v.(numPages := n, currentPage := 1, loading := false)
  }

  /** Loading failed with the error's message, if it has one. */
  function LoadFailed(v: Viewer, message: string): (r: Viewer)
    ensures !r.loading && r.error.Some? && r.error.value != ""
    ensures message != "" ==> r.error == Some(message)
    ensures r.currentPage == v.currentPage && r.numPages == v.numPages
  {
    v.(error := Some(if message != "" then message else "Failed to load PDF"), loading := false)
  }

  // ---------------------------------------------------------------------
  // Navigation
  // ---------------------------------------------------------------------

  /** `goToPage`: only a page of the document is taken. */
  function GoToPage(v: Viewer, page: int): (r: Viewer)
    ensures 1 <= page <= v.numPages ==> r == v.(currentPage := page)
    ensures !(1 <= page <= v.numPages) ==> r == v
  {
    if page >= 1 && page <= v.numPages then v.(currentPage := page) else v
  }

  /** `previousPage`. */
  function Previous(v: Viewer): Viewer { GoToPage(v, v.currentPage - 1) }

  /** `nextPage`. */
  function Next(v: Viewer): Viewer { GoToPage(v, v.currentPage + 1) }

  /** The external request effect: a page number of the document is taken,
      anything else (absent, zero, out of range) is ignored. */
  function ExternalGoTo(v: Viewer, request: Option<int>): (r: Viewer)
    ensures request.Some? && 1 <= request.value <= v.numPages ==> r.currentPage == request.value
    ensures !(request.Some? && 1 <= request.value <= v.numPages) ==> r == v
  {
    if request.Some? && request.value != 0 && request.value >= 1 && request.value <= v.numPages
    then v.(currentPage := request.value) else v
  }

  /** An external request is the same as pressing `goToPage`. */
  lemma ExternalIsGoTo(v: Viewer, page: int)
    ensures ExternalGoTo(v, Some(page)) == GoToPage(v, page)
  {
  }

  /** Navigation never leaves the document and never touches the zoom. */
  lemma NavigationKeepsValid(v: Viewer, page: int, request: Option<int>)
    requires Valid(v)
    ensures Valid(GoToPage(v, page)) && Valid(Previous(v)) && Valid(Next(v)) && Valid(ExternalGoTo(v, request))
    ensures GoToPage(v, page).scale == v.scale && ExternalGoTo(v, request).scale == v.scale
  {
  }

  /** "Previous" on the first page and "Next" on the last do nothing;
      elsewhere they step by one, and stepping back undoes stepping on. */
  lemma StepsAtTheEnds(v: Viewer)
    requires Valid(v)
    ensures v.currentPage == 1 ==> Previous(v) == v
    ensures v.currentPage >= v.numPages ==> Next(v) == v
    ensures v.currentPage < v.numPages ==> Next(v).currentPage == v.currentPage + 1 && Previous(Next(v)) == v
    ensures 1 < v.currentPage <= v.numPages ==> Previous(v).currentPage == v.currentPage - 1 && Next(Previous(v)) == v
  {
  }

  // ---------------------------------------------------------------------
  // Zoom
  // ---------------------------------------------------------------------

  /** `zoomIn`: a quarter more, at most 300%. */
  function ZoomIn(v: Viewer): (r: Viewer)
    ensures r.scale == if v.scale + 0.25 < 3.0 then v.scale + 0.25 else 3.0
    ensures r == v.(scale := r.scale)
  {
    v.(scale := if v.scale + 0.25 <= 3.0 then v.scale + 0.25 else 3.0)
  }

  /** `zoomOut`: a quarter less, at least 50%. */
  function ZoomOut(v: Viewer): (r: Viewer)
    ensures r.scale == if v.scale - 0.25 > 0.5 then v.scale - 0.25 else 0.5
    ensures r == v.(scale := r.scale)
  {
    v.(scale := if v.scale - 0.25 >= 0.5 then v.scale - 0.25 else 0.5)
  }

  /** `resetZoom`. */
  function ResetZoom(v: Viewer): (r: Viewer)
    ensures r.scale == 1.0 && r == v.(scale := 1.0)
  {
    v.(scale := 1.0)
  }

  /** The zoom buttons keep the scale within bounds and leave the page. */
  lemma ZoomKeepsValid(v: Viewer)
    requires Valid(v)
    ensures Valid(ZoomIn(v)) && Valid(ZoomOut(v)) && Valid(ResetZoom(v))
  {
  }

  /** Away from the bounds, zooming in and out cancel; at the bounds the
      button does nothing. */
  lemma ZoomInOutCancel(v: Viewer)
    requires Valid(v)
    ensures v.scale <= 2.75 ==> ZoomOut(ZoomIn(v)) == v
    ensures v.scale >= 0.75 ==> ZoomIn(ZoomOut(v)) == v
    ensures v.scale == 3.0 ==> ZoomIn(v) == v
    ensures v.scale == 0.5 ==> ZoomOut(v) == v
  {
  }

  // ---------------------------------------------------------------------
  // Copying
  // ---------------------------------------------------------------------

  /** Where `copyToSnippet` sends the selection. */
  datatype Copy = ToSnippet(text: string, page: int) | ToClipboard(text: string) | NoCopy

  /** `copyToSnippet`: with a selection, to the snippet callback when there
      is one (with the current page), otherwise to the clipboard. */
  function CopyToSnippet(v: Viewer, hasCallback: bool): (r: (Viewer, Copy))
    ensures r.1.ToSnippet? <==> v.selectedText != "" && hasCallback
    ensures r.1.ToClipboard? <==> v.selectedText != "" && !hasCallback
    ensures r.1.ToSnippet? ==> r.1.text == v.selectedText && r.1.page == v.currentPage
    ensures r.1.ToClipboard? ==> r.1.text == v.selectedText
    ensures r.0.copied <==> v.copied || !r.1.NoCopy?
    ensures r.0.currentPage == v.currentPage && r.0.selectedText == v.selectedText
  {
    if v.selectedText != "" && hasCallback then (v.(copied := true), ToSnippet(v.selectedText, v.currentPage))
    else if v.selectedText != "" then (v.(copied := true), ToClipboard(v.selectedText))
    else (v, NoCopy)
  }

  /** A snippet always names a page of the loaded document. */
  lemma SnippetPageInDocument(v: Viewer, hasCallback: bool)
    requires Valid(v) && v.numPages >= 1
    ensures var c := CopyToSnippet(v, hasCallback).1;
      c.ToSnippet? ==> 1 <= c.page <= v.numPages
  {
  }
}
