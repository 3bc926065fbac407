/**
 * The hover preview of the results page: a 600 by 400 window that shows
 * a bookmark's page in a frame, placed beside the hovered link and kept
 * inside the viewport.
 *
 * `PlaceLeft` and `PlaceTop` say where `updatePosition` puts the window;
 * `PreviewState` and the step functions after it say what each handler
 * does to the preview's fields. The class `BookmarkPreview` holds those
 * fields and is proved against the step functions. Coordinates are
 * whole CSS pixels; the timers are flags saying whether one is pending.
 */
module Preview {
  import opened Wrappers

  const ContainerWidth := 600
  const ContainerHeight := 400
  const Margin := 20

  const LoadingTitle := "Loading preview..."
  const FailedTitle := "Failed to load preview"
  const BlankPage := "about:blank"

  /** A link's bounding box in viewport coordinates. */
  datatype Rect = Rect(left: int, top: int, right: int, bottom: int)

  /** Whether the window fits to the right of the link, keeping the margin to the viewport's edge. */
  predicate FitsRight(rect: Rect, innerWidth: int) {
    rect.right + Margin + ContainerWidth <= innerWidth - Margin
  }

  /**
   * The window's left edge: right of the link when it fits there,
   * otherwise left of the link, never closer than the margin to the
   * viewport's left edge.
   */
  function PlaceLeft(rect: Rect, innerWidth: int): (left: int)
    ensures left >= Margin
    ensures FitsRight(rect, innerWidth) && rect.right >= 0 ==> left == rect.right + Margin
    ensures !FitsRight(rect, innerWidth) && rect.left - ContainerWidth - Margin >= Margin ==>
      left + ContainerWidth + Margin == rect.left
    ensures !FitsRight(rect, innerWidth) && rect.left - ContainerWidth - Margin < Margin ==> left == Margin
    ensures rect.left <= innerWidth && innerWidth >= ContainerWidth + 2 * Margin ==>
      left + ContainerWidth <= innerWidth - Margin
  {
    var beside := if FitsRight(rect, innerWidth) then rect.right + Margin else rect.left - ContainerWidth - Margin;
    if beside < Margin then Margin else beside
  }

  /**
   * The window's top edge: level with the link, moved up when it would
   * cross the bottom margin, never above the top margin.
   */
  function PlaceTop(rect: Rect, innerHeight: int): (top: int)
    ensures top >= Margin
    ensures Margin <= rect.top && rect.top + ContainerHeight <= innerHeight - Margin ==> top == rect.top
    ensures innerHeight >= ContainerHeight + 2 * Margin ==> top + ContainerHeight <= innerHeight - Margin
    ensures innerHeight < ContainerHeight + 2 * Margin ==> top == Margin
  {
    var raised := if rect.top + ContainerHeight > innerHeight - Margin then innerHeight - ContainerHeight - Margin else rect.top;
    if raised < Margin then Margin else raised
  }

  /** On a viewport with room for the window and its margins, the window lies wholly inside it. */
  lemma PlacementInsideViewport(rect: Rect, innerWidth: int, innerHeight: int)
    requires rect.left <= innerWidth
    requires innerWidth >= ContainerWidth + 2 * Margin && innerHeight >= ContainerHeight + 2 * Margin
    ensures Margin <= PlaceLeft(rect, innerWidth) && PlaceLeft(rect, innerWidth) + ContainerWidth <= innerWidth - Margin
    ensures Margin <= PlaceTop(rect, innerHeight) && PlaceTop(rect, innerHeight) + ContainerHeight <= innerHeight - Margin
  {
  }

  /** When the window is placed left of a link it does not cover the link, unless the clamp pushed it. */
  lemma LeftPlacementClearsLink(rect: Rect, innerWidth: int)
    requires !FitsRight(rect, innerWidth)
    requires PlaceLeft(rect, innerWidth) > Margin
    ensures PlaceLeft(rect, innerWidth) + ContainerWidth < rect.left
  {
  }

  /** The preview's fields: the page shown, the pointer flag, the container and frame, the title, the timers and the position. */
  datatype PreviewState = PreviewState(
    currentUrl: Option<string>,
    isMouseOverPreview: bool,
    visible: bool,
    frameSrc: string,
    title: string,
    previewPending: Option<string>,
    hidePending: bool,
    left: int,
    top: int)

  /** The container is displayed exactly while a page is current, and the frame shows that page. */
  predicate Consistent(s: PreviewState) {
    (s.visible <==> s.currentUrl.Some?)
    && (s.currentUrl.Some? ==> s.frameSrc == s.currentUrl.value)
  }

  /** `show(url)`: nothing when the page is already current; otherwise the page is loaded into the displayed container. */
  function ShowStep(s: PreviewState, url: string): (r: PreviewState)
    ensures Consistent(s) ==> Consistent(r)
    ensures r.currentUrl == Some(url)
    ensures Consistent(s) ==> r.visible && r.frameSrc == url
    ensures s.currentUrl != Some(url) ==> r.title == LoadingTitle && !r.hidePending
    ensures s.currentUrl == Some(url) ==> r == s
  {
    if s.currentUrl == Some(url) then s
    else s.(currentUrl := Some(url), hidePending := false, title := LoadingTitle, frameSrc := url, visible := true)
  }

  /** `hide()`: whatever the state, the container is hidden, the frame blanked and both timers cancelled. */
  function HideStep(s: PreviewState): (r: PreviewState)
    ensures Consistent(r)
    ensures r.currentUrl.None? && !r.visible && !r.isMouseOverPreview && r.frameSrc == BlankPage
    ensures r.previewPending.None? && !r.hidePending
    ensures r.title == s.title && r.left == s.left && r.top == s.top
  {
    s.(visible := false, frameSrc := BlankPage, currentUrl := None, isMouseOverPreview := false,
       previewPending := None, hidePending := false)
  }

  /** `handleUrlHover`: replaces any pending preview with one for `url` and moves the window beside the link. */
  function Hover(s: PreviewState, url: string, rect: Rect, innerWidth: int, innerHeight: int): (r: PreviewState)
    ensures r.previewPending == Some(url)
    ensures r.left == PlaceLeft(rect, innerWidth) && r.top == PlaceTop(rect, innerHeight)
    ensures r.currentUrl == s.currentUrl && r.visible == s.visible && r.frameSrc == s.frameSrc
  {
    s.(previewPending := Some(url), left := PlaceLeft(rect, innerWidth), top := PlaceTop(rect, innerHeight))
  }

  /** `handleUrlLeave`: cancels the pending preview and (re)starts the hide timer. */
  function Leave(s: PreviewState): (r: PreviewState)
    ensures r.previewPending.None? && r.hidePending
    ensures r.currentUrl == s.currentUrl && r.visible == s.visible
  {
    s.(previewPending := None, hidePending := true)
  }

  /** The 500 ms preview timer fires: the pending page is shown. */
  function PreviewTimerFired(s: PreviewState): (r: PreviewState)
    ensures s.previewPending.Some? ==> r == ShowStep(s.(previewPending := None), s.previewPending.value)
    ensures s.previewPending.None? ==> r == s
  {
    match s.previewPending
    case None => s
    case Some(url) => ShowStep(s.(previewPending := None), url)
  }

  /** The 300 ms hide timer fires: the preview is hidden unless the pointer is over it. */
  function HideTimerFired(s: PreviewState): (r: PreviewState)
    ensures s.hidePending && !s.isMouseOverPreview ==> r == HideStep(s)
    ensures !s.hidePending || s.isMouseOverPreview ==> r.currentUrl == s.currentUrl && r.visible == s.visible
  {
    if !s.hidePending then s
    else if s.isMouseOverPreview then s.(hidePending := false)
    else HideStep(s.(hidePending := false))
  }

  /** Showing the same page twice is showing it once. */
  lemma ShowIdempotent(s: PreviewState, url: string)
    ensures ShowStep(ShowStep(s, url), url) == ShowStep(s, url)
  {
  }

  /** Hiding twice is hiding once, and hiding forgets the page, so showing it again reloads it. */
  lemma HideIdempotent(s: PreviewState, url: string)
    ensures HideStep(HideStep(s)) == HideStep(s)
    ensures ShowStep(HideStep(s), url).title == LoadingTitle
    ensures ShowStep(HideStep(s), url).frameSrc == url && ShowStep(HideStep(s), url).visible
  {
  }

  /** Every handler keeps the container and the frame consistent with the current page. */
  lemma StepsKeepConsistent(s: PreviewState, url: string, rect: Rect, innerWidth: int, innerHeight: int)
    requires Consistent(s)
    ensures Consistent(Hover(s, url, rect, innerWidth, innerHeight))
    ensures Consistent(Leave(s))
    ensures Consistent(PreviewTimerFired(s))
    ensures Consistent(HideTimerFired(s))
  {
  }

  /** A hover followed by its timer shows the hovered page, already placed inside a roomy viewport. */
  lemma HoverThenTimerShows(s: PreviewState, url: string, rect: Rect, innerWidth: int, innerHeight: int)
    requires Consistent(s)
    requires rect.left <= innerWidth
    requires innerWidth >= ContainerWidth + 2 * Margin && innerHeight >= ContainerHeight + 2 * Margin
    ensures var r := PreviewTimerFired(Hover(s, url, rect, innerWidth, innerHeight));
      r.visible && r.currentUrl == Some(url) && r.frameSrc == url
      && Margin <= r.left && r.left + ContainerWidth <= innerWidth - Margin
      && Margin <= r.top && r.top + ContainerHeight <= innerHeight - Margin
  {
    PlacementInsideViewport(rect, innerWidth, innerHeight);
  }

  class BookmarkPreview {
    var currentUrl: Option<string>
    var isMouseOverPreview: bool
    /** The container's `display` is 'block'. */
    var visible: bool
    var frameSrc: string
    var title: string
    /** The url of the pending `previewTimeout`, if one is pending. */
    var previewPending: Option<string>
    /** Whether a `hideTimeout` is pending. */
    var hidePending: bool
    /** The container's style `left` and `top`, in pixels. */
    var left: int
    var top: int

    function State(): PreviewState
      reads this
    {
      PreviewState(currentUrl, isMouseOverPreview, visible, frameSrc, title, previewPending, hidePending, left, top)
    }

    /** The fields as the `DOMContentLoaded` handler sets them, with the container hidden and the frame empty. */
    constructor()
      ensures Consistent(State())
      ensures currentUrl.None? && !isMouseOverPreview && previewPending.None? && !hidePending
    {
      currentUrl := None;
      isMouseOverPreview := false;
      visible := false;
      frameSrc := "";
      title := "";
      previewPending := None;
      hidePending := false;
      left := 0;
      top := 0;
    }

    /** `updatePosition`: the clamps applied one after the other to the link's box. */
    method UpdatePosition(rect: Rect, innerWidth: int, innerHeight: int)
      modifies this`left, this`top
      ensures left == PlaceLeft(rect, innerWidth) && top == PlaceTop(rect, innerHeight)
    {
      var l := rect.right + Margin;
      var t := rect.top;
      if l + ContainerWidth > innerWidth - Margin {
        l := rect.left - ContainerWidth - Margin;
      }
      if l < Margin {
        l := Margin;
      }
      if t + ContainerHeight > innerHeight - Margin {
        t := innerHeight - ContainerHeight - Margin;
      }
      if t < Margin {
        t := Margin;
      }
      left, top := l, t;
    }

    method Show(url: string)
      modifies this
      ensures State() == ShowStep(old(State()), url)
    {
      if currentUrl == Some(url) {
        return;
      }
      hidePending := false;
      currentUrl := Some(url);
      title := LoadingTitle;
      frameSrc := url;
      visible := true;
    }

    method Hide()
      modifies this
      ensures State() == HideStep(old(State()))
    {
      visible := false;
      frameSrc := BlankPage;
      currentUrl := None;
      isMouseOverPreview := false;
      previewPending := None;
      hidePending := false;
    }

    method HandleUrlHover(url: string, rect: Rect, innerWidth: int, innerHeight: int)
      modifies this
      ensures State() == Hover(old(State()), url, rect, innerWidth, innerHeight)
    {
      previewPending := Some(url);
      UpdatePosition(rect, innerWidth, innerHeight);
    }

    method HandleUrlLeave()
      modifies this
      ensures State() == Leave(old(State()))
    {
      previewPending := None;
      hidePending := true;
    }

    method OnPreviewTimer()
      modifies this
      ensures State() == PreviewTimerFired(old(State()))
    {
      if previewPending.Some? {
        var url := previewPending.value;
        previewPending := None;
        Show(url);
      }
    }

    method OnHideTimer()
      modifies this
      ensures State() == HideTimerFired(old(State()))
    {
      if hidePending {
        hidePending := false;
        if !isMouseOverPreview {
          Hide();
        }
      }
    }

    /** The pointer moves onto a bookmark's link: the hide timer is cancelled and the hover handled. */
    method UrlMouseOver(url: string, rect: Rect, innerWidth: int, innerHeight: int)
      modifies this
      ensures State() == Hover(old(State()).(hidePending := false), url, rect, innerWidth, innerHeight)
    {
      hidePending := false;
      HandleUrlHover(url, rect, innerWidth, innerHeight);
    }

    /** The pointer enters the container: it stays open. */
    method MouseEnter()
      modifies this
      ensures State() == old(State()).(isMouseOverPreview := true, hidePending := false)
    {
      isMouseOverPreview := true;
      hidePending := false;
    }

    /** The pointer leaves the container: the hide timer starts. */
    method MouseLeave()
      modifies this
      ensures State() == Leave(old(State()).(isMouseOverPreview := false))
    {
      isMouseOverPreview := false;
      HandleUrlLeave();
    }

    /** The frame finished loading: the title becomes the page's url (empty when none is current). */
    method FrameLoaded()
      modifies this`title
      ensures title == if currentUrl.Some? then currentUrl.value else ""
    {
      title := if currentUrl.Some? then currentUrl.value else "";
    }

    method FrameFailed()
      modifies this`title
      ensures title == FailedTitle
    {
      title := FailedTitle;
    }
  }
}
