/**
 * The navigation state of the web part (`DocumenthubWebPart`): the breadcrumb
 * stack of folder descent, the delta cursor and sort/filter settings of the
 * "All Documents" view, the `_loadingMore` guard of infinite scroll, the
 * document grid's content, and the `throttle` closure.
 */
module Navigation {
  import opened Wrappers
  import opened Items
  import opened Listing
  import Text

  /** One breadcrumb entry, `{ id, name }`. */
  datatype Crumb = Crumb(id: string, name: string)

  /** What the grid is loaded with after a navigation step. */
  datatype View = RecentView | FolderView(folderId: string)

  /**
   * One block of the document grid: an item tile, a message paragraph, or
   * what `loadFolderContents` writes for a folder (its breadcrumb bar and its
   * children, which this model does not render).
   */
  datatype GridEntry = Tile(item: Item) | Notice(text: string) | FolderContents(folderId: string)

  /** `_searchRowLimit`, the `$top` of the first delta request. */
  const PageSize: nat := 50

  /** Pixels from the bottom at which a scroll fetches the next page. */
  const ScrollThreshold: int := 100

  /** The throttle interval of the scroll handler, in milliseconds. */
  const ScrollThrottleMillis: int := 200

  const ErrorLoading: string := "Error loading documents."
  const NoMoreDocuments: string := "No more documents."
  const NoRecentDocuments: string := "No recent documents found."
  const DefaultFolderName: string := "Folder"

  // ---------------------------------------------------------------------------
  // breadcrumb stack

  /** `_breadcrumb.push(crumb)`. */
  function Pushed(bc: seq<Crumb>, c: Crumb): seq<Crumb> {
    bc + [c]
  }

  /** `_breadcrumb.pop()`, which leaves an empty stack empty. */
  function Popped(bc: seq<Crumb>): seq<Crumb> {
    if bc == [] then [] else bc[..|bc| - 1]
  }

  /** `_breadcrumb.slice(0, index + 1)`, which clamps at the end. */
  function Truncated(bc: seq<Crumb>, index: nat): seq<Crumb> {
    bc[..Min(index + 1, |bc|)]
  }

  /** The view for a stack: its top folder, or the Recent view when it is empty. */
  function TopView(bc: seq<Crumb>): View {
    if bc == [] then RecentView else FolderView(bc[|bc| - 1].id)
  }

  /** `textContent || 'Folder'`. */
  function FolderName(title: Option<string>): (r: string)
    ensures r != ""
    ensures title.Some? && title.value != "" ==> r == title.value
    ensures title.None? || title.value == "" ==> r == DefaultFolderName
  {
    if title.Some? && Text.Truthy(title.value) then title.value else DefaultFolderName
  }

  /** Back undoes a descent. */
  lemma PopUndoesPush(bc: seq<Crumb>, c: Crumb)
    ensures Popped(Pushed(bc, c)) == bc
    ensures TopView(Pushed(bc, c)) == FolderView(c.id)
  {
  }

  /** A crumb click at index `i` keeps exactly entries `0..i` and shows entry `i`. */
  lemma TruncateKeepsUpToIndex(bc: seq<Crumb>, i: nat)
    requires i < |bc|
    ensures Truncated(bc, i) == bc[..i + 1]
    ensures TopView(Truncated(bc, i)) == FolderView(bc[i].id)
  {
  }

  /** Descending A, B, C and then going back twice shows A. */
  lemma BackTwiceShowsFirstFolder(a: Crumb, b: Crumb, c: Crumb)
    ensures var bc := Popped(Popped(Pushed(Pushed(Pushed([], a), b), c)));
      bc == [a] && TopView(bc) == FolderView(a.id)
  {
  }

  /** Going back from any stack shows the folder below the top, or the Recent view. */
  lemma BackShowsParent(bc: seq<Crumb>)
    ensures |bc| >= 2 ==> TopView(Popped(bc)) == FolderView(bc[|bc| - 2].id)
    ensures |bc| <= 1 ==> TopView(Popped(bc)) == RecentView
  {
  }

  // ---------------------------------------------------------------------------
  // delta paging

  /** `/drives/${driveId}/root/delta?$top=${pageSize}`. */
  function InitialDeltaUrl(driveId: string): string {
    "/drives/" + driveId + "/root/delta?$top=" + Text.NatToString(PageSize)
  }

  /** The URL of the next "All Documents" fetch: the stored cursor if truthy, else the first page. */
  function DeltaUrl(cursor: Option<string>, driveId: string): (url: string)
    ensures cursor.Some? && cursor.value != "" ==> url == cursor.value
    ensures cursor.None? || cursor.value == "" ==> url == InitialDeltaUrl(driveId)
  {
    if cursor.Some? && Text.Truthy(cursor.value) then cursor.value else InitialDeltaUrl(driveId)
  }

  /** The tiles of a page, in order. */
  function Tiles(items: seq<Item>): (r: seq<GridEntry>)
    ensures |r| == |items|
    ensures forall k :: 0 <= k < |r| ==> r[k] == Tile(items[k])
  {
    seq(|items|, k requires 0 <= k < |items| => Tile(items[k]))
  }

  /** The HTML `renderAllDocuments` returns for a transformed page. */
  function PageEntries(items: seq<Item>): seq<GridEntry> {
    if items == [] then [Notice(NoMoreDocuments)] else Tiles(items)
  }

  /** `/me/drive/recent`, the request of the Recent view. */
  const RecentUrl: string := "/me/drive/recent"

  /**
   * The Recent view's grid: the tiles of the projection of `value || []`; a
   * failed request and an empty projection each give their message.
   */
  function RecentEntries(o: Oracle<Item>): seq<GridEntry> {
    if RecentUrl !in o then [Notice(ErrorLoading)]
    else
      var shown := Recent(ValueOrEmpty(o[RecentUrl]));
      if shown == [] then [Notice(NoRecentDocuments)] else Tiles(shown)
  }

  /** What the grid holds once a navigation step has loaded `v`. */
  function ViewEntries(v: View, o: Oracle<Item>): seq<GridEntry> {
    match v
    case RecentView => RecentEntries(o)
    case FolderView(id) => [FolderContents(id)]
  }

  /**
   * `renderRecentDocuments`: the page is filtered and sorted in place and
   * sliced to ten, which gives the tiles of `Recent` or one of the messages.
   */
  method RenderRecentDocuments(o: Oracle<Item>) returns (html: seq<GridEntry>)
    ensures RecentUrl !in o ==> html == [Notice(ErrorLoading)]
    ensures RecentUrl in o ==>
      var shown := Recent(ValueOrEmpty(o[RecentUrl]));
      html == if shown == [] then [Notice(NoRecentDocuments)] else Tiles(shown)
    ensures html == RecentEntries(o)
  {
    if RecentUrl !in o {
      return [Notice(ErrorLoading)];
    }
    var items := RecentProjection(ValueOrEmpty(o[RecentUrl]));
    if |items| == 0 {
      return [Notice(NoRecentDocuments)];
    }
    html := Tiles(items);
  }

  // ---------------------------------------------------------------------------
  // the web part's navigation state

  class DocumentHub {
    /** `_driveId`, resolved at start-up. */
    var driveId: string
    /** `_breadcrumb`. */
    var breadcrumb: seq<Crumb>
    /** `_allDocsNextLink`, the delta cursor. */
    var allDocsNextLink: Option<string>
    /** `_loadingMore`. */
    var loadingMore: bool
    /** `_sortOption`. */
    var sortOption: SortOption
    /** `_filterLast7Days`. */
    var filterLast7Days: bool
    /**
     * The content of the `.documentGrid` element. Every render writes it: the
     * first render, the Recent view, folder loads, the All Documents pages and
     * the other sidebar entries replace it, and a scroll fetch appends to it.
     */
    var grid: seq<GridEntry>

    /** The state after `onInit` and the first `render`, which loads the Recent view. */
    constructor (driveId: string, o: Oracle<Item>)
      ensures this.driveId == driveId
      ensures breadcrumb == [] && allDocsNextLink == None && !loadingMore
      ensures sortOption == ModifiedDesc && !filterLast7Days
      ensures grid == RecentEntries(o)
    {
      var html := RenderRecentDocuments(o);
      this.driveId := driveId;
      breadcrumb := [];
      allDocsNextLink := None;
      loadingMore := false;
      sortOption := ModifiedDesc;
      filterLast7Days := false;
      grid := html;
    }

    /**
     * A click on a folder tile: a tile without a `data-id` does nothing;
     * otherwise `{id, name}` is pushed (name defaulting to "Folder") and the
     * folder, the new top, is loaded.
     */
    method OpenFolder(itemId: Option<string>, title: Option<string>) returns (shown: Option<View>)
      modifies this`breadcrumb, this`grid
      ensures itemId.None? || itemId.value == "" ==>
        breadcrumb == old(breadcrumb) && grid == old(grid) && shown == None
      ensures itemId.Some? && itemId.value != "" ==>
        && breadcrumb == Pushed(old(breadcrumb), Crumb(itemId.value, FolderName(title)))
        && shown == Some(FolderView(itemId.value))
        && shown == Some(TopView(breadcrumb))
        && grid == [FolderContents(itemId.value)]
    {
      if itemId.None? || !Text.Truthy(itemId.value) {
        return None;
      }
      breadcrumb := breadcrumb + [Crumb(itemId.value, FolderName(title))];
      shown := Some(FolderView(itemId.value));
      grid := [FolderContents(itemId.value)];
    }

    /**
     * A click on the crumb at `index`: the stack keeps entries `0..index`; its
     * top is loaded, or the Recent view when nothing is left.
     */
    method ClickCrumb(index: nat, o: Oracle<Item>) returns (shown: View)
      modifies this`breadcrumb, this`grid
      ensures breadcrumb == Truncated(old(breadcrumb), index)
      ensures shown == TopView(breadcrumb)
      ensures grid == ViewEntries(shown, o)
    {
      breadcrumb := breadcrumb[..Min(index + 1, |breadcrumb|)];
      if |breadcrumb| > 0 {
        shown := FolderView(breadcrumb[|breadcrumb| - 1].id);
        grid := [FolderContents(shown.folderId)];
      } else {
        breadcrumb := [];
        shown := RecentView;
        grid := RenderRecentDocuments(o);
      }
    }

    /** The Back button: one entry is popped; the new top is loaded, or the Recent view. */
    method Back(o: Oracle<Item>) returns (shown: View)
      modifies this`breadcrumb, this`grid
      ensures breadcrumb == Popped(old(breadcrumb))
      ensures shown == TopView(breadcrumb)
      ensures grid == ViewEntries(shown, o)
    {
      if |breadcrumb| > 0 {
        breadcrumb := breadcrumb[..|breadcrumb| - 1];
      }
      if |breadcrumb| > 0 {
        shown := FolderView(breadcrumb[|breadcrumb| - 1].id);
        grid := [FolderContents(shown.folderId)];
      } else {
        breadcrumb := [];
        shown := RecentView;
        grid := RenderRecentDocuments(o);
      }
    }

    /**
     * The Recent tab, the Recent sidebar entry, a cleared search box and the
     * refresh after an upload: the grid shows the Recent view. The breadcrumb
     * and the delta cursor are left as they are.
     */
    method ShowRecent(o: Oracle<Item>)
      modifies this`grid
      ensures grid == RecentEntries(o)
    {
      grid := RenderRecentDocuments(o);
    }

    /**
     * Any other render of the grid (My Folders, Shared With Me, search
     * results, the tab placeholders), whose content is given: it replaces the
     * grid and changes nothing else.
     */
    method ShowOther(html: seq<GridEntry>)
      modifies this`grid
      ensures grid == html
    {
      grid := html;
    }

    /**
     * `renderAllDocuments`: one delta page from the cursor (or the first page),
     * filtered and sorted by the current settings; the cursor becomes the page's
     * `@odata.nextLink`, which is None after the last page. A failed request, or
     * a page without `value`, leaves the cursor as it was.
     */
    method RenderAllDocuments(o: Oracle<Item>, now: int, collate: (string, string) -> bool)
      returns (html: seq<GridEntry>)
      modifies this`allDocsNextLink
      ensures var url := DeltaUrl(old(allDocsNextLink), driveId);
        if url in o && o[url].value.Some? then
          && allDocsNextLink == o[url].nextLink
          && html == PageEntries(Transformed(o[url].value.value, sortOption, filterLast7Days, now, collate))
        else
          allDocsNextLink == old(allDocsNextLink) && html == [Notice(ErrorLoading)]
    {
      var url := DeltaUrl(allDocsNextLink, driveId);
      if url !in o || o[url].value.None? {
        return [Notice(ErrorLoading)];
      }
      var resp := o[url];
      var items := TransformPage(resp.value.value, sortOption, filterLast7Days, now, collate);
      allDocsNextLink := resp.nextLink;
      if |items| == 0 {
        return [Notice(NoMoreDocuments)];
      }
      html := Tiles(items);
    }

    /** The "All Documents" sidebar entry: delta paging restarts and the guard is cleared. */
    method SelectAllDocuments(o: Oracle<Item>, now: int, collate: (string, string) -> bool)
      modifies this`allDocsNextLink, this`loadingMore, this`grid
      ensures !loadingMore
      ensures var url := InitialDeltaUrl(driveId);
        if url in o && o[url].value.Some? then
          && allDocsNextLink == o[url].nextLink
          && grid == PageEntries(Transformed(o[url].value.value, sortOption, filterLast7Days, now, collate))
        else
          allDocsNextLink == None && grid == [Notice(ErrorLoading)]
    {
      allDocsNextLink := None;
      loadingMore := false;
      grid := RenderAllDocuments(o, now, collate);
    }

    /**
     * A change of the sort drop-down: the option is stored and the grid is
     * replaced by a fresh `renderAllDocuments`, which continues from the stored
     * cursor rather than restarting.
     */
    method ChangeSort(opt: SortOption, o: Oracle<Item>, now: int, collate: (string, string) -> bool)
      modifies this`sortOption, this`allDocsNextLink, this`grid
      ensures sortOption == opt
      ensures var url := DeltaUrl(old(allDocsNextLink), driveId);
        if url in o && o[url].value.Some? then
          && allDocsNextLink == o[url].nextLink
          && grid == PageEntries(Transformed(o[url].value.value, opt, filterLast7Days, now, collate))
        else
          allDocsNextLink == old(allDocsNextLink) && grid == [Notice(ErrorLoading)]
    {
      sortOption := opt;
      grid := RenderAllDocuments(o, now, collate);
    }

    /** A change of the 7-day checkbox, re-rendered the same way as a sort change. */
    method ChangeFilter(last7Days: bool, o: Oracle<Item>, now: int, collate: (string, string) -> bool)
      modifies this`filterLast7Days, this`allDocsNextLink, this`grid
      ensures filterLast7Days == last7Days
      ensures var url := DeltaUrl(old(allDocsNextLink), driveId);
        if url in o && o[url].value.Some? then
          && allDocsNextLink == o[url].nextLink
          && grid == PageEntries(Transformed(o[url].value.value, sortOption, last7Days, now, collate))
        else
          allDocsNextLink == old(allDocsNextLink) && grid == [Notice(ErrorLoading)]
    {
      filterLast7Days := last7Days;
      grid := RenderAllDocuments(o, now, collate);
    }

    /**
     * The synchronous part of the scroll handler: a continuation fetch starts
     * only when none is in flight and the grid is scrolled to within 100 pixels
     * of its bottom; starting it raises `_loadingMore`.
     */
    method BeginScroll(scrollTop: int, clientHeight: int, scrollHeight: int) returns (start: bool)
      modifies this`loadingMore
      ensures start <==> !old(loadingMore) && scrollTop + clientHeight >= scrollHeight - ScrollThreshold
      ensures loadingMore == (old(loadingMore) || start)
    {
      start := !loadingMore && scrollTop + clientHeight >= scrollHeight - ScrollThreshold;
      if start {
        loadingMore := true;
      }
    }

    /** The continuation once the page is in: appended after the grid, and the guard lowered. */
    method FinishScroll(more: seq<GridEntry>)
      modifies this`grid, this`loadingMore
      ensures grid == old(grid) + more
      ensures !loadingMore
    {
      grid := grid + more;
      loadingMore := false;
    }

    /**
     * One run of the throttled scroll handler. While the page is fetched the
     * guard stays raised (the fetch does not touch it); the page is appended
     * after the existing content and the guard is lowered again.
     */
    method OnScroll(scrollTop: int, clientHeight: int, scrollHeight: int,
                    o: Oracle<Item>, now: int, collate: (string, string) -> bool)
      returns (fetched: bool)
      modifies this`loadingMore, this`grid, this`allDocsNextLink
      ensures fetched <==> !old(loadingMore) && scrollTop + clientHeight >= scrollHeight - ScrollThreshold
      ensures !fetched ==>
        grid == old(grid) && loadingMore == old(loadingMore) && allDocsNextLink == old(allDocsNextLink)
      ensures fetched ==> !loadingMore && |grid| >= |old(grid)| && grid[..|old(grid)|] == old(grid)
      ensures fetched ==> var url := DeltaUrl(old(allDocsNextLink), driveId);
        if url in o && o[url].value.Some? then
          && allDocsNextLink == o[url].nextLink
          && grid == old(grid) + PageEntries(Transformed(o[url].value.value, sortOption, filterLast7Days, now, collate))
        else
          allDocsNextLink == old(allDocsNextLink) && grid == old(grid) + [Notice(ErrorLoading)]
    {
      fetched := BeginScroll(scrollTop, clientHeight, scrollHeight);
      if fetched {
        var more := RenderAllDocuments(o, now, collate);
        assert loadingMore;
        FinishScroll(more);
      }
    }
  }

  // ---------------------------------------------------------------------------
  // throttle

  /**
   * The closure `throttle(fn, wait)` returns: its one variable `last` starts
   * at 0, and a call at clock value `now` runs `fn` iff `now - last >= wait`.
   * `fires` records the clock values at which `fn` ran.
   */
  class Throttle {
    const wait: int
    var last: int
    ghost var fires: seq<int>

    /** `last` is the latest firing time (0 before any), and firings are `wait` apart. */
    ghost predicate Valid()
      reads this
    {
      && (fires == [] ==> last == 0)
      && (fires != [] ==> last == fires[|fires| - 1] && fires[0] >= wait)
      && (forall k :: 0 <= k < |fires| - 1 ==> fires[k + 1] - fires[k] >= wait)
    }

    constructor (wait: int)
      ensures Valid() && this.wait == wait && last == 0 && fires == []
    {
      this.wait := wait;
      last := 0;
      fires := [];
    }

    /** One call of the throttled function at clock value `now`. */
    method Call(now: int) returns (fired: bool)
      requires Valid()
      modifies this`last, this`fires
      ensures Valid()
      ensures fired <==> now - old(last) >= wait
      ensures last == if fired then now else old(last)
      ensures fires == if fired then old(fires) + [now] else old(fires)
    {
      fired := now - last >= wait;
      if fired {
        last := now;
        fires := fires + [now];
      }
    }
  }

  /**
   * A scroll event: the throttle decides whether the guarded handler runs at
   * all, and the handler then fetches only when the guard is down and the grid
   * is near its bottom. Nothing else of the navigation state changes. The
   * clock is read twice: `now` by the throttle, and `renderNow` for the 7-day
   * cutoff inside `renderAllDocuments`, after the handler has started.
   */
  method OnScrollEvent(hub: DocumentHub, throttle: Throttle, now: int, renderNow: int,
                       scrollTop: int, clientHeight: int, scrollHeight: int,
                       o: Oracle<Item>, collate: (string, string) -> bool)
    returns (fetched: bool)
    requires throttle.Valid()
    modifies hub`loadingMore, hub`grid, hub`allDocsNextLink, throttle`last, throttle`fires
    ensures throttle.Valid()
    ensures var fired := now - old(throttle.last) >= throttle.wait;
      && throttle.last == (if fired then now else old(throttle.last))
      && throttle.fires == (if fired then old(throttle.fires) + [now] else old(throttle.fires))
      && (fetched <==> fired && !old(hub.loadingMore)
                       && scrollTop + clientHeight >= scrollHeight - ScrollThreshold)
    ensures !fetched ==>
      && hub.grid == old(hub.grid) && hub.loadingMore == old(hub.loadingMore)
      && hub.allDocsNextLink == old(hub.allDocsNextLink)
    ensures fetched ==> var url := DeltaUrl(old(hub.allDocsNextLink), hub.driveId);
      && !hub.loadingMore
      && if url in o && o[url].value.Some? then
           && hub.allDocsNextLink == o[url].nextLink
           && hub.grid == old(hub.grid) + PageEntries(Transformed(o[url].value.value, hub.sortOption,
                                                                  hub.filterLast7Days, renderNow, collate))
         else
           hub.allDocsNextLink == old(hub.allDocsNextLink) && hub.grid == old(hub.grid) + [Notice(ErrorLoading)]
  {
    var fire := throttle.Call(now);
    fetched := false;
    if fire {
      fetched := hub.OnScroll(scrollTop, clientHeight, scrollHeight, o, renderNow, collate);
    }
  }

  /**
   * The scroll listener is never removed, so after Back returns to the Recent
   * view a scroll near the bottom still fetches the next delta page, and
   * appends it after the Recent tiles.
   */
  method ScrollAfterBackToRecent(hub: DocumentHub, o: Oracle<Item>,
                                 scrollTop: int, clientHeight: int, scrollHeight: int,
                                 now: int, collate: (string, string) -> bool)
    returns (fetched: bool)
    requires |hub.breadcrumb| <= 1
    modifies hub`breadcrumb, hub`grid, hub`loadingMore, hub`allDocsNextLink
    ensures hub.breadcrumb == []
    ensures fetched <==> !old(hub.loadingMore) && scrollTop + clientHeight >= scrollHeight - ScrollThreshold
    ensures !fetched ==> hub.grid == RecentEntries(o)
    ensures fetched ==> var url := DeltaUrl(old(hub.allDocsNextLink), hub.driveId);
      hub.grid == RecentEntries(o) +
        if url in o && o[url].value.Some? then
          PageEntries(Transformed(o[url].value.value, hub.sortOption, hub.filterLast7Days, now, collate))
        else [Notice(ErrorLoading)]
  {
    var shown := hub.Back(o);
    fetched := hub.OnScroll(scrollTop, clientHeight, scrollHeight, o, now, collate);
  }
}
