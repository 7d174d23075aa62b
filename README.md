# Document Hub web part: a verified model of its view-model logic

The Document Hub is a SharePoint Framework web part. It lists a user's
documents from Microsoft Graph, lets them browse folders, and shows a
properties panel for the selected item. Most of the web part builds HTML
and calls Graph. This project models the deterministic logic inside it:

* **Listing.** The Recent view drops folders, sorts newest first and keeps
  the first ten. The "All Documents" view takes one delta page, applies an
  optional 7-day filter, then one of four sorts.
* **Navigation state.** The web part class holds the breadcrumb stack, the
  delta cursor, the sort and filter settings, the `_loadingMore`
  infinite-scroll guard and the grid's content. The `throttle` closure
  wraps the scroll handler.
* **Properties panel.** It normalises the drive-id hint and derives the
  friendly type, `hasMetadata` and the upload-button condition. It also
  covers the Edit/Save mode machine of the classification controls with its
  patch payload, the "Accessed By" timeline and the Security tab.
* **`GraphService`.** It follows `@odata.nextLink` pages, caches the site id
  and drive ids, builds drive path segments and maps the label and barrier
  responses.

Graph itself is an oracle, `map<string, Page<T>>`. A URL without an entry is
a failed request. A single request whose outcome is passed in is a
`Result`. Clock values are integer parameters in milliseconds.
`localeCompare` is an abstract comparison `collate`. Where a property about
names needs it, `collate` must be a total preorder (`CollationOrder`).
`encodeURIComponent` is an abstract `encode` function. JavaScript
truthiness is written out each time it matters: an empty string, `0`,
`null` and an absent property are all falsy.

Modules, one per file:

| file | module | contents |
|---|---|---|
| `wrappers.dfy` | `Wrappers` | `Option`, `Result` |
| `text.dfy` | `Text` | the string built-ins used: `split` and `pop`, `join`, `trim`, ASCII case mapping, number rendering |
| `items.dfy` | `Items` | drive items, field values, pages, the oracle type |
| `sorting.dfy` | `Sorting` | `Array.prototype.sort` (stable), as a specification function and an in-place array method |
| `listing.dfy` | `Listing` | the Recent projection and the "All Documents" page transform |
| `navigation.dfy` | `Navigation` | the `DocumentHub` class (navigation state) and the `Throttle` class |
| `details.dfy` | `Details` | drive id, friendly type, metadata and upload conditions, timeline, Security tab |
| `classification.dfy` | `Classification` | the classification panel class and the patch payload |
| `graph.dfy` | `Graph` | `fetchAllPages`, the `GraphService` caches, paths, label and barrier mappings |

Some behaviours of the code are easy to miss, and the model keeps them as
written:

* **Cache stampedes.** The caches do not collapse concurrent lookups, and
  no promise is shared. Two overlapping `getDriveId` calls on a cold cache
  both make a request, and the later store wins (`OverlappingGetDriveId`).
* **Security tab failures.** A failure is not isolated per section.
  `getRetentionLabel` and `listInformationBarriers` swallow their own
  errors, so their sections show "None" on failure and never "Unavailable".
  A failed sensitivity-label request rejects the whole handler. Its list
  stays cleared and the other three lists keep what they showed before.
  Only the conditional-access count can show "Unavailable".
* **Failed saves.** A failed metadata save does not restore the previous UI.
  The button label stays "Saving…". An empty payload leaves it "Saving…"
  too.
* **Sort and filter changes.** A change of sort or filter re-renders from
  the stored delta cursor, which is the next page. It does not restart
  paging. Only the "All Documents" sidebar entry clears the cursor.
* **Sidebar navigation.** Moving to another view through the sidebar does
  not clear the breadcrumb stack.
* **One grid, one lasting scroll listener.** The first render, the Recent
  view, folder loads, the other sidebar entries and the All Documents pages
  all write the same grid. The scroll listener that "All Documents" attaches
  is never removed. A scroll near the bottom after leaving that view still
  fetches the next delta page and appends it after whatever the grid shows,
  for example after the Recent tiles (`ScrollAfterBackToRecent`).

## Model

| member | source | states |
|---|---|---|
| Graph.FetchAllPages | src/webparts/documentHub/GraphService.ts:43-51 | the loop's result is `AllPages`: the pages' values concatenated in order, a missing `value` counting as empty; a failed request fails the whole call |
| Graph.AllPages | src/webparts/documentHub/GraphService.ts:43-51 | definition: a failed request fails; a page without a truthy next link ends with its value; otherwise its value (or []) precedes the rest; the meaning is stated by AllPagesIsConcatenation and RequestsFollowLinks |
| Graph.AllPagesIsConcatenation | src/webparts/documentHub/GraphService.ts:43-51 | on success, the result is the concatenation of the values of exactly the requested pages |
| Graph.RequestsFollowLinks | src/webparts/documentHub/GraphService.ts:46-47 | the first request is the start URL; each next request is the previous page's `@odata.nextLink`; the last page has no truthy next link |
| Graph.AllPagesBoundIrrelevant | src/webparts/documentHub/GraphService.ts:43-51 | the result does not depend on the termination bound chosen for the link chain |
| Graph.AllPagesStep | src/webparts/documentHub/GraphService.ts:46-49 | one step of the loop: the result is the current page's value followed by what the remaining links give |
| Graph.PrefixedPrefixed | src/webparts/documentHub/GraphService.ts:48 | prefixing the accumulated items twice is prefixing their concatenation once, the `items.concat` associativity the loop relies on |
| Graph.ListConditionalAccessPolicies | src/webparts/documentHub/GraphService.ts:250-257 | every page of the conditional-access policy listing, by `fetchAllPages` |
| Graph.GraphService.constructor | src/webparts/documentHub/GraphService.ts:38-39 | both caches start empty |
| Graph.GraphService.CachedSiteId | src/webparts/documentHub/GraphService.ts:118-120 | the cached site id counts as a hit only when it is truthy |
| Graph.GraphService.StoreSiteId | src/webparts/documentHub/GraphService.ts:121-125 | a successful site request is stored and returned; a failure leaves the cache unchanged |
| Graph.GraphService.GetSiteId | src/webparts/documentHub/GraphService.ts:117-126 | a request is made iff no truthy id is cached; a hit returns the cached id unchanged; a success stores and returns `site.id`; a failure leaves the cache unset |
| Graph.GraphService.CachedDriveId | src/webparts/documentHub/GraphService.ts:133-135 | a hit iff the site id is a key of the map, returning its stored drive id |
| Graph.GraphService.StoreDriveId | src/webparts/documentHub/GraphService.ts:136-140 | a success updates only that key; a failure leaves the map as it was |
| Graph.GraphService.GetDriveId | src/webparts/documentHub/GraphService.ts:132-141 | a request is made iff the key is missing; on success the map becomes the old map with exactly that key set, every other entry unchanged; a failure leaves the map unchanged |
| Graph.OverlappingGetDriveId | src/webparts/documentHub/GraphService.ts:132-141 | two overlapping calls on a cold cache both make a request; the later successful store wins, the map otherwise gains only that key, and the site cache is untouched |
| Graph.EncodeAll | src/webparts/documentHub/GraphService.ts:64 | each segment is encoded on its own, in order, and the count is kept |
| Graph.EncodedPath | src/webparts/documentHub/GraphService.ts:63-65 | definition: a truthy path is split on '/', each segment encoded, and rejoined with '/'; an empty path gives "" |
| Graph.ChildrenSegment | src/webparts/documentHub/GraphService.ts:66-68 | definition: `/root:/<encoded>:/children` for a truthy encoding, else `/root/children`; stated by RootPath and PathSegmentShape |
| Graph.DriveItemsUrl | src/webparts/documentHub/GraphService.ts:70 | definition: `/drives/<driveId>` followed by the children segment |
| Graph.FoldersSegment | src/webparts/documentHub/GraphService.ts:296-301 | the `getFolders` path segment is the `getDriveItems` segment followed by `?$filter=folder ne null` |
| Graph.FoldersUrl | src/webparts/documentHub/GraphService.ts:303-305 | definition: `/drives/<driveId>` followed by the folder segment |
| Graph.RootPath | src/webparts/documentHub/GraphService.ts:63-68 | an empty folder path gives `/root/children`, and for `getFolders` that plus the folder filter |
| Graph.EncodedPathSegments | src/webparts/documentHub/GraphService.ts:63-65 | given an encoder that escapes '/', splitting the encoded path on '/' gives back the encoded segments, as many as the path had |
| Graph.PathSegmentShape | src/webparts/documentHub/GraphService.ts:63-68 | for an encoder that escapes '/' and keeps non-empty segments non-empty, a non-empty folder path is addressed as `/root:/<m>:/children` (and that plus the folder filter for `getFolders`), where `m` is non-empty and splits on '/' into the encoded segments of the path |
| Graph.ComplianceTag | src/webparts/documentHub/GraphService.ts:152 | definition: `complianceTag` when truthy, else `ComplianceTag` when truthy, else none; stated by GetSensitivityLabel |
| Graph.GetSensitivityLabel | src/webparts/documentHub/GraphService.ts:150-154 | the tag is `complianceTag` if truthy, else `ComplianceTag`; a tag gives `{id: tag, name: tag}`, none gives `{}`; a failed field request rejects |
| Graph.GetRetentionLabel | src/webparts/documentHub/GraphService.ts:223-234 | a present facet maps to `{id, name: label}`; an absent facet and any request failure both give undefined |
| Graph.ListInformationBarriers | src/webparts/documentHub/GraphService.ts:260-273 | `value` or `[]`, and `[]` on any failure |
| Sorting.SortInPlace | src/webparts/documentHub/DocumentHubWebPart.ts:436-439 | the in-place array sort leaves the array equal to the stable insertion sort `Sort` of its old contents |
| Sorting.Sort | src/webparts/documentHub/DocumentHubWebPart.ts:436-439 | the stable sort as a function: each element inserted after every earlier element the comparator does not place after it; its length is the input's; stated by SortPermutes, SortSorted, SortOfSorted and SortIdempotent |
| Sorting.Insert | src/webparts/documentHub/DocumentHubWebPart.ts:436-439 | one insertion of stable insertion sort, which scans from the right past the elements that must follow `x`; adds one element |
| Sorting.InsertAt | src/webparts/documentHub/DocumentHubWebPart.ts:436-439 | one insertion pass: the prefix up to `i` becomes `Insert` of the old prefix and the element, and the rest of the array is untouched |
| Sorting.InsertPermutes | src/webparts/documentHub/DocumentHubWebPart.ts:436-439 | insertion adds exactly the inserted element to the multiset |
| Sorting.SortPermutes | src/webparts/documentHub/DocumentHubWebPart.ts:436-439 | sorting is a permutation |
| Sorting.InsertSorted | src/webparts/documentHub/DocumentHubWebPart.ts:436-439 | inserting into a sorted sequence keeps it sorted, for a total preorder |
| Sorting.SortSorted | src/webparts/documentHub/DocumentHubWebPart.ts:436-439 | the result is sorted by the comparator, for a total preorder |
| Sorting.SortOfSorted | src/webparts/documentHub/DocumentHubWebPart.ts:436-439 | an already sorted input is returned unchanged: equal elements are not reordered |
| Sorting.SortIdempotent | src/webparts/documentHub/DocumentHubWebPart.ts:436-439 | sorting twice is sorting once |
| Listing.ComparatorIsTotalPreorder | src/webparts/documentHub/DocumentHubWebPart.ts:1051-1068 | each of the four sort options orders items by a total preorder (the name options given a total collation) |
| Listing.Comparator | src/webparts/documentHub/DocumentHubWebPart.ts:1051-1068 | definition: newest first, oldest first, name ascending or name descending (by the name, "" when missing, under the collation) per option; stated by ComparatorIsTotalPreorder |
| Listing.Filter | src/webparts/documentHub/DocumentHubWebPart.ts:432 | definition: `items.filter(keep)`, used for the folder filter and the 7-day filter at lines 432 and 1045; stated by FilterCount and FilterKeeps |
| Listing.FilterCount | src/webparts/documentHub/DocumentHubWebPart.ts:1045-1048 | the filter keeps every copy of an accepted item and drops every copy of a rejected one |
| Listing.FilterKeeps | src/webparts/documentHub/DocumentHubWebPart.ts:1045-1048 | every item the filter returns satisfies the predicate |
| Listing.NewestSort | src/webparts/documentHub/DocumentHubWebPart.ts:436-439 | the newest-first sort is a permutation in non-increasing timestamp order |
| Listing.PrefixHoldsNewest | src/webparts/documentHub/DocumentHubWebPart.ts:441 | a prefix of a newest-first permutation holds items at least as recent as every item left out |
| Listing.PermutationOfFilterKeeps | src/webparts/documentHub/DocumentHubWebPart.ts:432 | a permutation of the filtered items holds only accepted items |
| Listing.Recent | src/webparts/documentHub/DocumentHubWebPart.ts:432-441 | definition: non-folders, sorted newest first, the first min(10, n); stated by RecentIsTopTen |
| Listing.RecentIsTopTen | src/webparts/documentHub/DocumentHubWebPart.ts:432-441 | the Recent projection has no folders and length min(10, number of non-folders); it is newest first and drawn from the non-folders; no left-out non-folder is newer than a shown item |
| Listing.RecentProjection | src/webparts/documentHub/DocumentHubWebPart.ts:432-441 | filter, in-place sort and `slice(0, 10)` compute `Recent`, with no folders, the min(10, ·) length and newest-first order |
| Listing.FilteredKeeps | src/webparts/documentHub/DocumentHubWebPart.ts:1043-1049 | with the filter on, an item is kept iff its timestamp, 0 when missing, is at least now minus 604800000; with it off, everything is kept |
| Listing.Filtered | src/webparts/documentHub/DocumentHubWebPart.ts:1043-1049 | definition: the items with a timestamp (0 when missing) at least now minus 604800000 when the filter is on, else all items |
| Listing.Transformed | src/webparts/documentHub/DocumentHubWebPart.ts:1043-1068 | definition: the filtered page sorted by the option's comparator; stated by TransformPage and TransformIdempotent |
| Listing.TransformIdempotent | src/webparts/documentHub/DocumentHubWebPart.ts:1043-1068 | transforming a transformed page again with the same sort option and filter setting, on or off, changes nothing |
| Listing.FilterAllKept | src/webparts/documentHub/DocumentHubWebPart.ts:1045-1048 | a filter that accepts every item returns its input unchanged |
| Listing.TransformPage | src/webparts/documentHub/DocumentHubWebPart.ts:1043-1068 | the page transform is a permutation of the filtered items, and of the whole page with the filter off, ordered by the selected key and direction |
| Navigation.FolderName | src/webparts/documentHub/DocumentHubWebPart.ts:342 | the crumb name is the tile title if truthy, and "Folder" when the title is missing or empty |
| Navigation.Pushed | src/webparts/documentHub/DocumentHubWebPart.ts:344 | definition: the crumb appended on top of the stack; stated by PopUndoesPush |
| Navigation.Popped | src/webparts/documentHub/DocumentHubWebPart.ts:1274 | definition: the stack without its top, and an empty stack stays empty; stated by PopUndoesPush and BackShowsParent |
| Navigation.Truncated | src/webparts/documentHub/DocumentHubWebPart.ts:1256 | definition: `slice(0, index + 1)`, clamped at the length; stated by TruncateKeepsUpToIndex |
| Navigation.TopView | src/webparts/documentHub/DocumentHubWebPart.ts:1257-1265 | definition: the top crumb's folder, or the Recent view for an empty stack |
| Navigation.PopUndoesPush | src/webparts/documentHub/DocumentHubWebPart.ts:1274-1284 | back after a descent restores the previous stack; after a descent the pushed folder is the top |
| Navigation.TruncateKeepsUpToIndex | src/webparts/documentHub/DocumentHubWebPart.ts:1256-1257 | a crumb click at index i keeps exactly entries 0..i and shows entry i |
| Navigation.BackShowsParent | src/webparts/documentHub/DocumentHubWebPart.ts:1274-1284 | back shows the entry below the top, or the Recent view when at most one entry was left |
| Navigation.BackTwiceShowsFirstFolder | src/webparts/documentHub/DocumentHubWebPart.ts:1274-1284 | descending A, B, C then going back twice leaves [A] and shows A |
| Navigation.DeltaUrl | src/webparts/documentHub/DocumentHubWebPart.ts:1034-1037 | a truthy stored cursor is used as is; otherwise the initial `/drives/<id>/root/delta?$top=50` |
| Navigation.InitialDeltaUrl | src/webparts/documentHub/DocumentHubWebPart.ts:1037 | definition: `/drives/<driveId>/root/delta?$top=50` |
| Navigation.Tiles | src/webparts/documentHub/DocumentHubWebPart.ts:1075-1085 | one tile per item, in order |
| Navigation.PageEntries | src/webparts/documentHub/DocumentHubWebPart.ts:1071-1085 | definition: "No more documents." for an empty page, else one tile per item |
| Navigation.RenderRecentDocuments | src/webparts/documentHub/DocumentHubWebPart.ts:425-461 | a failed request shows "Error loading documents."; an empty projection of `value`, or `[]` when it is missing, shows "No recent documents found."; otherwise the `Recent` tiles, computed with the in-place sort and slice |
| Navigation.RecentEntries | src/webparts/documentHub/DocumentHubWebPart.ts:425-461 | definition: the Recent view's grid in terms of `Recent`; stated by RenderRecentDocuments and, through `Recent`, by RecentIsTopTen |
| Navigation.ViewEntries | src/webparts/documentHub/DocumentHubWebPart.ts:1259-1265 | definition: the grid after a navigation step, the folder's contents for a folder and `RecentEntries` for the Recent view |
| Navigation.DocumentHub.constructor | src/webparts/documentHub/DocumentHubWebPart.ts:113-120 | empty stack, no cursor, guard down, newest-first sort, filter off; the first render (lines 276-281) fills the grid with the Recent view |
| Navigation.DocumentHub.OpenFolder | src/webparts/documentHub/DocumentHubWebPart.ts:339-348 | a tile without a truthy id changes nothing, grid included; otherwise {id, name} is pushed, and that folder, the new top, is shown and its contents fill the grid |
| Navigation.DocumentHub.ClickCrumb | src/webparts/documentHub/DocumentHubWebPart.ts:1256-1266 | the stack becomes `slice(0, index + 1)`; its top is shown, or the Recent view when it is empty, and the grid holds what is shown |
| Navigation.DocumentHub.Back | src/webparts/documentHub/DocumentHubWebPart.ts:1274-1284 | one entry is popped; the new top is shown, or the Recent view when the stack is empty, and the grid holds what is shown |
| Navigation.DocumentHub.ShowRecent | src/webparts/documentHub/DocumentHubWebPart.ts:262-268 | the upload refresh, the Recent tab, the Recent sidebar entry and an empty search fill the grid with the Recent view, leaving stack and cursor |
| Navigation.DocumentHub.ShowOther | src/webparts/documentHub/DocumentHubWebPart.ts:389-397 | any other render replaces the grid with its content and changes nothing else |
| Navigation.DocumentHub.RenderAllDocuments | src/webparts/documentHub/DocumentHubWebPart.ts:1031-1089 | fetches from the cursor or the first page; on success the cursor becomes the response's nextLink (none after the last page) and the tiles are the transformed page, or "No more documents."; a failed request or a missing `value` leaves the cursor and shows the error |
| Navigation.DocumentHub.SelectAllDocuments | src/webparts/documentHub/DocumentHubWebPart.ts:384-388 | the cursor is cleared and the guard lowered, so the grid shows the first delta page |
| Navigation.DocumentHub.ChangeSort | src/webparts/documentHub/DocumentHubWebPart.ts:311-316 | stores the option and re-renders from the current cursor |
| Navigation.DocumentHub.ChangeFilter | src/webparts/documentHub/DocumentHubWebPart.ts:320-325 | stores the checkbox state and re-renders from the current cursor |
| Navigation.DocumentHub.BeginScroll | src/webparts/documentHub/DocumentHubWebPart.ts:401-403 | a fetch starts iff the guard is down and the view is within 100 of the bottom; starting raises the guard |
| Navigation.DocumentHub.FinishScroll | src/webparts/documentHub/DocumentHubWebPart.ts:404-406 | the new page is appended after the existing content and the guard lowered |
| Navigation.DocumentHub.OnScroll | src/webparts/documentHub/DocumentHubWebPart.ts:400-408 | no fetch changes nothing; a fetch keeps the old grid as a prefix, appends the next page or the error, advances the cursor as `RenderAllDocuments` does and ends with the guard down |
| Navigation.Throttle.constructor | src/webparts/documentHub/DocumentHubWebPart.ts:45 | `last` starts at 0 and nothing has fired |
| Navigation.Throttle.Call | src/webparts/documentHub/DocumentHubWebPart.ts:44-53 | fires iff `now - last >= wait`, then `last` is `now`; firings stay at least `wait` apart |
| Navigation.OnScrollEvent | src/webparts/documentHub/DocumentHubWebPart.ts:399-410 | the throttle state advances as `Throttle.Call` says; a fetch happens iff the throttle fires, the guard was down and the view is within 100 of the bottom; then the next page (or the error) is appended, the cursor advances as in `RenderAllDocuments` and the guard ends down; without a fetch grid, guard and cursor are unchanged; breadcrumb, sort and filter are never touched; the 7-day cutoff uses the second clock reading, not the throttle's |
| Navigation.ScrollAfterBackToRecent | src/webparts/documentHub/DocumentHubWebPart.ts:399-409 | after Back empties the stack, a scroll near the bottom with the guard down still fetches, and the grid is the Recent entries followed by the next delta page or the error |
| Details.NormalizeDriveId | src/webparts/documentHub/DocumentHubWebPart.ts:495 | a kept hint is the original, untrimmed hint |
| Details.NormalizeDriveIdKeepsNonBlank | src/webparts/documentHub/DocumentHubWebPart.ts:495 | a hint is kept iff it has a character that is not white space |
| Details.EffectiveDriveId | src/webparts/documentHub/DocumentHubWebPart.ts:705 | the Security tab uses the kept hint, else the service drive |
| Details.ResolveServiceDrive | src/webparts/documentHub/DocumentHubWebPart.ts:495-497 | a kept hint is used with no request and no cache change; otherwise the site id comes from the site cache or the site request, and a failed site request fails the whole resolution; the drive id comes from the drive cache or the drive request for that site, whose failure fails it too; both caches change exactly as `GetSiteId` and `GetDriveId` say; the Security tab's drive then equals the result |
| Details.KnownType | src/webparts/documentHub/DocumentHubWebPart.ts:531-552 | every table entry is a non-empty description |
| Details.FriendlyType | src/webparts/documentHub/DocumentHubWebPart.ts:524-556 | "Folder" for a folder; else the table entry of the extension; else the upper-cased extension and " file"; with no name or an empty extension, the MIME type if truthy, else "Unknown"; never empty |
| Details.DotlessNameIsItsOwnExtension | src/webparts/documentHub/DocumentHubWebPart.ts:530 | a name with no dot is its own (lower-cased) extension |
| Details.ExtensionFollowsLastDot | src/webparts/documentHub/DocumentHubWebPart.ts:530 | the extension is the lower-cased text after the last dot |
| Details.Extension | src/webparts/documentHub/DocumentHubWebPart.ts:530 | definition: the lower-cased last piece of the name split on '.'; stated by DotlessNameIsItsOwnExtension, ExtensionFollowsLastDot and EmptyExtensionIff |
| Details.EmptyExtensionIff | src/webparts/documentHub/DocumentHubWebPart.ts:530 | the extension is empty iff the name is empty or ends in a dot |
| Details.FriendlyTypeIgnoresCase | src/webparts/documentHub/DocumentHubWebPart.ts:530-556 | lower-casing the name does not change the type |
| Details.FriendlyTypeFallsBackToMime | src/webparts/documentHub/DocumentHubWebPart.ts:554 | with no extension the type is the MIME type, else "Unknown" |
| Details.DotlessUnknownName | src/webparts/documentHub/DocumentHubWebPart.ts:554 | an unlisted dot-less name shows as its upper-cased self and " file" |
| Details.HasMetadata | src/webparts/documentHub/DocumentHubWebPart.ts:573 | holds iff one of Department, Project and Category is truthy |
| Details.HasMetadataIgnoresOtherFields | src/webparts/documentHub/DocumentHubWebPart.ts:573 | setting or removing any field other than Department, Project and Category never changes `hasMetadata` |
| Details.ShowUploadButton | src/webparts/documentHub/DocumentHubWebPart.ts:576 | shown only for a truthy drive type other than `documentLibrary`, and never with metadata |
| Details.UploadButtonForPersonalDrive | src/webparts/documentHub/DocumentHubWebPart.ts:573-576 | an item with no classification fields in a business OneDrive gets the button |
| Details.ActionOf | src/webparts/documentHub/DocumentHubWebPart.ts:809-816 | edit beats checkin beats a truthy new version, and "accessed" when none is present |
| Details.ActionText | src/webparts/documentHub/DocumentHubWebPart.ts:809-816 | definition: the timeline's text for each action; stated by ActionTextInjective |
| Details.ActionTextInjective | src/webparts/documentHub/DocumentHubWebPart.ts:809-816 | different actions give different texts |
| Details.Entry | src/webparts/documentHub/DocumentHubWebPart.ts:808-819 | the actor is the display name if truthy, else "Unknown"; the time is the formatted recorded time if truthy, else "Unknown time"; the action text is that of the action |
| Details.AccessView | src/webparts/documentHub/DocumentHubWebPart.ts:799-831 | a failure, or a response without `value`, shows the failure text; an empty list shows the no-records text; otherwise one entry per activity, in order |
| Details.LabelText | src/webparts/documentHub/DocumentHubWebPart.ts:713 | the label name if truthy, else "None" |
| Details.RetentionText | src/webparts/documentHub/DocumentHubWebPart.ts:760-762 | the retention label name if truthy; "None" when there is no label or its name is missing or empty |
| Details.PolicyCountTextShowsCount | src/webparts/documentHub/DocumentHubWebPart.ts:772-773 | the text opens with the decimal count, which reads back as the number of policies |
| Details.PolicyCountTextSingular | src/webparts/documentHub/DocumentHubWebPart.ts:773 | "policy" for exactly one, "policies" otherwise |
| Details.PolicyCountText | src/webparts/documentHub/DocumentHubWebPart.ts:773 | definition: the decimal count, " conditional access polic", "y" or "ies", " found"; stated by PolicyCountTextShowsCount and PolicyCountTextSingular |
| Details.BarrierList | src/webparts/documentHub/DocumentHubWebPart.ts:783-787 | one entry per barrier, the display name, or the id when it is falsy, or "None" when there are none |
| Details.BarrierText | src/webparts/documentHub/DocumentHubWebPart.ts:784 | definition: the display name when truthy, else the id |
| Details.SecurityTabAfter | src/webparts/documentHub/DocumentHubWebPart.ts:705-792 | a failed label request leaves the label list empty and the others as they were; otherwise each list shows its result: the label name or "None", the retention name or "None", the number of policies listed or "Unavailable", and the barriers or "None" |
| Details.OpenSecurityTab | src/webparts/documentHub/DocumentHubWebPart.ts:769-773 | the policy count shown is the length of what `listConditionalAccessPolicies` returns, the items of every page together; a single-page listing shows its own item count |
| Details.FailuresReadAsNone | src/webparts/documentHub/DocumentHubWebPart.ts:757-792 | failed retention and barrier requests show "None", not "Unavailable" |
| Classification.BuildPatch | src/webparts/documentHub/DocumentHubWebPart.ts:907-911 | the payload's keys are exactly those of Department, Project and Category that are keys of the fetched fields; it never adds other keys; each maps to its picker value |
| Classification.PatchEmptyIff | src/webparts/documentHub/DocumentHubWebPart.ts:912-915 | the payload is empty iff none of the three fields is a key |
| Classification.ClassificationPanel.constructor | src/webparts/documentHub/DocumentHubWebPart.ts:859-870 | read-only "Edit Metadata" iff the item has metadata, editable "Save Metadata" otherwise |
| Classification.ClassificationPanel.Click | src/webparts/documentHub/DocumentHubWebPart.ts:891-934 | Edit enables the pickers with no request; a save sends no patch iff the payload is empty (label stays "Saving…"), else exactly one, whose keys are the present classification fields and whose values are the picker values; success returns to read-only "Edit Metadata"; failure leaves "Saving…"; the mode invariant holds |
| Classification.EditThenSave | src/webparts/documentHub/DocumentHubWebPart.ts:859-934 | with metadata, Edit then a successful Save ends read-only after exactly one patch |
| Text.LastPiece | src/webparts/documentHub/DocumentHubWebPart.ts:530 | definition: `split(sep).pop()`; stated by LastPieceIsTextAfterLastSeparator |
| Text.Upper | src/webparts/documentHub/DocumentHubWebPart.ts:554 | `toUpperCase` on ASCII letters: same length, each character upper-cased |
| Text.NatToString | src/webparts/documentHub/DocumentHubWebPart.ts:773 | the decimal text of a count in a template string: non-empty and all digits; it reads back as the count by NatToStringRoundTrip |
| Text.IntToString | src/webparts/documentHub/DocumentHubWebPart.ts:773 | definition: the decimal text of an integer, with a leading '-' when negative; built on NatToString |
| Items.Show | src/webparts/documentHub/DocumentHubWebPart.ts:713-714 | definition: a field value as a template string prints it (`null`, the text, the decimal number, `true`/`false`) |
| Text.LastPieceIsTextAfterLastSeparator | src/webparts/documentHub/DocumentHubWebPart.ts:530 | `split(sep).pop()` is the separator-free tail of the string after its last separator |
| Text.Split | src/webparts/documentHub/DocumentHubWebPart.ts:530 | `split` on a one-character separator: at least one piece, exactly one iff the separator is absent, no piece holds it |
| Text.Join | src/webparts/documentHub/GraphService.ts:64 | definition: the pieces with the separator between each two; stated by JoinSplit and SplitJoin |
| Text.Trim | src/webparts/documentHub/DocumentHubWebPart.ts:495 | definition: white space and line terminators removed at both ends; stated by TrimEmptyIff |
| Text.Lower | src/webparts/documentHub/DocumentHubWebPart.ts:530 | `toLowerCase` on ASCII letters: same length, each character lower-cased |
| Text.TrimEmptyIff | src/webparts/documentHub/DocumentHubWebPart.ts:495 | `trim()` gives "" iff every character is white space |
| Text.SplitJoin | src/webparts/documentHub/GraphService.ts:64 | splitting the join of separator-free pieces gives the pieces back |
| Text.JoinSplit | src/webparts/documentHub/GraphService.ts:64 | joining the pieces of a split gives the string back |
| Text.NatToStringRoundTrip | src/webparts/documentHub/DocumentHubWebPart.ts:773 | the decimal text of a count reads back as the count |

## Left out

- HTML templates, DOM queries, event wiring, CSS classes and tab show/hide are presentation only; `alert` and `console` output are not modelled either. The grid holds entries (tiles or messages), not markup.
- Real Graph calls (`MSGraphClientV3`, `$batch`, uploads, copy, restore, label assignment) become oracle entries or `Result` parameters passed in.
- `evaluateDlp` uses `fetch`, `ArrayBuffer` and base64, which are foreign calls.
- Date parsing, `toLocaleString` and `Date.now` are left out. Timestamps are integers in milliseconds, the clock is a parameter, and the timeline's time text comes from an abstract `format`. Each `Date.now()` reading is its own parameter: a scroll event passes the throttle's reading and the later one `renderAllDocuments` takes for its 7-day cutoff separately.
- The size display `(size / 1024).toFixed(2)` is floating point.
- Listing.Comparator: the source's comparator gives NaN for an item without a timestamp. Here a missing timestamp counts as 0, the value the 7-day filter uses.
- Sorting.Sort: `Array.prototype.sort` is stable. The model is a stable insertion sort, and its stability is stated as `SortOfSorted` and `SortIdempotent` rather than as the relative order of every pair of equal elements.
- `localeCompare` is an abstract comparison. The name orders are proved only when it is a total preorder.
- `encodeURIComponent` is an abstract `encode`. The segment-count property assumes it escapes '/'.
- Graph.FetchAllPages requires the next-link chain to end within a ghost bound. On a cyclic chain the source loops without end, which the model does not represent.
- The search box, its `setTimeout` debounce and the "My Folders" / "Shared With Me" views are outside this model. Their renders reach the grid only through `ShowOther`, with the content as a parameter.
- Navigation.DocumentHub.OpenFolder: what `loadFolderContents` writes (the breadcrumb bar and the folder's children, or its error text) is one abstract `FolderContents` entry.
- Async interleavings are not modelled beyond the split of each cache lookup into check and store (`OverlappingGetDriveId`). Examples are a sort change while a scroll fetch is in flight, and several scroll listeners added by repeated "All Documents" clicks.
- The status text's clearing after 3 seconds (`setTimeout`) is not modelled.
- The `isSiteAdmin` permission source and the sensitivity-label edit/assign workflow are not modelled, nor are the property pane, theme handling and `getCustomerKeyStatus`.
- `renderAllDocuments` and `renderRecentDocuments` both return "Unable to load documents." when no Graph client exists. The model assumes the client is present.
- Navigation.DocumentHub.ClickCrumb: `parseInt` of a missing or malformed `data-index` can give NaN. The model takes the index as a natural number.
- Case mapping covers the ASCII letters only.
- Navigation.DocumentHub.BeginScroll: `scrollTop`, `clientHeight` and `scrollHeight` are DOM doubles, which the model takes as integers; a fractional scroll position is not represented.
- Site and drive ids are plain strings. A cached site id that is empty counts as absent, as the site cache's truthiness check says; the drive cache tests only for the key, so an empty stored drive id is still a hit.
