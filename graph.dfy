/**
 * `GraphService`: page following, the site-id and drive-id caches, the drive
 * path segments, and the mappings of label and barrier responses.
 */
module Graph {
  import opened Wrappers
  import opened Items
  import Text

  const FetchFailed: string := "request failed"

  // ---------------------------------------------------------------------------
  // fetchAllPages

  /**
   * Following `@odata.nextLink` from `url` stops within `n` further requests:
   * a request fails, or a page has no next link. On a cyclic chain of links
   * `fetchAllPages` never returns, and no bound exists.
   */
  ghost predicate EndsWithin<T>(o: Oracle<T>, url: string, n: nat)
    decreases n
  {
    url !in o || !HasNext(o[url]) || (n > 0 && EndsWithin(o, o[url].nextLink.value, n - 1))
  }

  /** `Success(acc + v)` for a success `v`; a failure stays a failure. */
  function Prefixed<T>(acc: seq<T>, r: Result<seq<T>>): Result<seq<T>> {
    match r
    case Success(v) => Success(acc + v)
    case Failure(e) => Failure(e)
  }

  /** What `fetchAllPages` resolves to when its first request is `url`. */
  function AllPages<T>(o: Oracle<T>, url: string, n: nat): Result<seq<T>>
    requires EndsWithin(o, url, n)
    decreases n
  {
    if url !in o then Failure(FetchFailed)
    else if !HasNext(o[url]) then Success(ValueOrEmpty(o[url]))
    else Prefixed(ValueOrEmpty(o[url]), AllPages(o, o[url].nextLink.value, n - 1))
  }

  /** The part of `AllPages` still to come after the page at `url`. */
  function Remaining<T>(o: Oracle<T>, url: string, n: nat): Result<seq<T>>
    requires url in o && EndsWithin(o, url, n)
  {
    if HasNext(o[url]) then AllPages(o, o[url].nextLink.value, n - 1) else Success([])
  }

  /** The URLs `fetchAllPages` requests, in order. */
  ghost function Requests<T>(o: Oracle<T>, url: string, n: nat): seq<string>
    requires EndsWithin(o, url, n)
    decreases n
  {
    if url !in o || !HasNext(o[url]) then [url]
    else [url] + Requests(o, o[url].nextLink.value, n - 1)
  }

  /** The values of the pages at `urls`, concatenated in order, with a missing `value` as empty. */
  function Concat<T>(o: Oracle<T>, urls: seq<string>): seq<T>
    requires forall k :: 0 <= k < |urls| ==> urls[k] in o
  {
    if urls == [] then [] else ValueOrEmpty(o[urls[0]]) + Concat(o, urls[1..])
  }

  /**
   * The requests start at `url`, each next request is the previous page's
   * next link, and the last one failed or returned a page without a next link.
   */
  lemma {:induction false} RequestsFollowLinks<T>(o: Oracle<T>, url: string, n: nat)
    requires EndsWithin(o, url, n)
    decreases n
    ensures var q := Requests(o, url, n);
      && |q| >= 1 && q[0] == url
      && (forall k :: 0 <= k < |q| - 1 ==>
            q[k] in o && HasNext(o[q[k]]) && q[k + 1] == o[q[k]].nextLink.value)
      && (q[|q| - 1] !in o || !HasNext(o[q[|q| - 1]]))
  {
    if url in o && HasNext(o[url]) {
      var next := o[url].nextLink.value;
      RequestsFollowLinks(o, next, n - 1);
      var q, q' := Requests(o, url, n), Requests(o, next, n - 1);
      assert q == [url] + q';
      forall k | 0 <= k < |q| - 1
        ensures q[k] in o && HasNext(o[q[k]]) && q[k + 1] == o[q[k]].nextLink.value
      {
        if k > 0 {
          assert q[k] == q'[k - 1] && q[k + 1] == q'[k];
        }
      }
    }
  }

  /**
   * `fetchAllPages` resolves to the concatenation, in request order, of every
   * page's `value`, and rejects exactly when one of its requests fails.
   */
  lemma {:induction false} AllPagesIsConcatenation<T>(o: Oracle<T>, url: string, n: nat)
    requires EndsWithin(o, url, n)
    decreases n
    ensures var q := Requests(o, url, n);
      && (forall k :: 0 <= k < |q| - 1 ==> q[k] in o)
      && (AllPages(o, url, n).Success? <==> q[|q| - 1] in o)
      && (q[|q| - 1] in o ==> AllPages(o, url, n) == Success(Concat(o, q)))
  {
    RequestsFollowLinks(o, url, n);
    if url in o && HasNext(o[url]) {
      var next := o[url].nextLink.value;
      AllPagesIsConcatenation(o, next, n - 1);
      var q, q' := Requests(o, url, n), Requests(o, next, n - 1);
      assert q == [url] + q';
      assert q[1..] == q';
    } else if url in o {
      var q := Requests(o, url, n);
      assert Concat(o, q) == ValueOrEmpty(o[url]) + Concat(o, q[1..]);
      assert q[1..] == [];
      assert ValueOrEmpty(o[url]) + [] == ValueOrEmpty(o[url]);
    }
  }

  /** A larger bound describes the same requests and the same result. */
  lemma {:induction false} AllPagesBoundIrrelevant<T>(o: Oracle<T>, url: string, n: nat, m: nat)
    requires EndsWithin(o, url, n) && n <= m
    decreases n
    ensures EndsWithin(o, url, m)
    ensures AllPages(o, url, m) == AllPages(o, url, n)
    ensures Requests(o, url, m) == Requests(o, url, n)
  {
    if url in o && HasNext(o[url]) {
      AllPagesBoundIrrelevant(o, o[url].nextLink.value, n - 1, m - 1);
    }
  }

  /** One page, then the rest. */
  lemma AllPagesStep<T>(o: Oracle<T>, url: string, n: nat)
    requires url in o && EndsWithin(o, url, n)
    ensures AllPages(o, url, n) == Prefixed(ValueOrEmpty(o[url]), Remaining(o, url, n))
  {
    assert ValueOrEmpty(o[url]) + [] == ValueOrEmpty(o[url]);
  }

  lemma PrefixedPrefixed<T>(a: seq<T>, b: seq<T>, r: Result<seq<T>>)
    ensures Prefixed(a, Prefixed(b, r)) == Prefixed(a + b, r)
  {
    if r.Success? {
      assert a + (b + r.value) == (a + b) + r.value;
    }
  }

  /**
   * `fetchAllPages(request)`: the first GET, then a loop that follows
   * `@odata.nextLink` and concatenates each page's `value || []`.
   * `bound` is the proof's measure only.
   */
  method FetchAllPages<T>(o: Oracle<T>, url: string, ghost bound: nat) returns (r: Result<seq<T>>)
    requires EndsWithin(o, url, bound)
    ensures r == AllPages(o, url, bound)
  {
    if url !in o {
      return Failure(FetchFailed);
    }
    var result := o[url];
    var items := ValueOrEmpty(result);
    ghost var cur, n := url, bound;
    AllPagesStep(o, url, bound);
    while HasNext(result)
      invariant cur in o && result == o[cur] && EndsWithin(o, cur, n)
      invariant AllPages(o, url, bound) == Prefixed(items, Remaining(o, cur, n))
      decreases n
    {
      var next := result.nextLink.value;
      if next !in o {
        return Failure(FetchFailed);
      }
      AllPagesStep(o, next, n - 1);
      PrefixedPrefixed(items, ValueOrEmpty(o[next]), Remaining(o, next, n - 1));
      result := o[next];
      items := items + ValueOrEmpty(result);
      cur, n := next, n - 1;
    }
    assert items + [] == items;
    r := Success(items);
  }

  // ---------------------------------------------------------------------------
  // site-id and drive-id caches

  /**
   * The two caches of `GraphService`. There is no sharing of a pending fetch:
   * the cache check happens before the request is awaited, and the store after
   * it, so overlapping callers that both miss both fetch.
   */
  class GraphService {
    /** `_siteIdCache`; None is `undefined`, and an empty id is falsy like it. */
    var siteIdCache: Option<string>
    /** `_driveIdCache`, site id to drive id. */
    var driveIdCache: map<string, string>

    constructor ()
      ensures siteIdCache == None && driveIdCache == map[]
    {
      siteIdCache := None;
      driveIdCache := map[];
    }

    /** The check `if (this._siteIdCache)` at the start of `getSiteId`. */
    function CachedSiteId(): (r: Option<string>)
      reads this
      ensures r.Some? ==> siteIdCache == r && r.value != ""
      ensures r.None? ==> siteIdCache.None? || siteIdCache.value == ""
    {
      if siteIdCache.Some? && Text.Truthy(siteIdCache.value) then siteIdCache else None
    }

    /** What `getSiteId` does once the site request settles: store a success, pass a failure on. */
    method StoreSiteId(fetched: Result<string>) returns (r: Result<string>)
      modifies this`siteIdCache
      ensures r == fetched
      ensures siteIdCache == if fetched.Success? then Some(fetched.value) else old(siteIdCache)
    {
      if fetched.Success? {
        siteIdCache := Some(fetched.value);
      }
      r := fetched;
    }

    /**
     * `getSiteId()`, with `remote` the outcome the site request would have.
     * A truthy cached id is returned with no request; otherwise the request is
     * made, a success is stored and returned, and a failure leaves the cache as it was.
     */
    method GetSiteId(remote: Result<string>) returns (r: Result<string>, fetched: bool)
      modifies this`siteIdCache
      ensures fetched <==> old(CachedSiteId()).None?
      ensures !fetched ==> r == Success(old(siteIdCache).value) && siteIdCache == old(siteIdCache)
      ensures fetched && remote.Success? ==> r == remote && siteIdCache == Some(remote.value)
      ensures fetched && remote.Failure? ==> r == remote && siteIdCache == old(siteIdCache)
    {
      var hit := CachedSiteId();
      if hit.Some? {
        return Success(hit.value), false;
      }
      fetched := true;
      r := StoreSiteId(remote);
    }

    /** The check `this._driveIdCache.has(siteId)` at the start of `getDriveId`. */
    function CachedDriveId(siteId: string): (r: Option<string>)
      reads this
      ensures r.Some? <==> siteId in driveIdCache
      ensures r.Some? ==> r.value == driveIdCache[siteId]
    {
      if siteId in driveIdCache then Some(driveIdCache[siteId]) else None
    }

    /** What `getDriveId` does once the drive request settles. */
    method StoreDriveId(siteId: string, fetched: Result<string>) returns (r: Result<string>)
      modifies this`driveIdCache
      ensures r == fetched
      ensures driveIdCache == if fetched.Success? then old(driveIdCache)[siteId := fetched.value]
                                                  else old(driveIdCache)
    {
      if fetched.Success? {
        driveIdCache := driveIdCache[siteId := fetched.value];
      }
      r := fetched;
    }

    /**
     * `getDriveId(siteId)`: a hit returns the stored id with no request; a miss
     * requests, and a success stores that one key, every other entry unchanged;
     * a failure leaves the map unchanged.
     */
    method GetDriveId(siteId: string, remote: Result<string>) returns (r: Result<string>, fetched: bool)
      modifies this`driveIdCache
      ensures fetched <==> siteId !in old(driveIdCache)
      ensures !fetched ==> r == Success(old(driveIdCache)[siteId]) && driveIdCache == old(driveIdCache)
      ensures fetched && remote.Success? ==>
        && r == remote
        && driveIdCache == old(driveIdCache)[siteId := remote.value]
        && driveIdCache.Keys == old(driveIdCache).Keys + {siteId}
        && driveIdCache[siteId] == remote.value
        && (forall s :: s in old(driveIdCache) ==> driveIdCache[s] == old(driveIdCache)[s])
      ensures fetched && remote.Failure? ==> r == remote && driveIdCache == old(driveIdCache)
    {
      var hit := CachedDriveId(siteId);
      if hit.Some? {
        return Success(hit.value), false;
      }
      fetched := true;
      r := StoreDriveId(siteId, remote);
    }
  }

  /**
   * Two `getDriveId(siteId)` calls that overlap on a cold cache: both make the
   * cache check before either request settles, so both request, and the later
   * store wins.
   */
  method OverlappingGetDriveId(g: GraphService, siteId: string, first: Result<string>, second: Result<string>)
    returns (requests: nat)
    requires siteId !in g.driveIdCache
    modifies g`driveIdCache
    ensures requests == 2
    ensures g.siteIdCache == old(g.siteIdCache)
    ensures second.Success? ==> g.driveIdCache == old(g.driveIdCache)[siteId := second.value]
    ensures first.Success? && second.Failure? ==> g.driveIdCache == old(g.driveIdCache)[siteId := first.value]
    ensures first.Failure? && second.Failure? ==> g.driveIdCache == old(g.driveIdCache)
  {
    var hit1 := g.CachedDriveId(siteId);
    var hit2 := g.CachedDriveId(siteId);
    requests := 0;
    if hit1.None? { requests := requests + 1; }
    if hit2.None? { requests := requests + 1; }
    var r1 := g.StoreDriveId(siteId, first);
    var r2 := g.StoreDriveId(siteId, second);
  }

  // ---------------------------------------------------------------------------
  // drive path segments

  /** `segments.map(encodeURIComponent)`, with `encode` standing for `encodeURIComponent`. */
  function EncodeAll(segments: seq<string>, encode: string -> string): (r: seq<string>)
    ensures |r| == |segments|
    ensures forall k :: 0 <= k < |r| ==> r[k] == encode(segments[k])
  {
    seq(|segments|, k requires 0 <= k < |segments| => encode(segments[k]))
  }

  /** `folderPath ? folderPath.split('/').map(encodeURIComponent).join('/') : ''`. */
  function EncodedPath(folderPath: string, encode: string -> string): string {
    if Text.Truthy(folderPath) then Text.Join(EncodeAll(Text.Split(folderPath, '/'), encode), '/') else ""
  }

  /** The children path segment of `getDriveItems`. */
  function ChildrenSegment(folderPath: string, encode: string -> string): string {
    var e := EncodedPath(folderPath, encode);
    if Text.Truthy(e) then "/root:/" + e + ":/children" else "/root/children"
  }

  /** The request URL of `getDriveItems(driveId, folderPath)`. */
  function DriveItemsUrl(driveId: string, folderPath: string, encode: string -> string): string {
    "/drives/" + driveId + ChildrenSegment(folderPath, encode)
  }

  const FolderFilter: string := "?$filter=folder ne null"

  /** The path segment of `getFolders`, written out in the source as its own template. */
  function FoldersSegment(folderPath: string, encode: string -> string): (r: string)
    ensures r == ChildrenSegment(folderPath, encode) + FolderFilter
  {
    var e := EncodedPath(folderPath, encode);
    if Text.Truthy(e) then "/root:/" + e + ":/children" + FolderFilter
    else "/root/children" + FolderFilter
  }

  /** The request URL of `getFolders(driveId, folderPath)`. */
  function FoldersUrl(driveId: string, folderPath: string, encode: string -> string): string {
    "/drives/" + driveId + FoldersSegment(folderPath, encode)
  }

  /** An empty folder path lists the drive root. */
  lemma RootPath(encode: string -> string)
    ensures ChildrenSegment("", encode) == "/root/children"
    ensures FoldersSegment("", encode) == "/root/children" + FolderFilter
  {
  }

  /**
   * Each '/'-separated segment is encoded on its own: splitting the encoded path
   * on '/' gives the encoded segments, as many as the path had, provided the
   * encoder escapes '/' as `encodeURIComponent` does.
   */
  lemma EncodedPathSegments(folderPath: string, encode: string -> string)
    requires folderPath != ""
    requires forall s :: '/' !in encode(s)
    ensures var segments := Text.Split(folderPath, '/');
      && Text.Split(EncodedPath(folderPath, encode), '/') == EncodeAll(segments, encode)
      && |Text.Split(EncodedPath(folderPath, encode), '/')| == |segments|
  {
    Text.SplitJoin(EncodeAll(Text.Split(folderPath, '/'), encode), '/');
  }

  /**
   * A non-empty folder path is addressed as `/root:/<m>:/children` (plus the
   * folder filter for `getFolders`), where `m` is not empty and splits on '/'
   * into the encoded segments of the path; this holds for an encoder that, like
   * `encodeURIComponent`, escapes '/' and maps a non-empty segment to a
   * non-empty string.
   */
  lemma PathSegmentShape(folderPath: string, encode: string -> string)
    requires folderPath != ""
    requires forall s :: '/' !in encode(s)
    requires forall s :: s != "" ==> encode(s) != ""
    ensures var m := EncodedPath(folderPath, encode);
      && m != ""
      && Text.Split(m, '/') == EncodeAll(Text.Split(folderPath, '/'), encode)
      && ChildrenSegment(folderPath, encode) == "/root:/" + m + ":/children"
      && FoldersSegment(folderPath, encode) == "/root:/" + m + ":/children" + FolderFilter
  {
    var m := EncodedPath(folderPath, encode);
    var pieces := Text.Split(folderPath, '/');
    EncodedPathSegments(folderPath, encode);
    if |pieces| == 1 {
      Text.JoinSplit(folderPath, '/');
      assert pieces[0] == folderPath;
      assert Text.Split(m, '/') == [encode(folderPath)];
    }
  }

  // ---------------------------------------------------------------------------
  // label and barrier results

  /** `{ id?, name? }` of `getSensitivityLabel`; the tag is whatever the field holds. */
  datatype SensitivityLabel = SensitivityLabel(id: Option<FieldValue>, name: Option<FieldValue>)

  /** `fields.complianceTag || fields.ComplianceTag`, when truthy. */
  function ComplianceTag(fields: Fields): Option<FieldValue> {
    if FieldIsSet(fields, "complianceTag") then Some(fields["complianceTag"])
    else if FieldIsSet(fields, "ComplianceTag") then Some(fields["ComplianceTag"])
    else None
  }

  /** `getSensitivityLabel`: a failed field request rejects; otherwise `{id: tag, name: tag}` or `{}`. */
  function GetSensitivityLabel(fetched: Result<Fields>): (r: Result<SensitivityLabel>)
    ensures fetched.Failure? <==> r.Failure?
    ensures fetched.Success? ==>
      var f := fetched.value;
      && r.value.id == r.value.name
      && (r.value.name.Some? <==> FieldIsSet(f, "complianceTag") || FieldIsSet(f, "ComplianceTag"))
      && (FieldIsSet(f, "complianceTag") ==> r.value.name == Some(f["complianceTag"]))
      && (!FieldIsSet(f, "complianceTag") && FieldIsSet(f, "ComplianceTag") ==>
            r.value.name == Some(f["ComplianceTag"]))
  {
    match fetched
    case Failure(e) => Failure(e)
    case Success(f) =>
      match ComplianceTag(f)
      case Some(tag) => Success(SensitivityLabel(Some(tag), Some(tag)))
      case None => Success(SensitivityLabel(None, None))
  }

  /** The `retentionLabel` facet of a drive item; `labelName` is its `label` property. */
  datatype RetentionFacet = RetentionFacet(id: Option<string>, labelName: Option<string>)

  /** The `{ id, name }` `getRetentionLabel` resolves to. */
  datatype RetentionLabel = RetentionLabel(id: Option<string>, name: Option<string>)

  /**
   * `getRetentionLabel`: a present facet maps to `{id, name: label.label}`;
   * an absent facet and a failed request both give `undefined`, so it never rejects.
   */
  function GetRetentionLabel(fetched: Result<Option<RetentionFacet>>): (r: Option<RetentionLabel>)
    ensures r.Some? <==> fetched.Success? && fetched.value.Some?
    ensures r.Some? ==> r.value.id == fetched.value.value.id && r.value.name == fetched.value.value.labelName
  {
    match fetched
    case Failure(_) => None
    case Success(None) => None
    case Success(Some(facet)) => Some(RetentionLabel(facet.id, facet.labelName))
  }

  /** An information-barrier policy. */
  datatype Barrier = Barrier(id: string, displayName: Option<string>)

  /** `listInformationBarriers`: `value || []`, and `[]` on any failure, so it never rejects. */
  function ListInformationBarriers(fetched: Result<Page<Barrier>>): (r: seq<Barrier>)
    ensures fetched.Failure? ==> r == []
    ensures fetched.Success? && fetched.value.value.Some? ==> r == fetched.value.value.value
    ensures fetched.Success? && fetched.value.value.None? ==> r == []
  {
    match fetched
    case Failure(_) => []
    case Success(p) => ValueOrEmpty(p)
  }

  const ConditionalAccessUrl: string := "/identity/conditionalAccess/policies"

  /** `listConditionalAccessPolicies`: every page of the policy listing. */
  method ListConditionalAccessPolicies<P>(o: Oracle<P>, ghost bound: nat) returns (r: Result<seq<P>>)
    requires EndsWithin(o, ConditionalAccessUrl, bound)
    ensures r == AllPages(o, ConditionalAccessUrl, bound)
  {
    r := FetchAllPages(o, ConditionalAccessUrl, bound);
  }
}
