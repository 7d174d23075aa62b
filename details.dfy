/**
 * What the properties panel derives from a selected item
 * (`loadDocumentProperties`): the drive id it works on, the friendly type,
 * whether metadata is set, whether the OneDrive upload button shows, the
 * "Accessed By" timeline and the Security tab.
 */
module Details {
  import opened Wrappers
  import opened Items
  import Text
  import Graph

  // ---------------------------------------------------------------------------
  // drive id

  /** `driveId?.trim() ? driveId : undefined`: a blank hint counts as no hint, a kept hint is not trimmed. */
  function NormalizeDriveId(hint: Option<string>): (r: Option<string>)
    ensures r.Some? ==> hint == r
  {
    if hint.Some? && Text.Truthy(Text.Trim(hint.value)) then hint else None
  }

  /** A hint is kept exactly when it holds a character other than white space. */
  lemma NormalizeDriveIdKeepsNonBlank(hint: Option<string>)
    ensures NormalizeDriveId(hint).Some? <==>
      hint.Some? && exists k :: 0 <= k < |hint.value| && !Text.IsJsWhitespace(hint.value[k])
  {
    if hint.Some? {
      Text.TrimEmptyIff(hint.value);
    }
  }

  /** `driveId?.trim() ? driveId : serviceDriveId`, the drive of the Security tab. */
  function EffectiveDriveId(hint: Option<string>, serviceDriveId: string): (r: string)
    ensures NormalizeDriveId(hint).Some? ==> r == hint.value
    ensures NormalizeDriveId(hint).None? ==> r == serviceDriveId
  {
    if hint.Some? && Text.Truthy(Text.Trim(hint.value)) then hint.value else serviceDriveId
  }

  /**
   * `resolvedDriveId || await getDriveId(await getSiteId())`: a kept hint is
   * used with no request; otherwise the service caches resolve the site and its
   * drive, `driveLookup` giving the drive request's outcome for a site id. A
   * failure of either request rejects the whole panel load.
   */
  method ResolveServiceDrive(g: Graph.GraphService, hint: Option<string>,
                             siteRemote: Result<string>, driveLookup: string -> Result<string>)
    returns (r: Result<string>)
    modifies g`siteIdCache, g`driveIdCache
    ensures NormalizeDriveId(hint).Some? ==> r == Success(hint.value) && unchanged(g)
    ensures r.Success? ==> EffectiveDriveId(hint, r.value) == r.value
    ensures NormalizeDriveId(hint).None? ==>
      var site := if old(g.CachedSiteId()).Some? then Success(old(g.siteIdCache).value) else siteRemote;
      && g.siteIdCache == (if old(g.CachedSiteId()).None? && siteRemote.Success? then Some(siteRemote.value)
                           else old(g.siteIdCache))
      && (site.Failure? ==> r == site && g.driveIdCache == old(g.driveIdCache))
      && (site.Success? && site.value in old(g.driveIdCache) ==>
            r == Success(old(g.driveIdCache)[site.value]) && g.driveIdCache == old(g.driveIdCache))
      && (site.Success? && site.value !in old(g.driveIdCache) ==>
            && r == driveLookup(site.value)
            && g.driveIdCache == if r.Success? then old(g.driveIdCache)[site.value := r.value]
                                 else old(g.driveIdCache))
  {
    var resolved := NormalizeDriveId(hint);
    if resolved.Some? {
      // a kept hint is never the empty string, so `||` takes it
      return Success(resolved.value);
    }
    var site, _ := g.GetSiteId(siteRemote);
    if site.Failure? {
      return site;
    }
    var drive, _ := g.GetDriveId(site.value, driveLookup(site.value));
    r := drive;
  }

  // ---------------------------------------------------------------------------
  // friendly type

  /** `fileName.split('.').pop()?.toLowerCase() || ''`: the lower-cased text after the last dot. */
  function Extension(fileName: string): string {
    Text.Lower(Text.LastPiece(fileName, '.'))
  }

  /** The cases of the extension `switch`. */
  function KnownType(ext: string): (r: Option<string>)
    ensures r.Some? ==> r.value != ""
  {
    if ext == "doc" || ext == "docx" then Some("Word document")
    else if ext == "xls" || ext == "xlsx" then Some("Excel spreadsheet")
    else if ext == "ppt" || ext == "pptx" then Some("PowerPoint presentation")
    else if ext == "pdf" then Some("PDF document")
    else if ext == "txt" then Some("Text file")
    else if ext == "jpg" || ext == "jpeg" then Some("JPEG image")
    else if ext == "png" then Some("PNG image")
    else None
  }

  /**
   * The friendly type of an item: "Folder" for a folder; otherwise the table
   * entry of its extension, else the upper-cased extension and " file", else
   * (no extension) the MIME type, else "Unknown". It is never empty.
   */
  function FriendlyType(isFolder: bool, name: Option<string>, mimeType: Option<string>): (r: string)
    ensures r != ""
    ensures isFolder ==> r == "Folder"
    ensures !isFolder && name.Some? ==> var ext := Extension(name.value);
      && (KnownType(ext).Some? ==> r == KnownType(ext).value)
      && (KnownType(ext).None? && ext != "" ==> r == Text.Upper(ext) + " file")
    ensures !isFolder && (name.None? || Extension(name.value) == "") ==>
      r == if mimeType.Some? && mimeType.value != "" then mimeType.value else "Unknown"
  {
    if isFolder then "Folder"
    else
      var fileName := if name.Some? then name.value else "";
      var ext := Extension(fileName);
      match KnownType(ext)
      case Some(t) => t
      case None =>
        if Text.Truthy(ext) then Text.Upper(ext) + " file"
        else if mimeType.Some? && Text.Truthy(mimeType.value) then mimeType.value
        else "Unknown"
  }

  /** A name without a dot is its own extension. */
  lemma DotlessNameIsItsOwnExtension(fileName: string)
    requires '.' !in fileName
    ensures Extension(fileName) == Text.Lower(fileName)
  {
    Text.LastPieceIsTextAfterLastSeparator(fileName, '.');
  }

  /** The extension is the lower-cased text after the last dot: a dot precedes it, and none is in it. */
  lemma ExtensionFollowsLastDot(fileName: string)
    requires '.' in fileName
    ensures exists k :: 0 <= k < |fileName| && fileName[k] == '.' && '.' !in fileName[k + 1..]
                        && Extension(fileName) == Text.Lower(fileName[k + 1..])
  {
    Text.LastPieceIsTextAfterLastSeparator(fileName, '.');
    var p := Text.LastPiece(fileName, '.');
    var k := |fileName| - |p| - 1;
    assert fileName[k] == '.' && fileName[k + 1..] == p;
  }

  /** There is no extension exactly when the name is empty or ends in a dot. */
  lemma EmptyExtensionIff(fileName: string)
    ensures Extension(fileName) == "" <==> fileName == "" || fileName[|fileName| - 1] == '.'
  {
    Text.LastPieceIsTextAfterLastSeparator(fileName, '.');
    var p := Text.LastPiece(fileName, '.');
    if fileName != "" && fileName[|fileName| - 1] == '.' {
      assert fileName[|fileName| - 1..] == ['.'];
    }
    if p == "" && fileName != "" {
      assert fileName[|fileName| - 1] == '.';
    }
  }

  /** The type does not depend on the case of the name. */
  lemma FriendlyTypeIgnoresCase(isFolder: bool, name: string, mimeType: Option<string>)
    ensures FriendlyType(isFolder, Some(Text.Lower(name)), mimeType) == FriendlyType(isFolder, Some(name), mimeType)
  {
    Text.LowerLastPiece(name, '.');
    Text.LowerIdempotent(Text.LastPiece(name, '.'));
  }

  /** Only a name that is empty or ends in a dot falls back to the MIME type, then to "Unknown". */
  lemma FriendlyTypeFallsBackToMime(name: string, mimeType: Option<string>)
    requires name == "" || name[|name| - 1] == '.'
    ensures FriendlyType(false, Some(name), mimeType) ==
      if mimeType.Some? && mimeType.value != "" then mimeType.value else "Unknown"
  {
    EmptyExtensionIff(name);
  }

  /** A dot-less name of an unlisted kind shows its upper-cased self and " file". */
  lemma DotlessUnknownName(name: string, mimeType: Option<string>)
    requires name != "" && '.' !in name && KnownType(Text.Lower(name)).None?
    ensures FriendlyType(false, Some(name), mimeType) == Text.Upper(Text.Lower(name)) + " file"
  {
    DotlessNameIsItsOwnExtension(name);
  }

  // ---------------------------------------------------------------------------
  // metadata and the upload button

  const DepartmentField: string := "Department"
  const ProjectField: string := "Project"
  const CategoryField: string := "Category"

  /** The three classification fields. */
  const ClassificationFields: set<string> := {DepartmentField, ProjectField, CategoryField}

  /** `Boolean(fields.Department || fields.Project || fields.Category)`. */
  function HasMetadata(fields: Fields): (r: bool)
    ensures r <==> exists key :: key in ClassificationFields && FieldIsSet(fields, key)
  {
    FieldIsSet(fields, DepartmentField) || FieldIsSet(fields, ProjectField) || FieldIsSet(fields, CategoryField)
  }

  /** Fields other than Department, Project and Category never decide `hasMetadata`. */
  lemma HasMetadataIgnoresOtherFields(fields: Fields, key: string, v: FieldValue)
    requires key !in ClassificationFields
    ensures HasMetadata(fields[key := v]) == HasMetadata(fields)
    ensures HasMetadata(fields - {key}) == HasMetadata(fields)
  {
    assert key != DepartmentField && key != ProjectField && key != CategoryField;
  }

  /** The upload button shows for an item of a drive that is not a document library, without metadata. */
  function ShowUploadButton(driveType: Option<string>, hasMetadata: bool): (r: bool)
    ensures r ==> driveType.Some? && driveType.value != "" && driveType.value != "documentLibrary"
    ensures hasMetadata ==> !r
    ensures driveType == Some("documentLibrary") || driveType.None? ==> !r
  {
    driveType.Some? && Text.Truthy(driveType.value) && driveType.value != "documentLibrary" && !hasMetadata
  }

  /** An item whose classification fields are all unset in a personal drive gets the button. */
  lemma UploadButtonForPersonalDrive(fields: Fields)
    requires forall key :: key in ClassificationFields ==> key !in fields
    ensures ShowUploadButton(Some("business"), HasMetadata(fields))
  {
  }

  // ---------------------------------------------------------------------------
  // the "Accessed By" timeline

  /**
   * One `itemActivity`: its actor's display name, whether the `edit` and
   * `checkin` facets are present, the `version.newVersion` label, and the
   * recorded time.
   */
  datatype Activity = Activity(actor: Option<string>, edit: bool, checkin: bool,
                               newVersion: Option<string>, recorded: Option<string>)

  datatype ActionKind = Accessed | Edited | CheckedIn | Versioned(version: string)

  /** The first facet present, in the order edit, checkin, version; "accessed" when none is. */
  function ActionOf(a: Activity): (r: ActionKind)
    ensures r == Edited <==> a.edit
    ensures r == CheckedIn <==> !a.edit && a.checkin
    ensures r.Versioned? <==> !a.edit && !a.checkin && a.newVersion.Some? && a.newVersion.value != ""
    ensures r.Versioned? ==> r.version == a.newVersion.value && r.version != ""
  {
    if a.edit then Edited
    else if a.checkin then CheckedIn
    else if a.newVersion.Some? && Text.Truthy(a.newVersion.value) then Versioned(a.newVersion.value)
    else Accessed
  }

  const VersionedPrefix: string := "versioned to v"

  function ActionText(k: ActionKind): string {
    match k
    case Accessed => "accessed"
    case Edited => "edited"
    case CheckedIn => "checked in"
    case Versioned(v) => VersionedPrefix + v
  }

  /** Different actions read differently in the timeline. */
  lemma ActionTextInjective(k1: ActionKind, k2: ActionKind)
    requires ActionText(k1) == ActionText(k2)
    ensures k1 == k2
  {
    if k1.Versioned? && k2.Versioned? {
      assert k1.version == ActionText(k1)[|VersionedPrefix|..];
      assert k2.version == ActionText(k2)[|VersionedPrefix|..];
    }
  }

  /** One line of the timeline: actor, action text and the time text. */
  datatype AccessEntry = AccessEntry(actor: string, action: string, time: string)

  datatype AccessLog = FailedToLoad | NoRecords | Entries(entries: seq<AccessEntry>)

  /** The timeline line of one activity; `format` stands for `toLocaleString` of the parsed time. */
  function Entry(a: Activity, format: string -> string): (r: AccessEntry)
    ensures r.actor != ""
    ensures a.actor.Some? && a.actor.value != "" ==> r.actor == a.actor.value
    ensures a.actor.None? || a.actor.value == "" ==> r.actor == "Unknown"
    ensures r.action == ActionText(ActionOf(a))
    ensures a.recorded.Some? && a.recorded.value != "" ==> r.time == format(a.recorded.value)
    ensures a.recorded.None? || a.recorded.value == "" ==> r.time == "Unknown time"
  {
    AccessEntry(
      if a.actor.Some? && Text.Truthy(a.actor.value) then a.actor.value else "Unknown",
      ActionText(ActionOf(a)),
      if a.recorded.Some? && Text.Truthy(a.recorded.value) then format(a.recorded.value) else "Unknown time")
  }

  /**
   * The "Accessed By" tab: a failed request, or a response without `value`
   * (whose `.length` throws), shows the failure text; an empty list the
   * no-records text; otherwise one line per activity, in order.
   */
  function AccessView(fetched: Result<Page<Activity>>, format: string -> string): (r: AccessLog)
    ensures r.FailedToLoad? <==> fetched.Failure? || fetched.value.value.None?
    ensures r.NoRecords? <==> fetched.Success? && fetched.value.value == Some([])
    ensures r.Entries? ==> var acts := fetched.value.value.value;
      && |r.entries| == |acts| > 0
      && forall k :: 0 <= k < |acts| ==> r.entries[k] == Entry(acts[k], format)
  {
    match fetched
    case Failure(_) => FailedToLoad
    case Success(p) =>
      match p.value
      case None => FailedToLoad
      case Some(acts) =>
        if |acts| > 0 then Entries(seq(|acts|, k requires 0 <= k < |acts| => Entry(acts[k], format)))
        else NoRecords
  }

  // ---------------------------------------------------------------------------
  // the Security tab

  /** The four lists of the Security tab, each the texts of its `<li>` items. */
  datatype SecurityTab = SecurityTab(labelList: seq<string>, retentionList: seq<string>,
                                     caList: seq<string>, ibList: seq<string>)

  /** The tab as the panel template first renders it. */
  const InitialSecurityTab: SecurityTab := SecurityTab(["None"], ["None"], ["None"], ["None"])

  /** `current.name || 'None'`. */
  function LabelText(current: Graph.SensitivityLabel): (r: string)
    ensures current.name.None? ==> r == "None"
    ensures current.name.Some? && Truthy(current.name.value) ==> r == Show(current.name.value)
  {
    if current.name.Some? && Truthy(current.name.value) then Show(current.name.value) else "None"
  }

  /** `currentRetention?.name ? name : 'None'`. */
  function RetentionText(r: Option<Graph.RetentionLabel>): (t: string)
    ensures t != ""
    ensures r.Some? && r.value.name.Some? && r.value.name.value != "" ==> t == r.value.name.value
    ensures r.None? || r.value.name.None? || r.value.name.value == "" ==> t == "None"
  {
    if r.Some? && r.value.name.Some? && Text.Truthy(r.value.name.value) then r.value.name.value else "None"
  }

  /** `${count} conditional access polic${count === 1 ? 'y' : 'ies'} found`. */
  function PolicyCountText(count: nat): string {
    Text.NatToString(count) + " conditional access polic" + (if count == 1 then "y" else "ies") + " found"
  }

  /** The text opens with the decimal count, which reads back as the number of policies. */
  lemma PolicyCountTextShowsCount(count: nat)
    ensures var t := PolicyCountText(count); var d := |Text.NatToString(count)|;
      && d < |t| && t[d] == ' '
      && (forall k :: 0 <= k < d ==> '0' <= t[k] <= '9')
      && Text.DigitsValue(t[..d]) == count
  {
    var digits := Text.NatToString(count);
    var t := PolicyCountText(count);
    var rest := " conditional access polic" + (if count == 1 then "y" else "ies") + " found";
    assert t == digits + rest;
    assert t[..|digits|] == digits;
    Text.NatToStringRoundTrip(count);
  }

  /** The singular is used for exactly one policy. */
  lemma PolicyCountTextSingular(count: nat)
    ensures var t := PolicyCountText(count);
      (t[|t| - 7..] == "y found") <==> count == 1
  {
    var t := PolicyCountText(count);
    if count == 1 {
      assert t == "1 conditional access policy found";
    } else {
      var head := Text.NatToString(count) + " conditional access polic";
      assert t == head + "ies found";
      assert t[|t| - 7..] == "s found";
    }
  }

  /** `b.displayName || b.id`. */
  function BarrierText(b: Graph.Barrier): string {
    if b.displayName.Some? && Text.Truthy(b.displayName.value) then b.displayName.value else b.id
  }

  /** The barrier list: one entry per policy, or "None" when there is none. */
  function BarrierList(barriers: seq<Graph.Barrier>): (r: seq<string>)
    ensures barriers == [] ==> r == ["None"]
    ensures barriers != [] ==> |r| == |barriers| && forall k :: 0 <= k < |r| ==> r[k] == BarrierText(barriers[k])
  {
    if |barriers| > 0 then seq(|barriers|, k requires 0 <= k < |barriers| => BarrierText(barriers[k]))
    else ["None"]
  }

  /**
   * A click on the Security tab, from the lists it shows before (`prev`), with
   * the outcomes of the four requests. The label list is cleared first; a
   * failed label request rejects the handler there, leaving it empty and the
   * other lists as they were. Otherwise each list shows its result; only the
   * policy count can show "Unavailable", since the retention and barrier
   * helpers turn their own failures into "none".
   */
  function SecurityTabAfter<P>(prev: SecurityTab,
                               sensitivity: Result<Fields>,
                               retention: Result<Option<Graph.RetentionFacet>>,
                               policies: Result<seq<P>>,
                               barriers: Result<Page<Graph.Barrier>>): (r: SecurityTab)
    ensures sensitivity.Failure? ==>
      r == prev.(labelList := [])
    ensures sensitivity.Success? ==>
      && r.labelList == [LabelText(Graph.GetSensitivityLabel(sensitivity).value)]
      && r.retentionList == [RetentionText(Graph.GetRetentionLabel(retention))]
      && r.caList == (if policies.Success? then [PolicyCountText(|policies.value|)] else ["Unavailable"])
      && r.ibList == BarrierList(Graph.ListInformationBarriers(barriers))
  {
    match Graph.GetSensitivityLabel(sensitivity)
    case Failure(_) => prev.(labelList := [])
    case Success(current) =>
      SecurityTab([LabelText(current)],
                  [RetentionText(Graph.GetRetentionLabel(retention))],
                  if policies.Success? then [PolicyCountText(|policies.value|)] else ["Unavailable"],
                  BarrierList(Graph.ListInformationBarriers(barriers)))
  }

  /**
   * The Security tab with the policy count taken from
   * `listConditionalAccessPolicies`, that is, every page of the policy listing:
   * the count shown is the number of policies on all pages together.
   */
  method OpenSecurityTab<P>(prev: SecurityTab, sensitivity: Result<Fields>,
                            retention: Result<Option<Graph.RetentionFacet>>,
                            o: Oracle<P>, ghost bound: nat,
                            barriers: Result<Page<Graph.Barrier>>)
    returns (tab: SecurityTab)
    requires Graph.EndsWithin(o, Graph.ConditionalAccessUrl, bound)
    ensures tab == SecurityTabAfter(prev, sensitivity, retention,
                                    Graph.AllPages(o, Graph.ConditionalAccessUrl, bound), barriers)
    ensures sensitivity.Success? && Graph.ConditionalAccessUrl in o && !HasNext(o[Graph.ConditionalAccessUrl]) ==>
      tab.caList == [PolicyCountText(|ValueOrEmpty(o[Graph.ConditionalAccessUrl])|)]
  {
    var policies := Graph.ListConditionalAccessPolicies(o, bound);
    tab := SecurityTabAfter(prev, sensitivity, retention, policies, barriers);
  }

  /**
   * Failed retention and barrier requests read the same as "none found": the
   * retention list shows "None" and the barrier list "None", never "Unavailable".
   */
  lemma FailuresReadAsNone<P>(prev: SecurityTab, fields: Fields, e1: string, policies: Result<seq<P>>, e2: string)
    ensures var r := SecurityTabAfter(prev, Success(fields), Failure(e1), policies, Failure(e2));
      r.retentionList == ["None"] && r.ibList == ["None"]
  {
  }
}
