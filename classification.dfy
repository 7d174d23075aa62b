/**
 * The classification controls of the properties panel: the Department,
 * Project and Category pickers and the one button whose label is the mode
 * ("Edit Metadata" read-only, "Save Metadata" editable, "Saving…" while a
 * save is under way), and the field patch a save sends.
 */
module Classification {
  import opened Wrappers
  import opened Items
  import Details

  const EditLabel: string := "Edit Metadata"
  const SaveLabel: string := "Save Metadata"
  const SavingLabel: string := "Saving…"

  const SavingStatus: string := "Saving metadata…"
  const NothingToUpdate: string := "No metadata fields available to update."
  const SavedStatus: string := "Metadata saved successfully!"
  const FailedStatus: string := "Metadata update failed."

  /** The body of the `listItem/fields` PATCH: field name to picker value. */
  type Patch = map<string, string>

  /**
   * `updatedFields`: each classification field that is a key of the fetched
   * fields, whatever its value, set to its picker's value.
   */
  method BuildPatch(fields: Fields, dept: string, project: string, category: string) returns (patch: Patch)
    ensures patch.Keys == fields.Keys * Details.ClassificationFields
    ensures patch.Keys <= fields.Keys
    ensures Details.DepartmentField in patch ==> patch[Details.DepartmentField] == dept
    ensures Details.ProjectField in patch ==> patch[Details.ProjectField] == project
    ensures Details.CategoryField in patch ==> patch[Details.CategoryField] == category
  {
    patch := map[];
    if Details.DepartmentField in fields {
      patch := patch[Details.DepartmentField := dept];
    }
    if Details.ProjectField in fields {
      patch := patch[Details.ProjectField := project];
    }
    if Details.CategoryField in fields {
      patch := patch[Details.CategoryField := category];
    }
  }

  /** The payload is empty exactly when none of the three fields is a key of the item. */
  lemma PatchEmptyIff(fields: Fields, patch: Patch)
    requires patch.Keys == fields.Keys * Details.ClassificationFields
    ensures |patch| == 0 <==>
      Details.DepartmentField !in fields && Details.ProjectField !in fields && Details.CategoryField !in fields
  {
  }

  class ClassificationPanel {
    /** The button's `textContent`, which is also the mode. */
    var buttonLabel: string
    /** Whether the three pickers are disabled. */
    var selectsDisabled: bool
    /** The button's `disabled`. */
    var buttonDisabled: bool
    /** The text of `#saveStatus`. */
    var status: string
    /** Every patch sent, in order. */
    var sent: seq<Patch>

    /** The pickers are read-only exactly in "Edit Metadata" mode, and the button is usable between clicks. */
    predicate Valid()
      reads this
    {
      && buttonLabel in {EditLabel, SaveLabel, SavingLabel}
      && (selectsDisabled <==> buttonLabel == EditLabel)
      && !buttonDisabled
    }

    /** The panel as it opens: read-only when the item has metadata, editable otherwise. */
    constructor (hasMetadata: bool)
      ensures Valid()
      ensures hasMetadata ==> buttonLabel == EditLabel && selectsDisabled
      ensures !hasMetadata ==> buttonLabel == SaveLabel && !selectsDisabled
      ensures status == "" && sent == []
    {
      buttonLabel := if hasMetadata then EditLabel else SaveLabel;
      selectsDisabled := hasMetadata;
      buttonDisabled := false;
      status := "";
      sent := [];
    }

    /**
     * A click on the button, with the item's fetched fields, the picker values
     * and whether the PATCH would succeed. In "Edit Metadata" mode the pickers
     * are enabled and the label becomes "Save Metadata", with no request.
     * Otherwise a patch is built: an empty one is not sent and leaves the label
     * "Saving…"; a non-empty one is sent once, and on success the panel returns
     * to read-only "Edit Metadata", on failure the label stays "Saving…".
     */
    method Click(fields: Fields, dept: string, project: string, category: string, patchOk: bool)
      returns (request: Option<Patch>)
      requires Valid()
      modifies this
      ensures Valid()
      ensures old(buttonLabel) == EditLabel ==>
        && request == None && buttonLabel == SaveLabel && !selectsDisabled
        && status == old(status) && sent == old(sent)
      ensures old(buttonLabel) != EditLabel ==>
        && (request.None? <==> forall key :: key in Details.ClassificationFields ==> key !in fields)
        && sent == old(sent) + (if request.Some? then [request.value] else [])
        && (request.Some? ==> request.value.Keys == fields.Keys * Details.ClassificationFields)
        && (request.Some? && Details.DepartmentField in request.value ==> request.value[Details.DepartmentField] == dept)
        && (request.Some? && Details.ProjectField in request.value ==> request.value[Details.ProjectField] == project)
        && (request.Some? && Details.CategoryField in request.value ==> request.value[Details.CategoryField] == category)
        && (request.None? ==> buttonLabel == SavingLabel && status == NothingToUpdate)
        && (request.Some? && patchOk ==> buttonLabel == EditLabel && selectsDisabled && status == SavedStatus)
        && (request.Some? && !patchOk ==> buttonLabel == SavingLabel && status == FailedStatus)
    {
      if buttonLabel == EditLabel {
        selectsDisabled := false;
        buttonLabel := SaveLabel;
        return None;
      }
      buttonDisabled := true;
      buttonLabel := SavingLabel;
      status := SavingStatus;
      var patch := BuildPatch(fields, dept, project, category);
      PatchEmptyIff(fields, patch);
      if |patch| == 0 {
        status := NothingToUpdate;
        request := None;
      } else {
        sent := sent + [patch];
        request := Some(patch);
        if patchOk {
          status := SavedStatus;
          selectsDisabled := true;
          buttonLabel := EditLabel;
        } else {
          status := FailedStatus;
        }
      }
      buttonDisabled := false;
    }
  }

  /** Opening a panel on an item with metadata, clicking Edit and saving successfully ends read-only again, after one patch. */
  method EditThenSave(fields: Fields, dept: string, project: string, category: string)
    returns (panel: ClassificationPanel)
    requires Details.HasMetadata(fields)
    ensures panel.buttonLabel == EditLabel && panel.selectsDisabled && |panel.sent| == 1
  {
    panel := new ClassificationPanel(Details.HasMetadata(fields));
    var first := panel.Click(fields, dept, project, category, true);
    assert Details.DepartmentField in Details.ClassificationFields;
    assert Details.ProjectField in Details.ClassificationFields;
    assert Details.CategoryField in Details.ClassificationFields;
    var second := panel.Click(fields, dept, project, category, true);
  }
}
