/**
 * The fixed child-tag table: which tags inside a retrieved metadata file declare
 * child metadata (a custom object's `fields`, a workflow's `rules`, ...), with
 * the child type's own name and the type that holds it.
 */
module ChildTypes {

  datatype Option<T> = None | Some(value: T)

  datatype ChildType = ChildType(xmlName: string, tagName: string, parentXmlName: string)

  const Table: seq<ChildType> := [
      ChildType("ActionOverride", "actionOverrides", "CustomObject"),
      ChildType("CustomField", "fields", "CustomObject"),
      ChildType("BusinessProcess", "businessProcesses", "CustomObject"),
      ChildType("RecordType", "recordTypes", "CustomObject"),
      ChildType("WebLink", "webLinks", "CustomObject"),
      ChildType("ValidationRule", "validationRules", "CustomObject"),
      ChildType("SearchLayouts", "searchLayouts", "CustomObject"),
      ChildType("NamedFilter", "namedFilters", "CustomObject"),
      ChildType("SharingReason", "sharingReasons", "CustomObject"),
      ChildType("ListView", "listViews", "CustomObject"),
      ChildType("FieldSet", "fieldSets", "CustomObject"),
      ChildType("SharingRecalculation", "sharingRecalculations", "CustomObject"),
      ChildType("CompactLayout", "compactLayouts", "CustomObject"),
      ChildType("CustomLabel", "customLabels", "CustomLabels"),
      ChildType("SharingCriteriaRule", "sharingCriteriaRules", "SharingRules"),
      ChildType("SharingOwnerRule", "sharingOwnerRules", "SharingRules"),
      ChildType("SharingTerritoryRule", "sharingTerritoryRules", "SharingRules"),
      ChildType("WorkflowAlert", "alerts", "Workflow"),
      ChildType("WorkflowTask", "tasks", "Workflow"),
      ChildType("WorkflowOutboundMessage", "outboundMessages", "Workflow"),
      ChildType("WorkflowFieldUpdate", "fieldUpdates", "Workflow"),
      ChildType("WorkflowRule", "rules", "Workflow"),
      ChildType("WorkflowEmailRecipient", "emailRecipients", "Workflow"),
      ChildType("WorkflowTimeTrigger", "timeTriggers", "Workflow"),
      ChildType("WorkflowActionReference", "actionReferences", "Workflow")
    ]

  /** `_.find(entries, { tagName: tag })`: the first entry with that tag name. */
  function FindIn(entries: seq<ChildType>, tag: string): (r: Option<ChildType>)
    ensures r.Some? ==> r.value in entries && r.value.tagName == tag
    ensures r.None? <==> forall i :: 0 <= i < |entries| ==> entries[i].tagName != tag
  {
    if entries == [] then None
    else if entries[0].tagName == tag then Some(entries[0])
    else FindIn(entries[1..], tag)
  }

  /** The lookup the child materializer performs for every tag of a retrieved file. */
  function FindByTag(tag: string): Option<ChildType>
  {
    FindIn(Table, tag)
  }

  /** The table has 25 entries, and no two share a tag name or a child type name. */
  lemma TableIsInjective()
    ensures |Table| == 25
    ensures forall i, j :: 0 <= i < j < |Table| ==> Table[i].tagName != Table[j].tagName
    ensures forall i, j :: 0 <= i < j < |Table| ==> Table[i].xmlName != Table[j].xmlName
  {
    TagNamesDistinct();
    XmlNamesDistinct();
  }

  lemma TagNamesDistinct()
    ensures forall i, j :: 0 <= i < j < |Table| ==> Table[i].tagName != Table[j].tagName
  {
  }

  lemma XmlNamesDistinct()
    ensures forall i, j :: 0 <= i < j < |Table| ==> Table[i].xmlName != Table[j].xmlName
  {
  }

  /**
   * Because tag names are unique, the lookup names exactly the entry carrying the
   * tag, so the order of the table does not matter.
   */
  lemma FindByTagIff(tag: string, e: ChildType)
    ensures FindByTag(tag) == Some(e) <==> e in Table && e.tagName == tag
  {
    TagNamesDistinct();
    if e in Table && e.tagName == tag {
      var r := FindByTag(tag);
      var i :| 0 <= i < |Table| && Table[i] == e;
      assert r.Some?;
      var j :| 0 <= j < |Table| && Table[j] == r.value;
      assert i == j;
    }
  }

  /** `fields` is a custom object's field list. */
  lemma FieldsLookup()
    ensures FindByTag("fields") == Some(ChildType("CustomField", "fields", "CustomObject"))
  {
    assert Table[0].tagName != "fields";
    assert Table[1..][0] == ChildType("CustomField", "fields", "CustomObject");
  }

  /** `label` (a custom object's display label) is not a child tag. */
  lemma LabelIsNotTracked()
    ensures FindByTag("label") == None
  {
    assert forall i :: 0 <= i < |Table| ==> Table[i].tagName != "label";
  }

  /**
   * The parent types: 13 custom-object children, then one for custom labels,
   * three for sharing rules and eight for workflows.
   */
  lemma ParentTypes()
    ensures |Table| == 25
    ensures forall i :: 0 <= i < 13 ==> Table[i].parentXmlName == "CustomObject"
    ensures Table[13].parentXmlName == "CustomLabels"
    ensures forall i :: 14 <= i < 17 ==> Table[i].parentXmlName == "SharingRules"
    ensures forall i :: 17 <= i < 25 ==> Table[i].parentXmlName == "Workflow"
  {
  }
}
