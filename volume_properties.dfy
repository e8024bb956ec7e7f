/** Properties that relate the volume operations to each other and to the ownership rules:
    the filtered list is an order-preserving selection, visibility follows the resolved record,
    and the places where the list and inspect paths disagree. */
module VolumeProperties {
  import opened Wrappers
  import opened Json
  import opened Portainer
  import opened AccessControl
  import opened Volumes

  /** Kept keeps the decisions that are Some and only them, each once, in their original order:
      `idx` gives, for each entry of the output, the position of the decision it came from. */
  lemma {:induction false} KeptIsOrderedSubsequence(decisions: seq<Option<Object>>) returns (idx: seq<nat>)
    ensures |idx| == |Kept(decisions)| <= |decisions|
    ensures forall j :: 0 <= j < |idx| ==> idx[j] < |decisions|
    ensures forall j, k :: 0 <= j < k < |idx| ==> idx[j] < idx[k]
    ensures forall j :: 0 <= j < |idx| ==>
      decisions[idx[j]].Some? && Kept(decisions)[j] == JObject(decisions[idx[j]].value)
    ensures forall i :: 0 <= i < |decisions| ==> (decisions[i].Some? <==> i in idx)
    decreases |decisions|
  {
    if |decisions| == 0 {
      return [];
    }
    var n := |decisions| - 1;
    var prefix := decisions[..n];
    var before := KeptIsOrderedSubsequence(prefix);
    assert forall i :: 0 <= i < n ==> prefix[i] == decisions[i];
    assert n !in before;
    if decisions[n].Some? {
      idx := before + [n];
      assert idx[|before|] == n;
    } else {
      idx := before;
    }
  }

  /** The filtered list keeps the admitted volumes and only them, each once, in their original order:
      `idx` gives, for each entry of the output, the position of the volume it came from. */
  lemma FilteredListIsOrderedSubsequence(volumeData: seq<Json>, context: OperationContext) returns (idx: seq<nat>)
    requires WellTypedVolumes(volumeData) && AllIdentified(volumeData)
    ensures |idx| == |FilteredList(volumeData, context)| <= |volumeData|
    ensures forall j :: 0 <= j < |idx| ==> idx[j] < |volumeData|
    ensures forall j, k :: 0 <= j < k < |idx| ==> idx[j] < idx[k]
    ensures forall j :: 0 <= j < |idx| ==>
      && Admission(volumeData[idx[j]].fields, context).Some?
      && FilteredList(volumeData, context)[j] == JObject(Admission(volumeData[idx[j]].fields, context).value)
    ensures forall i :: 0 <= i < |volumeData| ==> (Admission(volumeData[i].fields, context).Some? <==> i in idx)
  {
    idx := KeptIsOrderedSubsequence(Admissions(volumeData, context));
  }

  /** A volume whose resolved record grants the caller access is both listed and inspectable. */
  lemma GrantedVolumeIsVisible(obj: Object, context: OperationContext)
    requires IsSet(obj, VolumeIdentifier) && WellTypedVolumeObject(obj)
    requires UserCanAccessResource(context.userID, context.userTeamIDs,
                                   FindInheritedVolumeResourceControl(obj, context.resourceControls))
    ensures Admission(obj, context).Some?
    ensures VolumeInspectOperation(obj, context).Rewritten?
  {
    var direct := DirectRecord(obj, context.resourceControls);
    if direct.None? {
      assert FindInheritedVolumeResourceControl(obj, context.resourceControls) == StackRecord(obj, context.resourceControls);
    }
  }

  /** In particular a volume whose resolved record is public is visible to every caller. */
  lemma PublicVolumeIsVisible(obj: Object, context: OperationContext)
    requires IsSet(obj, VolumeIdentifier) && WellTypedVolumeObject(obj)
    requires FindInheritedVolumeResourceControl(obj, context.resourceControls).Some?
    requires FindInheritedVolumeResourceControl(obj, context.resourceControls).value.isPublic
    ensures Admission(obj, context).Some?
    ensures VolumeInspectOperation(obj, context).Rewritten?
  {
    GrantedVolumeIsVisible(obj, context);
  }

  /** A volume with neither a Volume record nor a Stack record is never listed and always denied on
      inspect for a caller without blanket access. */
  lemma UnownedVolumeIsHidden(obj: Object, context: OperationContext)
    requires IsSet(obj, VolumeIdentifier) && WellTypedVolumeObject(obj)
    requires !Privileged(context)
    requires FindInheritedVolumeResourceControl(obj, context.resourceControls).None?
    ensures Admission(obj, context).None?
    ensures VolumeInspectOperation(obj, context) == AccessDenied
  {
    assert DirectRecord(obj, context.resourceControls).None?;
    assert StackRecord(obj, context.resourceControls).None?;
  }

  /** For a caller without blanket access, whatever inspect returns is exactly what the list shows for
      the same volume. */
  lemma InspectedVolumeIsListedAlike(obj: Object, context: OperationContext)
    requires IsSet(obj, VolumeIdentifier) && WellTypedVolumeObject(obj)
    requires !Privileged(context)
    requires VolumeInspectOperation(obj, context).Rewritten?
    ensures Admission(obj, context) == Some(VolumeInspectOperation(obj, context).body)
  {
    var direct := DirectRecord(obj, context.resourceControls);
    if direct.None? {
      assert FindInheritedVolumeResourceControl(obj, context.resourceControls) == StackRecord(obj, context.resourceControls);
    }
  }

  /** The converse fails: when the Volume record refuses the caller and the Stack record grants access,
      the list shows the volume (decorated with the Stack record) while inspect denies it, because
      inspect never looks past an existing Volume record. */
  lemma ListedVolumeMayBeDeniedOnInspect(obj: Object, context: OperationContext)
    requires IsSet(obj, VolumeIdentifier) && WellTypedVolumeObject(obj)
    requires !Privileged(context)
    requires DirectRecord(obj, context.resourceControls).Some?
    requires !UserCanAccessResource(context.userID, context.userTeamIDs, DirectRecord(obj, context.resourceControls))
    requires UserCanAccessResource(context.userID, context.userTeamIDs, StackRecord(obj, context.resourceControls))
    ensures Admission(obj, context).Some?
    ensures DecorationOf(Admission(obj, context).value) == StackRecord(obj, context.resourceControls)
    ensures VolumeInspectOperation(obj, context) == AccessDenied
  {
    assert FindInheritedVolumeResourceControl(obj, context.resourceControls) == DirectRecord(obj, context.resourceControls);
  }

  /** A volume that shows the disagreement: user 7 is not on the volume's own record but is on the
      record of the stack it belongs to. */
  lemma DisagreementExample()
    ensures
      var obj := map[VolumeIdentifier := JString("data"),
                     LabelsField := JObject(map[VolumeLabelForStackIdentifier := JString("web")])];
      var context := OperationContext(false, false, 7, [],
                       [ResourceControl("data", VolumeResourceControl, [1], [], false),
                        ResourceControl("web", StackResourceControl, [7], [], false)]);
      && WellTypedVolumeObject(obj)
      && Admission(obj, context).Some?
      && VolumeInspectOperation(obj, context) == AccessDenied
  {
    var obj := map[VolumeIdentifier := JString("data"),
                   LabelsField := JObject(map[VolumeLabelForStackIdentifier := JString("web")])];
    var context := OperationContext(false, false, 7, [],
                     [ResourceControl("data", VolumeResourceControl, [1], [], false),
                      ResourceControl("web", StackResourceControl, [7], [], false)]);
    assert StackNamespace(obj) == Some("web");
    assert StackRecord(obj, context.resourceControls) == Some(context.resourceControls[1]);
    assert DirectRecord(obj, context.resourceControls) == Some(context.resourceControls[0]);
    ListedVolumeMayBeDeniedOnInspect(obj, context);
  }

  /** For a privileged caller, a volume with both a Volume record and a Stack record is listed with the
      Stack record but inspected with the Volume record. */
  lemma PrivilegedListPrefersStackRecord(obj: Object, context: OperationContext)
    requires IsSet(obj, VolumeIdentifier) && WellTypedVolumeObject(obj)
    requires Privileged(context)
    requires DirectRecord(obj, context.resourceControls).Some?
    requires StackRecord(obj, context.resourceControls).Some?
    ensures DecorationOf(DecoratedVolume(obj, context.resourceControls)) == StackRecord(obj, context.resourceControls)
    ensures VolumeInspectOperation(obj, context).Rewritten?
    ensures DecorationOf(VolumeInspectOperation(obj, context).body) == DirectRecord(obj, context.resourceControls)
  {
    assert FindInheritedVolumeResourceControl(obj, context.resourceControls) == DirectRecord(obj, context.resourceControls);
  }

  /** Once a Volume record exists for the name, the labels play no part in ownership resolution. */
  lemma DirectRecordIgnoresLabels(a: Object, b: Object, resourceControls: seq<ResourceControl>)
    requires IsSet(a, VolumeIdentifier) && WellTypedVolumeObject(a)
    requires IsSet(b, VolumeIdentifier) && WellTypedVolumeObject(b)
    requires VolumeID(a) == VolumeID(b)
    requires HasResourceControl(resourceControls, VolumeID(a), VolumeResourceControl)
    ensures FindInheritedVolumeResourceControl(a, resourceControls) == FindInheritedVolumeResourceControl(b, resourceControls)
  {
  }

  /** With records unique per (identifier, type), the resolved record is exactly the volume's own
      record when it has one, and exactly the stack's record otherwise. */
  lemma ResolvedRecordIsTheOwner(obj: Object, resourceControls: seq<ResourceControl>, rc: ResourceControl)
    requires IsSet(obj, VolumeIdentifier) && WellTypedVolumeObject(obj)
    requires UniqueResourceControls(resourceControls) && rc in resourceControls
    requires || Governs(rc, VolumeID(obj), VolumeResourceControl)
             || (!HasResourceControl(resourceControls, VolumeID(obj), VolumeResourceControl)
                 && StackNamespace(obj) == Some(rc.resourceID) && rc.resourceType == StackResourceControl)
    ensures FindInheritedVolumeResourceControl(obj, resourceControls) == Some(rc)
  {
    LookupFindsTheUniqueRecord(resourceControls, rc);
  }
}
