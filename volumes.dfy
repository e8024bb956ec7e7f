/** The response rewriting the Docker proxy applies to the two volume endpoints of the
    Docker Engine API (v1.28): VolumeList, whose "Volumes" array is decorated for privileged
    callers and filtered for everyone else, and VolumeInspect, which is returned as is,
    decorated, or replaced by an access-denied response. A volume's ownership comes from a
    Volume record keyed by its name or, failing that, from the Stack record named by its
    stack-namespace label. */
module Volumes {
  import opened Wrappers
  import opened Json
  import opened Portainer
  import opened AccessControl

  const VolumeIdentifier := "Name"
  const VolumeLabelForStackIdentifier := "com.docker.stack.namespace"
  const VolumesField := "Volumes"
  const LabelsField := "Labels"
  const StatusOK := 200

  datatype ProxyError = VolumeIdentifierNotFound

  /** What an operation does to the response: rewrite it with a body and a status, replace it with
      the fixed access-denied response (which carries nothing of the original), or fail. */
  datatype Outcome =
    | Rewritten(body: Object, status: int)
    | AccessDenied
    | Failed(err: ProxyError)

  // ---- The shapes the Go type assertions insist on ----

  /** "Labels", when set, is an object whose stack-namespace label, when set, is a string. */
  predicate WellTypedLabels(obj: Object)
  {
    IsSet(obj, LabelsField) ==>
      && obj[LabelsField].JObject?
      && (IsSet(obj[LabelsField].fields, VolumeLabelForStackIdentifier) ==>
            obj[LabelsField].fields[VolumeLabelForStackIdentifier].JString?)
  }

  /** "Name", when set, is a string, and the labels are well typed. */
  predicate WellTypedVolumeObject(obj: Object)
  {
    (IsSet(obj, VolumeIdentifier) ==> obj[VolumeIdentifier].JString?) && WellTypedLabels(obj)
  }

  predicate WellTypedVolume(v: Json)
  {
    v.JObject? && WellTypedVolumeObject(v.fields)
  }

  predicate WellTypedVolumes(volumeData: seq<Json>)
  {
    forall i :: 0 <= i < |volumeData| ==> WellTypedVolume(volumeData[i])
  }

  /** "Volumes", when set, is an array of well-typed volume objects. */
  predicate WellTypedVolumeList(responseObject: Object)
  {
    IsSet(responseObject, VolumesField) ==>
      responseObject[VolumesField].JArray? && WellTypedVolumes(responseObject[VolumesField].items)
  }

  /** The volume object carries its identifier. */
  predicate Identified(v: Json)
  {
    v.JObject? && IsSet(v.fields, VolumeIdentifier)
  }

  predicate AllIdentified(volumeData: seq<Json>)
  {
    forall i :: 0 <= i < |volumeData| ==> Identified(volumeData[i])
  }

  function VolumeID(obj: Object): string
    requires IsSet(obj, VolumeIdentifier) && WellTypedVolumeObject(obj)
  {
    obj[VolumeIdentifier].str
  }

  // ---- Labels and ownership ----

  /** extractVolumeLabelsFromVolumeInspectObject and extractVolumeLabelsFromVolumeListObject (the two are
      the same): the "Labels" object when it is set, nil otherwise. */
  function ExtractVolumeLabels(obj: Object): (r: Option<Object>)
    requires WellTypedLabels(obj)
    ensures r.Some? <==> IsSet(obj, LabelsField)
    ensures r.Some? ==> obj[LabelsField] == JObject(r.value)
  {
    GetJSONObject(obj, LabelsField)
  }

  /** The stack the volume belongs to according to its labels, if the label is set. */
  function StackNamespace(obj: Object): Option<string>
    requires WellTypedLabels(obj)
  {
    match ExtractVolumeLabels(obj)
    case Some(labels) =>
      if IsSet(labels, VolumeLabelForStackIdentifier) then Some(labels[VolumeLabelForStackIdentifier].str) else None
    case None => None
  }

  /** The Volume record keyed by the volume's name. */
  function DirectRecord(obj: Object, resourceControls: seq<ResourceControl>): Option<ResourceControl>
    requires IsSet(obj, VolumeIdentifier) && WellTypedVolumeObject(obj)
  {
    GetResourceControlByResourceIDAndType(VolumeID(obj), VolumeResourceControl, resourceControls)
  }

  /** The Stack record named by the volume's stack-namespace label. */
  function StackRecord(obj: Object, resourceControls: seq<ResourceControl>): Option<ResourceControl>
    requires WellTypedLabels(obj)
  {
    match StackNamespace(obj)
    case Some(stack) => GetResourceControlByResourceIDAndType(stack, StackResourceControl, resourceControls)
    case None => None
  }

  /** findInheritedVolumeResourceControl: the Volume record for the volume's name when there is one,
      without looking at the labels; otherwise the Stack record named by the stack-namespace label;
      otherwise nil. */
  function FindInheritedVolumeResourceControl(responseObject: Object, resourceControls: seq<ResourceControl>): (r: Option<ResourceControl>)
    requires IsSet(responseObject, VolumeIdentifier) && WellTypedVolumeObject(responseObject)
    ensures HasResourceControl(resourceControls, VolumeID(responseObject), VolumeResourceControl) ==>
      r.Some? && r.value in resourceControls && Governs(r.value, VolumeID(responseObject), VolumeResourceControl)
    ensures !HasResourceControl(resourceControls, VolumeID(responseObject), VolumeResourceControl) ==>
      (r.Some? <==> StackNamespace(responseObject).Some?
                    && HasResourceControl(resourceControls, StackNamespace(responseObject).value, StackResourceControl))
    ensures r.Some? ==> r.value in resourceControls
    ensures r.Some? && !HasResourceControl(resourceControls, VolumeID(responseObject), VolumeResourceControl) ==>
      StackNamespace(responseObject).Some? && Governs(r.value, StackNamespace(responseObject).value, StackResourceControl)
  {
    var volumeID := responseObject[VolumeIdentifier].str;
    var resourceControl := GetResourceControlByResourceIDAndType(volumeID, VolumeResourceControl, resourceControls);
    if resourceControl.Some? then resourceControl
    else
      var volumeLabels := ExtractVolumeLabels(responseObject);
      if volumeLabels.Some? && IsSet(volumeLabels.value, VolumeLabelForStackIdentifier) then
        var inheritedSwarmStackIdentifier := volumeLabels.value[VolumeLabelForStackIdentifier].str;
        var inherited := GetResourceControlByResourceIDAndType(inheritedSwarmStackIdentifier, StackResourceControl, resourceControls);
        if inherited.Some? then inherited else None
      else None
  }

  /** Decoration and the other volume fields live under different keys. */
  lemma VolumeFieldsOutsideReserved(a: Object, b: Object)
    requires SameOutsideReserved(a, b)
    ensures IsSet(a, VolumeIdentifier) == IsSet(b, VolumeIdentifier)
    ensures IsSet(a, VolumeIdentifier) ==> a[VolumeIdentifier] == b[VolumeIdentifier]
    ensures IsSet(a, LabelsField) == IsSet(b, LabelsField)
    ensures IsSet(a, LabelsField) ==> a[LabelsField] == b[LabelsField]
    ensures WellTypedVolumeObject(a) == WellTypedVolumeObject(b)
  {
    assert VolumeIdentifier != PortainerKey && LabelsField != PortainerKey;
  }

  // ---- VolumeInspect ----

  /** volumeInspectOperation. A volume without a name fails the operation. A privileged caller always
      gets the volume back: unchanged when no record is resolved, decorated with the resolved record
      otherwise. Any other caller gets it, decorated, exactly when UserCanAccessResource grants the
      resolved record, and the access-denied response otherwise. */
  function VolumeInspectOperation(responseObject: Object, context: OperationContext): (r: Outcome)
    requires WellTypedVolumeObject(responseObject)
    ensures r.Failed? <==> !IsSet(responseObject, VolumeIdentifier)
    ensures r.Failed? ==> r.err == VolumeIdentifierNotFound
    ensures r.Rewritten? ==> r.status == StatusOK && SameOutsideReserved(responseObject, r.body)
    ensures IsSet(responseObject, VolumeIdentifier) ==>
      var rc := FindInheritedVolumeResourceControl(responseObject, context.resourceControls);
      && (Privileged(context) ==> r.Rewritten?)
      && (!Privileged(context) ==> (r.Rewritten? <==> UserCanAccessResource(context.userID, context.userTeamIDs, rc)))
      && (r.Rewritten? && rc.Some? ==> DecorationOf(r.body) == rc)
      && (r.Rewritten? && rc.None? ==> r.body == responseObject)
  {
    if !IsSet(responseObject, VolumeIdentifier) then Failed(VolumeIdentifierNotFound)
    else
      var resourceControl := FindInheritedVolumeResourceControl(responseObject, context.resourceControls);
      if resourceControl.None? && Privileged(context) then Rewritten(responseObject, StatusOK)
      else if Privileged(context) || UserCanAccessResource(context.userID, context.userTeamIDs, resourceControl) then
        Rewritten(DecorateObject(responseObject, resourceControl.value), StatusOK)
      else AccessDenied
  }

  // ---- VolumeList, privileged callers ----

  /** The record a privileged caller sees on a listed volume. The stack record is attached after the
      volume record and so replaces it. */
  function ListDecoration(obj: Object, resourceControls: seq<ResourceControl>): Option<ResourceControl>
    requires IsSet(obj, VolumeIdentifier) && WellTypedVolumeObject(obj)
  {
    if StackRecord(obj, resourceControls).Some? then StackRecord(obj, resourceControls)
    else DirectRecord(obj, resourceControls)
  }

  /** A listed volume as a privileged caller receives it. */
  function DecoratedVolume(obj: Object, resourceControls: seq<ResourceControl>): (r: Object)
    requires IsSet(obj, VolumeIdentifier) && WellTypedVolumeObject(obj)
    ensures SameOutsideReserved(obj, r)
    ensures ListDecoration(obj, resourceControls).Some? ==> DecorationOf(r) == ListDecoration(obj, resourceControls)
    ensures ListDecoration(obj, resourceControls).None? ==> r == obj
  {
    match ListDecoration(obj, resourceControls)
    case Some(rc) => DecorateObject(obj, rc)
    case None => obj
  }

  /** The decorated "Volumes" array: one entry per volume, in the same order. */
  function DecoratedList(volumeData: seq<Json>, resourceControls: seq<ResourceControl>): (r: seq<Json>)
    requires WellTypedVolumes(volumeData) && AllIdentified(volumeData)
    ensures |r| == |volumeData|
  {
    seq(|volumeData|, i requires 0 <= i < |volumeData| => JObject(DecoratedVolume(volumeData[i].fields, resourceControls)))
  }

  /** The two decoration steps of one iteration of decorateVolumeList give DecoratedVolume. */
  lemma DecorationStepsAgree(obj: Object, resourceControls: seq<ResourceControl>)
    requires IsSet(obj, VolumeIdentifier) && WellTypedVolumeObject(obj)
    ensures var decorated := DecorateResourceWithAccessControl(obj, VolumeID(obj), resourceControls, VolumeResourceControl);
      && WellTypedLabels(decorated)
      && ExtractVolumeLabels(decorated) == ExtractVolumeLabels(obj)
      && DecorateResourceWithAccessControlFromLabel(ExtractVolumeLabels(decorated), decorated,
           VolumeLabelForStackIdentifier, resourceControls, StackResourceControl)
         == DecoratedVolume(obj, resourceControls)
  {
    var decorated := DecorateResourceWithAccessControl(obj, VolumeID(obj), resourceControls, VolumeResourceControl);
    var direct := DirectRecord(obj, resourceControls);
    if direct.Some? {
      VolumeFieldsOutsideReserved(obj, decorated);
      var stack := StackRecord(obj, resourceControls);
      if stack.Some? {
        DecorateObjectOverwrites(obj, direct.value, stack.value);
      }
    }
  }

  /** decorateVolumeList: fails when any volume has no name, and otherwise returns every volume, in
      order, decorated. */
  method DecorateVolumeList(volumeData: seq<Json>, resourceControls: seq<ResourceControl>) returns (r: Result<seq<Json>, ProxyError>)
    requires WellTypedVolumes(volumeData)
    ensures r.Failure? <==> !AllIdentified(volumeData)
    ensures r.Failure? ==> r.error == VolumeIdentifierNotFound
    ensures r.Success? ==> r.value == DecoratedList(volumeData, resourceControls)
  {
    var decoratedVolumeData: seq<Json> := [];
    var i := 0;
    while i < |volumeData|
      invariant 0 <= i <= |volumeData|
      invariant |decoratedVolumeData| == i
      invariant forall j :: 0 <= j < i ==>
        Identified(volumeData[j]) && decoratedVolumeData[j] == JObject(DecoratedVolume(volumeData[j].fields, resourceControls))
    {
      var volumeObject := volumeData[i].fields;
      if !IsSet(volumeObject, VolumeIdentifier) {
        return Failure(VolumeIdentifierNotFound);
      }
      DecorationStepsAgree(volumeObject, resourceControls);
      var volumeID := volumeObject[VolumeIdentifier].str;
      volumeObject := DecorateResourceWithAccessControl(volumeObject, volumeID, resourceControls, VolumeResourceControl);
      var volumeLabels := ExtractVolumeLabels(volumeObject);
      volumeObject := DecorateResourceWithAccessControlFromLabel(volumeLabels, volumeObject,
                        VolumeLabelForStackIdentifier, resourceControls, StackResourceControl);
      decoratedVolumeData := decoratedVolumeData + [JObject(volumeObject)];
      i := i + 1;
    }
    return Success(decoratedVolumeData);
  }

  // ---- VolumeList, restricted callers ----

  /** What a listed volume becomes for a caller: None when it is dropped, the object it is kept as
      otherwise. A privileged caller keeps every volume, decorated with its Volume record if it has
      one. Anyone else keeps it decorated with the Volume record when that grants access, else with
      the Stack record when that grants access, and drops it otherwise. */
  function Admission(obj: Object, context: OperationContext): (r: Option<Object>)
    requires IsSet(obj, VolumeIdentifier) && WellTypedVolumeObject(obj)
    ensures Privileged(context) ==> r.Some?
    ensures r.Some? ==> SameOutsideReserved(obj, r.value)
    ensures !Privileged(context) ==>
      (r.Some? <==>
        || UserCanAccessResource(context.userID, context.userTeamIDs, DirectRecord(obj, context.resourceControls))
        || UserCanAccessResource(context.userID, context.userTeamIDs, StackRecord(obj, context.resourceControls)))
    ensures r.Some? && !Privileged(context) ==>
      var d := DecorationOf(r.value);
      && (d == DirectRecord(obj, context.resourceControls) || d == StackRecord(obj, context.resourceControls))
      && UserCanAccessResource(context.userID, context.userTeamIDs, d)
  {
    var direct := DirectRecord(obj, context.resourceControls);
    var stack := StackRecord(obj, context.resourceControls);
    if Privileged(context) then Some(if direct.Some? then DecorateObject(obj, direct.value) else obj)
    else if UserCanAccessResource(context.userID, context.userTeamIDs, direct) then Some(DecorateObject(obj, direct.value))
    else if UserCanAccessResource(context.userID, context.userTeamIDs, stack) then Some(DecorateObject(obj, stack.value))
    else None
  }

  /** The per-volume decisions of the restricted path, in list order. */
  function Admissions(volumeData: seq<Json>, context: OperationContext): (r: seq<Option<Object>>)
    requires WellTypedVolumes(volumeData) && AllIdentified(volumeData)
    ensures |r| == |volumeData|
  {
    seq(|volumeData|, i requires 0 <= i < |volumeData| => Admission(volumeData[i].fields, context))
  }

  /** The objects of the kept decisions, in order. */
  function Kept(decisions: seq<Option<Object>>): seq<Json>
    decreases |decisions|
  {
    if |decisions| == 0 then []
    else
      var n := |decisions| - 1;
      match decisions[n]
      case Some(obj) => Kept(decisions[..n]) + [JObject(obj)]
      case None => Kept(decisions[..n])
  }

  /** The filtered "Volumes" array: the admitted volumes, in their original order. */
  function FilteredList(volumeData: seq<Json>, context: OperationContext): seq<Json>
    requires WellTypedVolumes(volumeData) && AllIdentified(volumeData)
  {
    Kept(Admissions(volumeData, context))
  }

  /** filterVolumeList: fails when any volume has no name, and otherwise keeps the admitted volumes
      in order. */
  method FilterVolumeList(volumeData: seq<Json>, context: OperationContext) returns (r: Result<seq<Json>, ProxyError>)
    requires WellTypedVolumes(volumeData)
    ensures r.Failure? <==> !AllIdentified(volumeData)
    ensures r.Failure? ==> r.error == VolumeIdentifierNotFound
    ensures r.Success? ==> r.value == FilteredList(volumeData, context)
  {
    var filteredVolumeData: seq<Json> := [];
    var i := 0;
    while i < |volumeData|
      invariant 0 <= i <= |volumeData|
      invariant AllIdentified(volumeData[..i])
      invariant filteredVolumeData == FilteredList(volumeData[..i], context)
    {
      var volumeObject := volumeData[i].fields;
      if !IsSet(volumeObject, VolumeIdentifier) {
        return Failure(VolumeIdentifierNotFound);
      }
      var volumeID := volumeObject[VolumeIdentifier].str;
      var applied := ApplyResourceAccessControl(volumeObject, volumeID, context, VolumeResourceControl);
      var access := applied.1;
      volumeObject := applied.0;
      if !access {
        var volumeLabels := ExtractVolumeLabels(volumeObject);
        applied := ApplyResourceAccessControlFromLabel(volumeLabels, volumeObject,
                     VolumeLabelForStackIdentifier, context, StackResourceControl);
        volumeObject, access := applied.0, applied.1;
      }
      assert volumeData[..i + 1][..i] == volumeData[..i];
      assert Admissions(volumeData[..i + 1], context)[..i] == Admissions(volumeData[..i], context);
      if access {
        filteredVolumeData := filteredVolumeData + [JObject(volumeObject)];
      }
      i := i + 1;
    }
    assert volumeData[..i] == volumeData;
    return Success(filteredVolumeData);
  }

  // ---- VolumeList ----

  /** volumeListOperation. Without a "Volumes" array the body is rewritten unchanged. Otherwise the
      operation fails if any volume has no name, and else replaces "Volumes" (and nothing else) by the
      decorated array for a privileged caller or the filtered array for anyone else. */
  method VolumeListOperation(body: Object, context: OperationContext) returns (r: Outcome)
    requires WellTypedVolumeList(body)
    ensures !r.AccessDenied?
    ensures !IsSet(body, VolumesField) ==> r == Rewritten(body, StatusOK)
    ensures IsSet(body, VolumesField) ==>
      var volumeData := body[VolumesField].items;
      && (r.Failed? <==> !AllIdentified(volumeData))
      && (r.Failed? ==> r.err == VolumeIdentifierNotFound)
      && (r.Rewritten? ==>
            && r.status == StatusOK
            && r.body.Keys == body.Keys
            && (forall k :: k in body && k != VolumesField ==> r.body[k] == body[k])
            && r.body[VolumesField] == JArray(if Privileged(context) then DecoratedList(volumeData, context.resourceControls)
                                               else FilteredList(volumeData, context)))
  {
    var responseObject := body;
    if IsSet(responseObject, VolumesField) {
      var volumeData := responseObject[VolumesField].items;
      var result: Result<seq<Json>, ProxyError>;
      if context.isAdmin || context.endpointResourceAccess {
        result := DecorateVolumeList(volumeData, context.resourceControls);
      } else {
        result := FilterVolumeList(volumeData, context);
      }
      if result.Failure? {
        return Failed(result.error);
      }
      responseObject := responseObject[VolumesField := JArray(result.value)];
    }
    return Rewritten(responseObject, StatusOK);
  }
}
