/** The access-control helpers of the Docker proxy that the volume operations call:
    the per-request operation context, decoration of a JSON object with a resource control,
    and the "decorate" and "apply" steps that look a record up by identifier or by label.
    Their Go definitions live in a file that is not part of this model; the bodies below follow
    their names and call sites: lookup by exact (identifier, type), no access through a nil
    record, decoration sets one reserved key. */
module AccessControl {
  import opened Wrappers
  import opened Json
  import opened Portainer

  /** The reserved top-level key a decorated object carries its record under. */
  const PortainerKey := "Portainer"
  const ResourceControlKey := "ResourceControl"

  /** restrictedDockerOperationContext: who is calling and the records in force for this request. */
  datatype OperationContext = OperationContext(
    isAdmin: bool,
    endpointResourceAccess: bool,
    userID: UserID,
    userTeamIDs: seq<TeamID>,
    resourceControls: seq<ResourceControl>)

  /** Blanket access: an administrator, or a caller with access to the whole endpoint. */
  predicate Privileged(context: OperationContext)
  {
    context.isAdmin || context.endpointResourceAccess
  }

  /** The two objects agree on every key except the reserved decoration key. */
  predicate SameOutsideReserved(a: Object, b: Object)
  {
    && (forall k :: k in a && k != PortainerKey ==> k in b && a[k] == b[k])
    && (forall k :: k in b && k != PortainerKey ==> k in a)
  }

  /** The record an object is decorated with, read back from its reserved key. */
  function DecorationOf(obj: Object): Option<ResourceControl>
  {
    if PortainerKey in obj && obj[PortainerKey].JObject? && ResourceControlKey in obj[PortainerKey].fields
    then DecodeResourceControl(obj[PortainerKey].fields[ResourceControlKey])
    else None
  }

  /** decorateObject: attach the record under the reserved key and leave every other key alone. */
  function DecorateObject(obj: Object, rc: ResourceControl): (r: Object)
    ensures r.Keys == obj.Keys + {PortainerKey}
    ensures SameOutsideReserved(obj, r)
    ensures DecorationOf(r) == Some(rc)
  {
    DecodeEncodeResourceControl(rc);
    obj[PortainerKey := JObject(map[ResourceControlKey := EncodeResourceControl(rc)])]
  }

  /** A second decoration replaces the first. */
  lemma DecorateObjectOverwrites(obj: Object, first: ResourceControl, second: ResourceControl)
    ensures DecorateObject(DecorateObject(obj, first), second) == DecorateObject(obj, second)
  {
    var a := DecorateObject(DecorateObject(obj, first), second);
    var b := DecorateObject(obj, second);
    assert a.Keys == b.Keys;
    assert forall k :: k in a ==> a[k] == b[k];
  }

  /** decorateResourceWithAccessControl: decorate with the record governing (resourceID, resourceType), if any. */
  function DecorateResourceWithAccessControl(obj: Object, resourceID: string,
                                             resourceControls: seq<ResourceControl>,
                                             resourceType: ResourceControlType): (r: Object)
    ensures SameOutsideReserved(obj, r)
    ensures HasResourceControl(resourceControls, resourceID, resourceType) ==>
      && DecorationOf(r).Some?
      && DecorationOf(r).value in resourceControls
      && Governs(DecorationOf(r).value, resourceID, resourceType)
    ensures !HasResourceControl(resourceControls, resourceID, resourceType) ==> r == obj
  {
    match GetResourceControlByResourceIDAndType(resourceID, resourceType, resourceControls)
    case Some(rc) => DecorateObject(obj, rc)
    case None => obj
  }

  /** decorateResourceWithAccessControlFromLabel: the same, for the resource named by a label, when the
      labels object and that label are set. A non-string label value would make Go panic. */
  function DecorateResourceWithAccessControlFromLabel(labels: Option<Object>, obj: Object, labelKey: string,
                                                      resourceControls: seq<ResourceControl>,
                                                      resourceType: ResourceControlType): (r: Object)
    requires labels.Some? && IsSet(labels.value, labelKey) ==> labels.value[labelKey].JString?
    ensures SameOutsideReserved(obj, r)
    ensures labels.Some? && IsSet(labels.value, labelKey)
            && HasResourceControl(resourceControls, labels.value[labelKey].str, resourceType) ==>
      && DecorationOf(r).Some?
      && DecorationOf(r).value in resourceControls
      && Governs(DecorationOf(r).value, labels.value[labelKey].str, resourceType)
    ensures (labels.Some? && IsSet(labels.value, labelKey) ==>
               !HasResourceControl(resourceControls, labels.value[labelKey].str, resourceType)) ==> r == obj
  {
    if labels.Some? && IsSet(labels.value, labelKey)
    then DecorateResourceWithAccessControl(obj, labels.value[labelKey].str, resourceControls, resourceType)
    else obj
  }

  /** applyResourceAccessControl: with no record, access is the caller's blanket access and the object is
      unchanged; with a record, a caller with blanket access or UserCanAccessResource gets the object
      decorated with it, anyone else is refused. */
  function ApplyResourceAccessControl(obj: Object, resourceID: string, context: OperationContext,
                                      resourceType: ResourceControlType): (r: (Object, bool))
    ensures SameOutsideReserved(obj, r.0)
    ensures r.1 <==> Privileged(context) || UserCanAccessResource(context.userID, context.userTeamIDs,
                       GetResourceControlByResourceIDAndType(resourceID, resourceType, context.resourceControls))
    ensures !(HasResourceControl(context.resourceControls, resourceID, resourceType) && r.1) ==> r.0 == obj
    ensures HasResourceControl(context.resourceControls, resourceID, resourceType) && r.1 ==>
      && DecorationOf(r.0).Some?
      && DecorationOf(r.0).value in context.resourceControls
      && Governs(DecorationOf(r.0).value, resourceID, resourceType)
      && (Privileged(context) || UserCanAccessResource(context.userID, context.userTeamIDs, DecorationOf(r.0)))
  {
    var rc := GetResourceControlByResourceIDAndType(resourceID, resourceType, context.resourceControls);
    if rc.None? then (obj, Privileged(context))
    else if Privileged(context) || UserCanAccessResource(context.userID, context.userTeamIDs, rc)
    then (DecorateObject(obj, rc.value), true)
    else (obj, false)
  }

  /** applyResourceAccessControlFromLabel: the same for the resource named by a label; refused when the
      labels object or the label is not set. */
  function ApplyResourceAccessControlFromLabel(labels: Option<Object>, obj: Object, labelKey: string,
                                               context: OperationContext,
                                               resourceType: ResourceControlType): (r: (Object, bool))
    requires labels.Some? && IsSet(labels.value, labelKey) ==> labels.value[labelKey].JString?
    ensures SameOutsideReserved(obj, r.0)
    ensures !(labels.Some? && IsSet(labels.value, labelKey)) ==> r == (obj, false)
    ensures labels.Some? && IsSet(labels.value, labelKey) ==>
      (r.1 <==> Privileged(context) || UserCanAccessResource(context.userID, context.userTeamIDs,
                  GetResourceControlByResourceIDAndType(labels.value[labelKey].str, resourceType, context.resourceControls)))
    ensures r.1 && !Privileged(context) ==>
      && DecorationOf(r.0).Some?
      && DecorationOf(r.0).value in context.resourceControls
      && Governs(DecorationOf(r.0).value, labels.value[labelKey].str, resourceType)
      && UserCanAccessResource(context.userID, context.userTeamIDs, DecorationOf(r.0))
  {
    if labels.Some? && IsSet(labels.value, labelKey)
    then ApplyResourceAccessControl(obj, labels.value[labelKey].str, context, resourceType)
    else (obj, false)
  }
}
