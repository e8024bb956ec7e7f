/** The resource-control records of the portainer package: who owns a Docker resource,
    how a record is found for a resource, whether a user may access it, and how a record
    is written into a JSON response when a resource is decorated with it. */
module Portainer {
  import opened Wrappers
  import opened Json

  type UserID = nat
  type TeamID = nat

  /** The kinds of Docker resource a record can be attached to. */
  datatype ResourceControlType =
    | ContainerResourceControl
    | ServiceResourceControl
    | VolumeResourceControl
    | NetworkResourceControl
    | SecretResourceControl
    | StackResourceControl
    | ConfigResourceControl

  /** An ownership record: the resource it governs, the users and teams granted access,
      and whether the resource is public. */
  datatype ResourceControl = ResourceControl(
    resourceID: string,
    resourceType: ResourceControlType,
    userIDs: seq<UserID>,
    teamIDs: seq<TeamID>,
    isPublic: bool)

  predicate Governs(rc: ResourceControl, resourceID: string, resourceType: ResourceControlType)
  {
    rc.resourceID == resourceID && rc.resourceType == resourceType
  }

  /** Some record in `resourceControls` governs the resource (resourceID, resourceType). */
  predicate HasResourceControl(resourceControls: seq<ResourceControl>, resourceID: string, resourceType: ResourceControlType)
  {
    exists rc :: rc in resourceControls && Governs(rc, resourceID, resourceType)
  }

  /** At most one record per (resource identifier, resource type) pair. */
  predicate UniqueResourceControls(resourceControls: seq<ResourceControl>)
  {
    forall i, j :: 0 <= i < j < |resourceControls| ==>
      !Governs(resourceControls[j], resourceControls[i].resourceID, resourceControls[i].resourceType)
  }

  /** GetResourceControlByResourceIDAndType: the first record governing (resourceID, resourceType),
      or nil when there is none. */
  function GetResourceControlByResourceIDAndType(resourceID: string, resourceType: ResourceControlType,
                                                 resourceControls: seq<ResourceControl>): (r: Option<ResourceControl>)
    ensures r.Some? <==> HasResourceControl(resourceControls, resourceID, resourceType)
    ensures r.Some? ==> r.value in resourceControls && Governs(r.value, resourceID, resourceType)
    decreases |resourceControls|
  {
    if |resourceControls| == 0 then None
    else if Governs(resourceControls[0], resourceID, resourceType) then Some(resourceControls[0])
    else GetResourceControlByResourceIDAndType(resourceID, resourceType, resourceControls[1..])
  }

  /** When records are unique per (identifier, type), the lookup returns exactly the record
      that governs the resource. */
  lemma {:induction false} LookupFindsTheUniqueRecord(resourceControls: seq<ResourceControl>, rc: ResourceControl)
    requires UniqueResourceControls(resourceControls)
    requires rc in resourceControls
    ensures GetResourceControlByResourceIDAndType(rc.resourceID, rc.resourceType, resourceControls) == Some(rc)
    decreases |resourceControls|
  {
    if resourceControls[0] != rc {
      var tail := resourceControls[1..];
      assert rc in tail;
      assert !Governs(resourceControls[0], rc.resourceID, rc.resourceType) by {
        var j :| 0 <= j < |resourceControls| && resourceControls[j] == rc;
        assert j > 0;
      }
      assert UniqueResourceControls(tail) by {
        forall i, j | 0 <= i < j < |tail|
          ensures !Governs(tail[j], tail[i].resourceID, tail[i].resourceType)
        {
          assert tail[i] == resourceControls[i + 1] && tail[j] == resourceControls[j + 1];
        }
      }
      LookupFindsTheUniqueRecord(tail, rc);
    }
  }

  function TeamSet(teamIDs: seq<TeamID>): set<TeamID>
  {
    set t | t in teamIDs
  }

  /** The team lists share a member exactly when their sets of teams intersect. */
  lemma SharedTeam(a: seq<TeamID>, b: seq<TeamID>)
    ensures (exists t :: t in a && t in b) <==> TeamSet(a) * TeamSet(b) != {}
  {
    if TeamSet(a) * TeamSet(b) != {} {
      var t :| t in TeamSet(a) * TeamSet(b);
      assert t in a && t in b;
    }
    if exists t :: t in a && t in b {
      var t :| t in a && t in b;
      assert t in TeamSet(a) * TeamSet(b);
    }
  }

  /** UserCanAccessResource: a nil record grants nothing; otherwise access is granted to a
      listed user, to a member of a listed team, or to anyone when the record is public. */
  predicate UserCanAccessResource(userID: UserID, userTeamIDs: seq<TeamID>, resourceControl: Option<ResourceControl>)
    ensures UserCanAccessResource(userID, userTeamIDs, resourceControl) <==>
      && resourceControl.Some?
      && (|| resourceControl.value.isPublic
          || userID in resourceControl.value.userIDs
          || TeamSet(userTeamIDs) * TeamSet(resourceControl.value.teamIDs) != {})
  {
    match resourceControl
    case None => false
    case Some(rc) =>
      SharedTeam(userTeamIDs, rc.teamIDs);
      || userID in rc.userIDs
      || (exists teamID :: teamID in userTeamIDs && teamID in rc.teamIDs)
      || rc.isPublic
  }

  // ---- The record as it appears in a rewritten JSON response ----

  function TypeCode(t: ResourceControlType): nat
  {
    match t
    case ContainerResourceControl => 1
    case ServiceResourceControl => 2
    case VolumeResourceControl => 3
    case NetworkResourceControl => 4
    case SecretResourceControl => 5
    case StackResourceControl => 6
    case ConfigResourceControl => 7
  }

  function TypeOfCode(n: real): Option<ResourceControlType>
  {
    if n == 1.0 then Some(ContainerResourceControl)
    else if n == 2.0 then Some(ServiceResourceControl)
    else if n == 3.0 then Some(VolumeResourceControl)
    else if n == 4.0 then Some(NetworkResourceControl)
    else if n == 5.0 then Some(SecretResourceControl)
    else if n == 6.0 then Some(StackResourceControl)
    else if n == 7.0 then Some(ConfigResourceControl)
    else None
  }

  function EncodeIDs(ids: seq<nat>): Json
  {
    JArray(seq(|ids|, i requires 0 <= i < |ids| => JNumber(ids[i] as real)))
  }

  function DecodeIDs(items: seq<Json>): Option<seq<nat>>
    decreases |items|
  {
    if |items| == 0 then Some([])
    else match (items[0], DecodeIDs(items[1..]))
      case (JNumber(n), Some(rest)) =>
        if n.Floor as real == n && n.Floor >= 0 then Some([n.Floor as nat] + rest) else None
      case _ => None
  }

  lemma {:induction false} DecodeEncodeIDs(ids: seq<nat>)
    ensures DecodeIDs(EncodeIDs(ids).items) == Some(ids)
    decreases |ids|
  {
    if |ids| > 0 {
      assert EncodeIDs(ids).items[1..] == EncodeIDs(ids[1..]).items;
      DecodeEncodeIDs(ids[1..]);
      assert (ids[0] as real).Floor == ids[0];
      assert [ids[0]] + ids[1..] == ids;
    }
  }

  /** The JSON object a record is marshalled to. */
  function EncodeResourceControl(rc: ResourceControl): Json
  {
    JObject(map[
      "ResourceId" := JString(rc.resourceID),
      "Type" := JNumber(TypeCode(rc.resourceType) as real),
      "UserAccesses" := EncodeIDs(rc.userIDs),
      "TeamAccesses" := EncodeIDs(rc.teamIDs),
      "Public" := JBool(rc.isPublic)])
  }

  /** Reads a record back from its JSON form; None for anything that is not one. */
  function DecodeResourceControl(j: Json): Option<ResourceControl>
  {
    if !j.JObject? then None
    else
      var f := j.fields;
      if !("ResourceId" in f && "Type" in f && "UserAccesses" in f && "TeamAccesses" in f && "Public" in f) then None
      else if !(f["ResourceId"].JString? && f["Type"].JNumber? && f["UserAccesses"].JArray?
                && f["TeamAccesses"].JArray? && f["Public"].JBool?) then None
      else match (TypeOfCode(f["Type"].n), DecodeIDs(f["UserAccesses"].items), DecodeIDs(f["TeamAccesses"].items))
        case (Some(t), Some(users), Some(teams)) => Some(ResourceControl(f["ResourceId"].str, t, users, teams, f["Public"].b))
        case _ => None
  }

  /** A record survives being written into a response: decoding its JSON form gives it back. */
  lemma DecodeEncodeResourceControl(rc: ResourceControl)
    ensures DecodeResourceControl(EncodeResourceControl(rc)) == Some(rc)
  {
    DecodeEncodeIDs(rc.userIDs);
    DecodeEncodeIDs(rc.teamIDs);
  }
}
