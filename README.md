# Docker volume access control in the Portainer proxy

Portainer sits as a reverse proxy in front of the Docker Engine API. When a caller lists or
inspects volumes, the proxy rewrites Docker's response according to the caller's rights and
the resource controls (ownership records) in force:

- **VolumeList** (`volumeListOperation`). An administrator, or a caller with access to the
  whole endpoint, gets every volume back in the same order. Each volume is decorated with its
  resource control. Any other caller gets only the volumes a resource control grants them, in
  order. A volume without a `Name` fails the whole operation.
- **VolumeInspect** (`volumeInspectOperation`). The volume comes back unchanged, comes back
  decorated, or is replaced by the access-denied response.
- **Ownership** (`findInheritedVolumeResourceControl`). A volume is governed by the Volume record
  keyed by its `Name`. Failing that, it inherits the Stack record named by its
  `com.docker.stack.namespace` label.

The project has six modules:

- `Wrappers` holds `Option` and `Result`.
- `Json` is the decoded JSON value (Go's `map[string]interface{}` tree). `IsSet` is Go's `m[k] != nil`.
- `Portainer` holds the resource-control record, its lookup by (identifier, type), the
  `UserCanAccessResource` rule, and the record's JSON form.
- `AccessControl` holds the caller context and the decoration/apply helpers that the volume code calls.
- `Volumes` models `volumes.go`. Two functions are pure: ownership resolution and inspect.
  The two list loops are methods with loop invariants, proved against the specification functions
  `DecoratedList` and `FilteredList`. `VolumeListOperation` is a method that replaces `Volumes` in
  the decoded response object.
- `VolumeProperties` relates the operations to each other.

Where the code departs from the intended design, the model follows the code:

- On the restricted list path, a volume whose own Volume record refuses the caller is still
  shown when its stack's record grants access (`volumes.go:171-175`). Inspect never looks past
  an existing Volume record (`volumes.go:98-101`). So the list can show a volume that inspect
  denies: `ListedVolumeMayBeDeniedOnInspect`, with a concrete instance in `DisagreementExample`.
  The other direction does hold: whatever inspect returns to a restricted caller, the list shows
  identically (`InspectedVolumeIsListedAlike`).
- On the privileged list path the Volume record is attached first and the Stack record second
  (`volumes.go:146-149`), so the Stack record wins. Inspect attaches the Volume record
  (`PrivilegedListPrefersStackRecord`).
- A privileged caller's listed volume that has no record gets no decoration key at all, rather
  than an empty one.

## Model

| member | source | states |
|---|---|---|
| `Portainer.GetResourceControlByResourceIDAndType` | api/http/proxy/factory/docker/volumes.go:98 | finds a record exactly when one in the list governs (identifier, type), and what it finds is such a record from the list |
| `Portainer.LookupFindsTheUniqueRecord` | api/http/proxy/factory/docker/volumes.go:107 | with at most one record per (identifier, type), the lookup returns exactly that record |
| `Portainer.UserCanAccessResource` | api/http/proxy/factory/docker/volumes.go:85 | a nil record grants nothing; a record grants access exactly when it is public, lists the user, or shares a team with the user (its team set intersects the user's) |
| `Portainer.DecodeEncodeResourceControl` | api/http/proxy/factory/docker/volumes.go:86 | the JSON form this model gives a record (the source's own field layout is not modelled) reads back as the same record, so the record a decorated object carries can be recovered from it |
| `AccessControl.DecorateObject` | api/http/proxy/factory/docker/volumes.go:86 | decoration adds only the reserved key, keeps every other key and value, and the object then carries the given record |
| `AccessControl.DecorateObjectOverwrites` | api/http/proxy/factory/docker/volumes.go:146-149 | decorating twice leaves only the second record |
| `AccessControl.DecorateResourceWithAccessControl` | api/http/proxy/factory/docker/volumes.go:146 | when a record in the list governs (identifier, type) the object comes back carrying such a record, otherwise unchanged; every other key is kept |
| `AccessControl.DecorateResourceWithAccessControlFromLabel` | api/http/proxy/factory/docker/volumes.go:149 | when the labels and the label are set and a record governs (label value, type) the object comes back carrying such a record, otherwise unchanged; every other key is kept |
| `AccessControl.ApplyResourceAccessControl` | api/http/proxy/factory/docker/volumes.go:171 | access is granted exactly when the caller is privileged or UserCanAccessResource grants the record found for (identifier, type); a granted object with a record carries that record, which the caller may access; without a record or without access the object is unchanged; every other key is kept |
| `AccessControl.ApplyResourceAccessControlFromLabel` | api/http/proxy/factory/docker/volumes.go:174 | refused with the object unchanged when the labels or the label are not set; otherwise granted exactly when the caller is privileged or UserCanAccessResource grants the record found for (label value, type), and a restricted caller's granted object carries that record; every other key is kept |
| `Json.GetJSONObject` | api/http/proxy/factory/docker/volumes.go:122 | returns an object exactly when the key is set (present, not null), and it is the object stored there |
| `Volumes.ExtractVolumeLabels` | api/http/proxy/factory/docker/volumes.go:118-130 | labels are returned exactly when `Labels` is set (present, not null), and they are the object stored there |
| `Volumes.FindInheritedVolumeResourceControl` | api/http/proxy/factory/docker/volumes.go:95-116 | an existing Volume record for the name is returned; otherwise a record is resolved exactly when the stack label is set and a Stack record governs its value; whatever is resolved is in the list, and when the name has no Volume record it is a Stack record governing the label value |
| `Volumes.VolumeFieldsOutsideReserved` | api/http/proxy/factory/docker/volumes.go:148 | decoration changes neither the `Name` nor the `Labels` read after it |
| `Volumes.VolumeInspectOperation` | api/http/proxy/factory/docker/volumes.go:68-91 | fails with the identifier error exactly when `Name` is not set; a privileged caller is never denied; a restricted caller gets the volume exactly when UserCanAccessResource grants the resolved record; the returned body is unchanged when nothing was resolved and otherwise carries the resolved record, with status 200 and every other field kept |
| `Volumes.DecoratedVolume` | api/http/proxy/factory/docker/volumes.go:145-149 | a volume listed for a privileged caller keeps all its fields, and carries the Stack record if its label resolves one, otherwise its Volume record, otherwise it is unchanged |
| `Volumes.DecorationStepsAgree` | api/http/proxy/factory/docker/volumes.go:145-149 | the two decoration steps of the loop body give `DecoratedVolume` |
| `Volumes.DecoratedList` | api/http/proxy/factory/docker/volumes.go:135-155 | the decorated array has one entry per volume |
| `Volumes.DecorateVolumeList` | api/http/proxy/factory/docker/volumes.go:135-155 | fails with the identifier error exactly when some volume lacks `Name`, with no partial result; otherwise returns each volume decorated, same length and order |
| `Volumes.Admission` | api/http/proxy/factory/docker/volumes.go:170-178 | a privileged caller keeps every volume; a restricted caller keeps it exactly when UserCanAccessResource grants its Volume record or its Stack record; a kept volume keeps all its fields and carries one of those two records, one the caller may access |
| `Volumes.FilterVolumeList` | api/http/proxy/factory/docker/volumes.go:161-183 | fails with the identifier error exactly when some volume lacks `Name`, with no partial result; otherwise returns exactly the admitted volumes in order |
| `Volumes.VolumeListOperation` | api/http/proxy/factory/docker/volumes.go:35-63 | never denies; without `Volumes` the body is rewritten unchanged with 200; with it, fails exactly when some volume lacks `Name`, and otherwise replaces only `Volumes`, with the decorated array for a privileged caller and the filtered array for anyone else |
| `VolumeProperties.KeptIsOrderedSubsequence` | api/http/proxy/factory/docker/volumes.go:177-179 | the kept entries are exactly the admitted ones, each once, at strictly increasing source positions |
| `VolumeProperties.FilteredListIsOrderedSubsequence` | api/http/proxy/factory/docker/volumes.go:161-183 | the filtered array is an order-preserving sub-list: entry j is the admitted form of volume idx[j], idx strictly increasing, and a volume appears exactly when admitted |
| `VolumeProperties.GrantedVolumeIsVisible` | api/http/proxy/factory/docker/volumes.go:80-88 | a volume whose resolved record grants the caller access is listed and inspectable |
| `VolumeProperties.PublicVolumeIsVisible` | api/http/proxy/factory/docker/volumes.go:85-88 | a volume whose resolved record is public is listed and inspectable for every caller |
| `VolumeProperties.UnownedVolumeIsHidden` | api/http/proxy/factory/docker/volumes.go:80-90 | a volume with no resolvable record is never listed, and always denied on inspect, for a restricted caller |
| `VolumeProperties.InspectedVolumeIsListedAlike` | api/http/proxy/factory/docker/volumes.go:80-88 | for a restricted caller, what inspect returns is exactly the list entry for that volume |
| `VolumeProperties.ListedVolumeMayBeDeniedOnInspect` | api/http/proxy/factory/docker/volumes.go:171-175 | when the Volume record refuses and the Stack record grants, the list shows the volume decorated with the Stack record while inspect denies it |
| `VolumeProperties.DisagreementExample` | api/http/proxy/factory/docker/volumes.go:171-175 | a concrete volume and caller for which the list shows what inspect denies |
| `VolumeProperties.PrivilegedListPrefersStackRecord` | api/http/proxy/factory/docker/volumes.go:146-149 | with both records present, a privileged caller's list entry carries the Stack record and the inspect body carries the Volume record |
| `VolumeProperties.DirectRecordIgnoresLabels` | api/http/proxy/factory/docker/volumes.go:96-101 | once a Volume record exists for the name, the labels do not affect the resolved record |
| `VolumeProperties.ResolvedRecordIsTheOwner` | api/http/proxy/factory/docker/volumes.go:95-116 | with unique records, resolution returns the volume's own record, or, when there is none, the labelled stack's record |

## Left out

- `getInheritedResourceControlFromVolumeLabels` (`volumes.go:19-31`) is not modelled. It asks the Docker daemon over the network, and neither operation uses it.
- Decoding the response into a JSON object and writing it back are not modelled: `GetResponseAsJSONOBject`, `RewriteResponse`, `RewriteAccessDeniedResponse`, headers and byte encoding. The operations take the decoded object and return an `Outcome`. The decode error path is therefore absent.
- The helpers called from `volumes.go` are defined in files that are not part of this model. These are `decorateObject`, `decorateResourceWithAccessControl(FromLabel)`, `applyResourceAccessControl(FromLabel)`, `UserCanAccessResource` and `GetResourceControlByResourceIDAndType`. Their bodies here follow their names and call sites:
  - lookup is the first exact match on (identifier, type);
  - a nil record grants nothing;
  - access is granted to a listed user, a listed team member, or anyone when the record is public;
  - decoration sets the reserved key `Portainer` to an object holding the record, replacing what the key held.
- The record's JSON form is this model's own. It has an identifier, a numeric type code, arrays of user and team ids, and a public flag.
- A Go type assertion that fails would panic. The affected values are a non-array `Volumes`, a non-object volume or `Labels`, and a non-string `Name` or stack label. The model excludes these through the preconditions `WellTypedVolumeList`, `WellTypedVolumes` and `WellTypedVolumeObject`.
- Volumes.DecorateVolumeList, Volumes.FilterVolumeList, Volumes.VolumeListOperation, Volumes.VolumeInspectOperation: their preconditions (`WellTypedVolumes`, `WellTypedVolumeList`, `WellTypedVolumeObject`) exclude more inputs than those on which Go panics. The list loops return the identifier error before a later item is type-asserted (`volumes.go:141-143`, `166-168`). Inspect returns it before `Labels` is read (`volumes.go:76-78`). So the model does not cover, for example, a nameless volume followed by a non-object item, for which Go returns the identifier error without panicking.
- Go's maps are references, so `decorateObject` updates the volume's map in place. The model works on values, so aliasing between the input array and the output is not captured.
- JSON numbers are modelled as reals. Their float64 rounding is not modelled; they are opaque payload here.
- How the proxy turns `VolumeIdentifierNotFound` into an HTTP error status is not modelled.
