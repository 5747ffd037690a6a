# Manuscript port reservation and allocation

A model of how the manuscript tool decides which network ports a deployable
manuscript (a Flink job with a GraphQL endpoint and a database) may use.
The logic lives in `pkg/manuscript_port.go`:

- **Reservation index** (`FindReservedPorts`). It walks the configured
  manuscripts in order. For each one it checks the Flink, GraphQL and DB
  ports, in that order. Each non-zero port is recorded as a reservation
  (port, owner name, role). The first port seen twice aborts the walk with a
  conflict.
- **Validation** (`ValidatePortAssignments`). Each port a candidate
  manuscript sets must not be reserved under another manuscript's name. A
  reservation under its own name is the redeploy case and is accepted.
- **First-fit allocation** (`FindAvailablePort`, `InitializePorts`).
  - Every role whose port is 0 gets the lowest free port of its fixed range:
    Flink 8081–8181, GraphQL 8082–8182, DB 15432–15532.
  - A port is not free when it is in use on the host, reserved by a
    configured manuscript, or picked earlier in the same run for Flink or
    GraphQL.

The files are:

- `port_model.dfy` holds the shared datatypes.
- `reservation.dfy` holds the index: a fold `Reserve` that specifies it,
  the method `FindReservedPorts` with the loop, and lemmas.
- `validation.dfy` holds the validator as a function, with lemmas.
- `allocation.dfy` holds the allocator:
  - `FindAvailablePort` as a loop.
  - `AllocateRoles`, the recursive specification of the three allocation
    steps.
  - `InitializePorts`, which updates the caller's manuscript through a
    reference (`ManuscriptRef`).

The methods that model source functions, `FindReservedPorts`,
`FindAvailablePort` and the map-building loops, are each proved equal to a
specification function. `InitializePorts` states its two early error
returns, a failed validation and a failed lookup, directly. Once both
pass, it is proved equal to the specification function `AllocateRoles`.
`FreshManuscriptGetsRangeStarts` and `PresetPortIsNotAvoided` are fixed
scenarios that run `InitializePorts` on concrete inputs.
Separate lemmas prove what those functions mean:

- an injective index of exactly the non-zero port fields;
- the least free port of a range;
- preset ports untouched;
- allocation in Flink, GraphQL, DB order.

Two behaviours of the code as written:

- No names are compared when the index is built (pkg/manuscript_port.go:28,
  41, 54). So a manuscript that uses one port for two roles conflicts with
  itself.
- Ports that were preset on the candidate are not marked unavailable
  (pkg/manuscript_port.go:127-143). So a preset Flink port of 8082 with no
  GraphQL port set leads to GraphQL 8082 as well
  (`Allocation.PresetPortIsNotAvoided`).

## Model

| member | source | states |
|---|---|---|
| Reservation.ClaimsOf | pkg/manuscript_port.go:25-63 | the claims one manuscript makes are exactly its non-zero port fields, each under its name and role, in Flink, GraphQL, DB order |
| Reservation.ReserveCorrect | pkg/manuscript_port.go:25-66 | the scan over pending claims on top of a consistent index succeeds iff all claims are on distinct ports; on success the map indexes them all; on failure the error is the first repeat |
| Reservation.ReservationIndexCorrect | pkg/manuscript_port.go:18-67 | the index of a configuration exists iff no port is claimed twice; it then maps every claimed port to its claim; otherwise the error names the port, the first claimant, the later claimant and the first claimant's role |
| Reservation.NilConfigReservesNothing | pkg/manuscript_port.go:21-23 | a nil configuration yields an empty index and no error |
| Reservation.Owner | pkg/manuscript_port.go:25-63 | every claim in the scan comes from a manuscript of the configuration and records one of its set ports |
| Reservation.SameOwnerDistinctRoles | pkg/manuscript_port.go:26-63 | two claims of one manuscript are for different roles |
| Reservation.HeadPosition | pkg/manuscript_port.go:25-63 | the first manuscript's claims open the scan and are owned by it |
| Reservation.TailPosition | pkg/manuscript_port.go:25-63 | the later manuscripts' claims follow those of the first, each owned by the same manuscript shifted by one |
| Reservation.FieldPosition | pkg/manuscript_port.go:25-63 | every non-zero port field of every manuscript appears in the scan as a claim owned by that manuscript for that role |
| Reservation.ReservationFailsIffCollision | pkg/manuscript_port.go:28-31 | building the index fails iff two different port fields hold the same non-zero port, with no name comparison, so also within one manuscript |
| Reservation.ReservedPortsExact | pkg/manuscript_port.go:25-66 | on success, port 0 is never reserved, the keys are exactly the non-zero port fields of all manuscripts, each entry's port equals its key, and its name and role are those of a field that holds it |
| Reservation.ClaimsFrom | pkg/manuscript_port.go:25 | the claims from manuscript i onwards are those of manuscript i, role by role, then the rest |
| Reservation.ReserveStep | pkg/manuscript_port.go:27-37 | one role check: port 0 is skipped, a port already indexed aborts with a conflict naming the existing holder, any other port is inserted |
| Reservation.FindReservedPorts | pkg/manuscript_port.go:18-67 | the loop returns exactly the reservation index of the configuration, and an empty index for a nil configuration |
| Validation.ValidatePortAssignments | pkg/manuscript_port.go:69-98 | a failing index gives a wrapped error; otherwise the result is no error iff no set port of the candidate is reserved under another name, and an error names the first such port in Flink, GraphQL, DB order, with its holder and role |
| Validation.ValidateIff | pkg/manuscript_port.go:69-98 | validation passes iff the configuration claims no port twice and every claim on a port the candidate sets was made under the candidate's name |
| Validation.RedeployValidates | pkg/manuscript_port.go:77 | a manuscript taken from a conflict-free configuration always validates against it, because same-name reservations are accepted |
| Validation.PresetPortHeldElsewhereRejected | pkg/manuscript_port.go:76-80 | a preset Flink port held by another manuscript as its GraphQL port is rejected, naming that manuscript and the GraphQL role |
| Allocation.FirstFreeFromCorrect | pkg/manuscript_port.go:220-224 | the upward scan from a port finds the least free port up to the end, and finds none iff every port there is unavailable |
| Allocation.AvailablePortCorrect | pkg/manuscript_port.go:219-226 | success gives the least port of [start, end] not marked unavailable; failure happens iff all are marked, names the range, and is certain when start > end |
| Allocation.FindAvailablePort | pkg/manuscript_port.go:219-226 | the loop returns the least free port of the inclusive range, or the range error exactly when the range is exhausted |
| Allocation.LeastFreeUnique | pkg/manuscript_port.go:219-226 | the least free port of a range is unique |
| Allocation.CoveredPrefix | pkg/manuscript_port.go:219-226 | when exactly [a, a+k) is unavailable, the allocator picks a+k if it is within the range and fails otherwise |
| Allocation.Marked | pkg/manuscript_port.go:118-124 | the boolean map marks exactly the given ports unavailable and holds only true entries |
| Allocation.MarkOne | pkg/manuscript_port.go:133 | setting one more entry to true marks one more port |
| Allocation.RoleAt | pkg/manuscript_port.go:126-153 | the roles are examined at positions 0, 1, 2 in Flink, GraphQL, DB order |
| Allocation.WithPort | pkg/manuscript_port.go:132 | writing one role's port keeps the name and the other two ports |
| Allocation.AllocateStep | pkg/manuscript_port.go:126-153 | one allocation step: a set port is skipped, an exhausted range stops with the role's error, and a found port is written and marked before the next role |
| Allocation.AllocateRolesFrame | pkg/manuscript_port.go:127-152 | allocation keeps the name, every preset port and every earlier role; every port it changes lies in that role's range |
| Allocation.AllocateRolesSucceedsIff | pkg/manuscript_port.go:126-155 | allocation reports no error iff every role from the starting position ends with a non-zero port |
| Allocation.AllocateRolesLeastFree | pkg/manuscript_port.go:126-153 | each newly assigned port is the least port of its range outside the unavailable ports and the Flink and GraphQL picks made before it |
| Allocation.AllocateRolesFailure | pkg/manuscript_port.go:128-151 | a failure names the first role, in order, whose range is exhausted, with the range error; that role stays 0, earlier roles have ports and later roles are untouched |
| Allocation.AllocationGuarantees | pkg/manuscript_port.go:118-153 | every new port lies in its range and outside the unavailable ports, new Flink and GraphQL ports differ, and success means all three ports are non-zero |
| Allocation.ManuscriptRef.constructor | pkg/manuscript_port.go:100 | the reference holds the given manuscript |
| Allocation.MarkListening | pkg/manuscript_port.go:119-121 | the loop marks every listening port unavailable |
| Allocation.MarkReserved | pkg/manuscript_port.go:122-124 | the loop over the reserved ports, in any order, marks every reserved port unavailable |
| Allocation.CombineUnavailable | pkg/manuscript_port.go:117-124 | the combined map marks exactly the listening ports and the reserved ports unavailable |
| Allocation.InitializePorts | pkg/manuscript_port.go:100-156 | a validation error or a failed lookup is returned with the manuscript unchanged; otherwise the new manuscript and the result are those of the allocation avoiding the listening and reserved ports |
| Allocation.FreshManuscriptGetsRangeStarts | pkg/manuscript_port.go:100-156 | with no configuration and nothing listening, an empty manuscript gets 8081, 8082 and 15432 |
| Allocation.PresetPortIsNotAvoided | pkg/manuscript_port.go:127-143 | a preset Flink port of 8082 is not marked unavailable, so GraphQL also receives 8082 |

## Left out

- The listening-port lookup (`GetListeningPorts`, pkg/manuscript_port.go:158-217) runs `lsof` and `docker ps` and scrapes their output. It is an input of `InitializePorts`: a list of ports, or a failure with a reason. When `lsof` fails but `docker ps` succeeds, the tool prints a warning and goes on with the container ports; that case is simply one more list of ports here.
- The `fmt.Errorf` message texts are not modelled. Errors are modelled by kind and by the data they carry: port, names, role, range and wrapped cause.
- The role names `"Flink"`, `"GraphQL"` and `"DB"` of `PortReservation.PortType` are an enumeration rather than strings.
- Allocation.InitializePorts: the second build of the reservation index (pkg/manuscript_port.go:112-115) has an error branch that cannot be taken, because validation has just built the same index. The model proves this and does not model that branch.
- Allocation.FindAvailablePort: Go's `int` is 32 or 64 bits wide, depending on the platform, and the loop counter would wrap around at its maximum. Integers here are unbounded. This only matters for an end of range at that maximum, and the tool always passes small constant ranges.
- The command-line wiring in commands/commander.go and the deploy pipeline in commands/deploy_manuscript.go are not part of this model. Both are file, YAML and container I/O. The deploy command calls `InitializePorts` with one argument; the model follows the two-argument definition at pkg/manuscript_port.go:100.
- Concurrency is not modelled. Two deployments racing for the same free port are outside this model.
