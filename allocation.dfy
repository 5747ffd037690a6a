/**
 * First-fit port allocation: each role of a manuscript whose port is not set
 * gets the lowest port of the role's fixed range that is neither in use on
 * the host, nor reserved by a configured manuscript, nor already picked for
 * an earlier role of the same manuscript.
 */
module Allocation {
  import opened PortModel
  import opened Reservation
  import opened Validation

  /** First port of the inclusive range role `t` is allocated from. */
  function FirstPort(t: PortType): int
  {
    match t
    case Flink => 8081
    case GraphQL => 8082
    case DB => 15432
  }

  /** Last port of the inclusive range role `t` is allocated from. */
  function LastPort(t: PortType): int
  {
    match t
    case Flink => 8181
    case GraphQL => 8182
    case DB => 15532
  }

  /** Reading a boolean map as a set of forbidden ports: an absent port reads as false. */
  predicate Unavailable(unavailablePorts: map<int, bool>, port: int)
  {
    port in unavailablePorts && unavailablePorts[port]
  }

  /** `port` is the lowest port of [startPort, endPort] that is not unavailable. */
  ghost predicate IsLeastFree(startPort: int, endPort: int, unavailablePorts: map<int, bool>, port: int)
  {
    && startPort <= port <= endPort
    && !Unavailable(unavailablePorts, port)
    && forall p :: startPort <= p < port ==> Unavailable(unavailablePorts, p)
  }

  /** Every port of [startPort, endPort] is unavailable (vacuously so when the range is empty). */
  ghost predicate Exhausted(startPort: int, endPort: int, unavailablePorts: map<int, bool>)
  {
    forall p :: startPort <= p <= endPort ==> Unavailable(unavailablePorts, p)
  }

  /** The first port of [port, endPort] that is not unavailable, scanning upwards. */
  function FirstFreeFrom(port: int, endPort: int, unavailablePorts: map<int, bool>): Option<int>
    decreases endPort - port
  {
    if port > endPort then None
    else if !Unavailable(unavailablePorts, port) then Some(port)
    else FirstFreeFrom(port + 1, endPort, unavailablePorts)
  }

  /** What FindAvailablePort returns: the first free port, or an error naming the range. */
  function AvailablePort(startPort: int, endPort: int, unavailablePorts: map<int, bool>): Result<int>
  {
    match FirstFreeFrom(startPort, endPort, unavailablePorts)
    case Some(port) => Ok(port)
    case None => Err(NoAvailablePort(startPort, endPort))
  }

  /** The upward scan from `port` finds the least free port of [port, endPort], and finds none exactly when all are taken. */
  lemma {:induction false} FirstFreeFromCorrect(port: int, endPort: int, unavailablePorts: map<int, bool>)
    ensures FirstFreeFrom(port, endPort, unavailablePorts).Some? ==>
              IsLeastFree(port, endPort, unavailablePorts, FirstFreeFrom(port, endPort, unavailablePorts).value)
    ensures FirstFreeFrom(port, endPort, unavailablePorts).None? <==> Exhausted(port, endPort, unavailablePorts)
    decreases endPort - port
  {
    if port <= endPort && Unavailable(unavailablePorts, port) {
      FirstFreeFromCorrect(port + 1, endPort, unavailablePorts);
    }
  }

  /**
   * AvailablePort returns the lowest port of the inclusive range that is not
   * unavailable; it fails, naming the range, exactly when every port of the
   * range is unavailable, so always when the range is empty.
   */
  lemma AvailablePortCorrect(startPort: int, endPort: int, unavailablePorts: map<int, bool>)
    ensures AvailablePort(startPort, endPort, unavailablePorts).Ok? ==>
              IsLeastFree(startPort, endPort, unavailablePorts, AvailablePort(startPort, endPort, unavailablePorts).value)
    ensures AvailablePort(startPort, endPort, unavailablePorts).Err? <==> Exhausted(startPort, endPort, unavailablePorts)
    ensures AvailablePort(startPort, endPort, unavailablePorts).Err? ==>
              AvailablePort(startPort, endPort, unavailablePorts).error == NoAvailablePort(startPort, endPort)
    ensures startPort > endPort ==> AvailablePort(startPort, endPort, unavailablePorts).Err?
  {
    FirstFreeFromCorrect(startPort, endPort, unavailablePorts);
  }

  /**
   * Scans [startPort, endPort] upwards and returns the first port that is not
   * unavailable, or an error naming the range when there is none.
   */
  method FindAvailablePort(startPort: int, endPort: int, unavailablePorts: map<int, bool>) returns (r: Result<int>)
    ensures r == AvailablePort(startPort, endPort, unavailablePorts)
    ensures r.Ok? ==> IsLeastFree(startPort, endPort, unavailablePorts, r.value)
    ensures r.Err? <==> Exhausted(startPort, endPort, unavailablePorts)
  {
    AvailablePortCorrect(startPort, endPort, unavailablePorts);
    var port := startPort;
    while port <= endPort
      invariant startPort <= port
      invariant FirstFreeFrom(port, endPort, unavailablePorts) == FirstFreeFrom(startPort, endPort, unavailablePorts)
      decreases endPort - port
    {
      if !Unavailable(unavailablePorts, port) {
        return Ok(port);
      }
      port := port + 1;
    }
    return Err(NoAvailablePort(startPort, endPort));
  }

  /** The lowest free port of a range is unique, so FindAvailablePort's result is determined by its inputs. */
  lemma LeastFreeUnique(startPort: int, endPort: int, unavailablePorts: map<int, bool>, p: int, q: int)
    requires IsLeastFree(startPort, endPort, unavailablePorts, p)
    requires IsLeastFree(startPort, endPort, unavailablePorts, q)
    ensures p == q
  {
  }

  /**
   * When the forbidden ports are exactly [a, a + k), the allocator picks
   * a + k if that is still inside [a, b], and reports exhaustion otherwise.
   */
  lemma CoveredPrefix(a: int, b: int, k: nat, unavailablePorts: map<int, bool>)
    requires forall p :: Unavailable(unavailablePorts, p) <==> a <= p < a + k
    ensures a + k <= b ==> IsLeastFree(a, b, unavailablePorts, a + k)
    ensures a + k > b ==> Exhausted(a, b, unavailablePorts)
  {
  }

  /** The boolean map with `true` at exactly the ports of `ports`, as InitializePorts builds it. */
  function Marked(ports: set<int>): (u: map<int, bool>)
    ensures forall p :: Unavailable(u, p) <==> p in ports
    ensures forall p :: p in u ==> u[p]
  {
    map p | p in ports :: true
  }

  /** Marking one more port. */
  lemma MarkOne(ports: set<int>, port: int)
    ensures Marked(ports)[port := true] == Marked(ports + {port})
  {
  }

  /** The role examined at position `n` of the order Flink, GraphQL, DB. */
  function RoleAt(n: nat): (t: PortType)
    requires n < 3
    ensures Rank(t) == n
  {
    if n == 0 then Flink else if n == 1 then GraphQL else DB
  }

  /** `m` with the port of role `t` set to `p`, every other field as it was. */
  function WithPort(m: Manuscript, t: PortType, p: int): (r: Manuscript)
    ensures r.name == m.name && PortOf(r, t) == p
    ensures forall u :: u != t ==> PortOf(r, u) == PortOf(m, u)
  {
    match t
    case Flink => m.(port := p)
    case GraphQL => m.(graphQLPort := p)
    case DB => m.(dbPort := p)
  }

  /**
   * The allocation steps of InitializePorts from the role at position `n` on:
   * a role whose port is 0 gets AvailablePort of its range, avoiding the
   * ports of `unavailable`, and its pick is avoided by the roles after it; the
   * first exhausted range stops the allocation and reports the role, leaving
   * the manuscript as it stands.
   */
  function AllocateRoles(m: Manuscript, unavailable: set<int>, n: nat): (Manuscript, Option<PortError>)
    requires n <= 3
    decreases 3 - n
  {
    if n == 3 then (m, None)
    else
      var t := RoleAt(n);
      if PortOf(m, t) != 0 then AllocateRoles(m, unavailable, n + 1)
      else
        match AvailablePort(FirstPort(t), LastPort(t), Marked(unavailable))
        case Err(e) => (m, Some(AllocationFailed(t, e)))
        case Ok(p) => AllocateRoles(WithPort(m, t, p), unavailable + {p}, n + 1)
  }

  /** The port role `t` newly received between `before` and `after`, if it did. */
  function NewlyAssigned(before: Manuscript, after: Manuscript, t: PortType): set<int>
  {
    if PortOf(before, t) == 0 && PortOf(after, t) != 0 then {PortOf(after, t)} else {}
  }

  /**
   * The ports the allocation for role `t` avoids when allocation starts at
   * position `n` with `unavailable`: those, plus the ports newly picked for
   * the roles from position `n` up to `t`.  Only Flink and GraphQL are ever
   * examined before another role.
   */
  function AvoidedFor(unavailable: set<int>, before: Manuscript, after: Manuscript, n: nat, t: PortType): set<int>
  {
    unavailable
    + (if n <= Rank(Flink) < Rank(t) then NewlyAssigned(before, after, Flink) else {})
    + (if n <= Rank(GraphQL) < Rank(t) then NewlyAssigned(before, after, GraphQL) else {})
  }

  /** One step of the allocation: the role at position `n`, then the roles after it. */
  lemma AllocateStep(m: Manuscript, unavailable: set<int>, n: nat)
    requires n < 3
    ensures var t := RoleAt(n);
      var found := AvailablePort(FirstPort(t), LastPort(t), Marked(unavailable));
      AllocateRoles(m, unavailable, n)
      == if PortOf(m, t) != 0 then AllocateRoles(m, unavailable, n + 1)
         else if found.Err? then (m, Some(AllocationFailed(t, found.error)))
         else AllocateRoles(WithPort(m, t, found.value), unavailable + {found.value}, n + 1)
  {
  }

  /** Allocation keeps the name, the ports that were set, and the roles before position `n`. */
  lemma {:induction false} AllocateRolesFrame(m: Manuscript, unavailable: set<int>, n: nat)
    requires n <= 3
    ensures AllocateRoles(m, unavailable, n).0.name == m.name
    ensures forall t :: Rank(t) < n || PortOf(m, t) != 0 ==> PortOf(AllocateRoles(m, unavailable, n).0, t) == PortOf(m, t)
    ensures forall t :: PortOf(AllocateRoles(m, unavailable, n).0, t) != PortOf(m, t) ==>
              FirstPort(t) <= PortOf(AllocateRoles(m, unavailable, n).0, t) <= LastPort(t)
    decreases 3 - n
  {
    if n < 3 {
      var t := RoleAt(n);
      if PortOf(m, t) != 0 {
        AllocateRolesFrame(m, unavailable, n + 1);
      } else {
        AvailablePortCorrect(FirstPort(t), LastPort(t), Marked(unavailable));
        var r := AvailablePort(FirstPort(t), LastPort(t), Marked(unavailable));
        if r.Ok? {
          AllocateRolesFrame(WithPort(m, t, r.value), unavailable + {r.value}, n + 1);
        }
      }
    }
  }

  /** Allocation from position `n` succeeds exactly when every role from position `n` on ends up with a port. */
  lemma {:induction false} AllocateRolesSucceedsIff(m: Manuscript, unavailable: set<int>, n: nat)
    requires n <= 3
    ensures AllocateRoles(m, unavailable, n).1.None?
        <==> forall t :: Rank(t) >= n ==> PortOf(AllocateRoles(m, unavailable, n).0, t) != 0
    decreases 3 - n
  {
    if n < 3 {
      var t := RoleAt(n);
      if PortOf(m, t) != 0 {
        AllocateRolesSucceedsIff(m, unavailable, n + 1);
        AllocateRolesFrame(m, unavailable, n + 1);
      } else {
        AvailablePortCorrect(FirstPort(t), LastPort(t), Marked(unavailable));
        var r := AvailablePort(FirstPort(t), LastPort(t), Marked(unavailable));
        if r.Ok? {
          AllocateRolesSucceedsIff(WithPort(m, t, r.value), unavailable + {r.value}, n + 1);
          AllocateRolesFrame(WithPort(m, t, r.value), unavailable + {r.value}, n + 1);
        } else {
          assert PortOf(AllocateRoles(m, unavailable, n).0, t) == 0;
        }
      }
    }
  }

  /**
   * Every role from position `n` on that receives a port gets the lowest port
   * of its range outside `unavailable` and outside the ports just picked for
   * the roles before it.
   */
  lemma {:induction false} AllocateRolesLeastFree(m: Manuscript, unavailable: set<int>, n: nat)
    requires n <= 3
    ensures forall t :: Rank(t) >= n && PortOf(m, t) == 0 && PortOf(AllocateRoles(m, unavailable, n).0, t) != 0 ==>
              IsLeastFree(FirstPort(t), LastPort(t),
                          Marked(AvoidedFor(unavailable, m, AllocateRoles(m, unavailable, n).0, n, t)),
                          PortOf(AllocateRoles(m, unavailable, n).0, t))
    decreases 3 - n
  {
    if n < 3 {
      var t := RoleAt(n);
      var after := AllocateRoles(m, unavailable, n).0;
      if PortOf(m, t) != 0 {
        AllocateRolesLeastFree(m, unavailable, n + 1);
        forall u | Rank(u) >= n && PortOf(m, u) == 0
          ensures AvoidedFor(unavailable, m, after, n, u) == AvoidedFor(unavailable, m, after, n + 1, u)
        {
        }
      } else {
        AvailablePortCorrect(FirstPort(t), LastPort(t), Marked(unavailable));
        var r := AvailablePort(FirstPort(t), LastPort(t), Marked(unavailable));
        if r.Ok? {
          var p := r.value;
          var m1 := WithPort(m, t, p);
          AllocateRolesLeastFree(m1, unavailable + {p}, n + 1);
          AllocateRolesFrame(m1, unavailable + {p}, n + 1);
          assert PortOf(after, t) == p;
          assert AvoidedFor(unavailable, m, after, n, t) == unavailable;
          forall u | Rank(u) > n && PortOf(m, u) == 0
            ensures AvoidedFor(unavailable, m, after, n, u) == AvoidedFor(unavailable + {p}, m1, after, n + 1, u)
          {
            assert NewlyAssigned(m, after, t) == {p};
            assert t != DB;
            assert forall v :: v != t ==> NewlyAssigned(m, after, v) == NewlyAssigned(m1, after, v);
          }
        }
      }
    }
  }

  /**
   * Allocation from position `n` fails only on the first role, in order, whose
   * range holds no port it may use: that role keeps port 0, the roles before
   * it have ports, and the roles after it are untouched.
   */
  lemma {:induction false} AllocateRolesFailure(m: Manuscript, unavailable: set<int>, n: nat)
    requires n <= 3
    ensures var (after, err) := AllocateRoles(m, unavailable, n);
      err.Some? ==>
        && err.value.AllocationFailed?
        && var t := err.value.role;
        && Rank(t) >= n
        && err.value.cause == NoAvailablePort(FirstPort(t), LastPort(t))
        && PortOf(m, t) == 0 && PortOf(after, t) == 0
        && Exhausted(FirstPort(t), LastPort(t), Marked(AvoidedFor(unavailable, m, after, n, t)))
        && (forall u :: n <= Rank(u) < Rank(t) ==> PortOf(after, u) != 0)
        && (forall u :: Rank(t) < Rank(u) ==> PortOf(after, u) == PortOf(m, u))
    decreases 3 - n
  {
    if n < 3 {
      var t := RoleAt(n);
      var after := AllocateRoles(m, unavailable, n).0;
      if PortOf(m, t) != 0 {
        AllocateRolesFailure(m, unavailable, n + 1);
        AllocateRolesFrame(m, unavailable, n + 1);
        forall u | Rank(u) >= n
          ensures AvoidedFor(unavailable, m, after, n, u) == AvoidedFor(unavailable, m, after, n + 1, u)
        {
        }
      } else {
        AvailablePortCorrect(FirstPort(t), LastPort(t), Marked(unavailable));
        var r := AvailablePort(FirstPort(t), LastPort(t), Marked(unavailable));
        if r.Ok? {
          var p := r.value;
          var m1 := WithPort(m, t, p);
          AllocateRolesFailure(m1, unavailable + {p}, n + 1);
          AllocateRolesFrame(m1, unavailable + {p}, n + 1);
          assert PortOf(after, t) == p;
          forall u | Rank(u) > n
            ensures AvoidedFor(unavailable, m, after, n, u) == AvoidedFor(unavailable + {p}, m1, after, n + 1, u)
          {
            assert NewlyAssigned(m, after, t) == {p};
            assert forall v :: v != t ==> NewlyAssigned(m, after, v) == NewlyAssigned(m1, after, v);
          }
        } else {
          assert AvoidedFor(unavailable, m, after, n, t) == unavailable;
        }
      }
    }
  }

  /**
   * Every port the allocation hands out lies in its role's range and outside
   * `unavailable`; a Flink and a GraphQL port picked in the same run differ;
   * and a run without error leaves no role without a port.
   */
  lemma AllocationGuarantees(m: Manuscript, unavailable: set<int>)
    ensures var (after, err) := AllocateRoles(m, unavailable, 0);
      && (forall t :: PortOf(m, t) == 0 && PortOf(after, t) != 0 ==>
            FirstPort(t) <= PortOf(after, t) <= LastPort(t) && PortOf(after, t) !in unavailable)
      && (m.port == 0 && m.graphQLPort == 0 && after.port != 0 && after.graphQLPort != 0 ==>
            after.port != after.graphQLPort)
      && (err.None? <==> forall t :: PortOf(after, t) != 0)
  {
    var after := AllocateRoles(m, unavailable, 0).0;
    AllocateRolesLeastFree(m, unavailable, 0);
    AllocateRolesSucceedsIff(m, unavailable, 0);
    forall t | PortOf(m, t) == 0 && PortOf(after, t) != 0
      ensures PortOf(after, t) !in unavailable
    {
      assert !Unavailable(Marked(AvoidedFor(unavailable, m, after, 0, t)), PortOf(after, t));
    }
    if m.port == 0 && m.graphQLPort == 0 && after.port != 0 && after.graphQLPort != 0 {
      assert PortOf(m, GraphQL) == 0 && PortOf(after, GraphQL) != 0;
      assert after.port in AvoidedFor(unavailable, m, after, 0, GraphQL);
      assert !Unavailable(Marked(AvoidedFor(unavailable, m, after, 0, GraphQL)), after.graphQLPort);
    }
  }

  /** The ports in use on the host or by containers, when the lookup succeeded. */
  function ListeningSet(lookup: PortLookup): set<int>
  {
    match lookup
    case Listening(ports) => Elements(ports)
    case LookupFailed(_) => {}
  }

  /** The ports reserved by the configured manuscripts, when their index can be built. */
  function ReservedSet(config: Option<Config>): set<int>
  {
    match ReservationIndex(config)
    case Ok(index) => index.Keys
    case Err(_) => {}
  }

  /** The caller's manuscript, passed by pointer: InitializePorts fills in its port fields in place. */
  class ManuscriptRef {
    var value: Manuscript

    constructor (m: Manuscript)
      ensures value == m
    {
      value := m;
    }
  }

  /** The ports listed in `ports`. */
  function Elements(ports: seq<int>): set<int>
  {
    set p | p in ports
  }

  /** Listing one more port adds exactly that port. */
  lemma ElementsSnoc(ports: seq<int>, port: int)
    ensures Elements(ports + [port]) == Elements(ports) + {port}
  {
  }

  /** Marks every listening port unavailable, in list order, starting from `u`. */
  method MarkListening(listeningPorts: seq<int>, ghost marked: set<int>, u: map<int, bool>)
    returns (unavailablePorts: map<int, bool>)
    requires u == Marked(marked)
    ensures unavailablePorts == Marked(marked + Elements(listeningPorts))
  {
    unavailablePorts := u;
    for i := 0 to |listeningPorts|
      invariant unavailablePorts == Marked(marked + Elements(listeningPorts[..i]))
    {
      ghost var done := marked + Elements(listeningPorts[..i]);
      MarkOne(done, listeningPorts[i]);
      unavailablePorts := unavailablePorts[listeningPorts[i] := true];
      ElementsSnoc(listeningPorts[..i], listeningPorts[i]);
      assert listeningPorts[..i + 1] == listeningPorts[..i] + [listeningPorts[i]];
    }
    assert listeningPorts[..|listeningPorts|] == listeningPorts;
  }

  /** A non-empty set of ports has a member to pick. */
  lemma HasMember(ports: set<int>)
    requires ports != {}
    ensures exists port :: port in ports
  {
    if forall port :: port !in ports {
      assert false;
    }
  }

  /** Marks every reserved port unavailable, in no particular order, starting from `u`. */
  method MarkReserved(reservedPorts: map<int, PortReservation>, ghost marked: set<int>, u: map<int, bool>)
    returns (unavailablePorts: map<int, bool>)
    requires u == Marked(marked)
    ensures unavailablePorts == Marked(marked + reservedPorts.Keys)
  {
    unavailablePorts := u;
    var remaining := reservedPorts.Keys;
    ghost var done := marked;
    while remaining != {}
      invariant remaining <= reservedPorts.Keys
      invariant done == marked + (reservedPorts.Keys - remaining)
      invariant unavailablePorts == Marked(done)
      decreases |remaining|
    {
      HasMember(remaining);
      var port :| port in remaining;
      MarkOne(done, port);
      unavailablePorts := unavailablePorts[port := true];
      done := done + {port};
      remaining := remaining - {port};
    }
  }

  /**
   * The boolean map InitializePorts starts from: `true` at every listening
   * port and at every reserved port, absent elsewhere.
   */
  method CombineUnavailable(listeningPorts: seq<int>, reservedPorts: map<int, PortReservation>)
    returns (unavailablePorts: map<int, bool>)
    ensures unavailablePorts == Marked(Elements(listeningPorts) + reservedPorts.Keys)
  {
    assert Marked({}) == map[];
    unavailablePorts := MarkListening(listeningPorts, {}, map[]);
    assert {} + Elements(listeningPorts) == Elements(listeningPorts);
    unavailablePorts := MarkReserved(reservedPorts, Elements(listeningPorts), unavailablePorts);
  }

  /**
   * Validates the manuscript's preset ports, gathers every unavailable port
   * (in use on the host or by containers, or reserved by a configured
   * manuscript), then gives each role whose port is 0 the lowest free port of
   * its range, Flink, then GraphQL, then DB, marking the Flink and GraphQL
   * picks unavailable before the next role.  `lookup` stands for the host and
   * container port lookup.
   */
  method InitializePorts(ms: ManuscriptRef, config: Option<Config>, lookup: PortLookup) returns (err: Option<PortError>)
    modifies ms
    ensures ValidatePortAssignments(old(ms.value), config).Some? ==>
              err == ValidatePortAssignments(old(ms.value), config) && ms.value == old(ms.value)
    ensures ValidatePortAssignments(old(ms.value), config).None? && lookup.LookupFailed? ==>
              err == Some(ListeningPortsFailed(lookup.reason)) && ms.value == old(ms.value)
    ensures ValidatePortAssignments(old(ms.value), config).None? && lookup.Listening? ==>
              (ms.value, err) == AllocateRoles(old(ms.value), ListeningSet(lookup) + ReservedSet(config), 0)
  {
    ghost var before := ms.value;

    // First validate any existing port assignments.
    err := ValidatePortAssignments(ms.value, config);
    if err.Some? {
      return;
    }

    if lookup.LookupFailed? {
      return Some(ListeningPortsFailed(lookup.reason));
    }
    var listeningPorts := lookup.ports;

    // Validation has just built the same index, so this second build cannot fail.
    var reservation := FindReservedPorts(config);
    var reservedPorts := reservation.value;

    // Combine the listening and the reserved ports.
    var unavailablePorts := CombineUnavailable(listeningPorts, reservedPorts);
    ghost var marked := ListeningSet(lookup) + ReservedSet(config);
    ghost var target := AllocateRoles(before, marked, 0);

    // Initialize the Flink port if not set.
    AllocateStep(ms.value, marked, 0);
    if ms.value.port == 0 {
      var found := FindAvailablePort(8081, 8181, unavailablePorts);
      if found.Err? {
        return Some(AllocationFailed(Flink, found.error));
      }
      ms.value := ms.value.(port := found.value);
      MarkOne(marked, found.value);
      unavailablePorts := unavailablePorts[found.value := true];
      marked := marked + {found.value};
    }
    assert AllocateRoles(ms.value, marked, 1) == target;

    // Initialize the GraphQL port if not set.
    AllocateStep(ms.value, marked, 1);
    if ms.value.graphQLPort == 0 {
      var found := FindAvailablePort(8082, 8182, unavailablePorts);
      if found.Err? {
        return Some(AllocationFailed(GraphQL, found.error));
      }
      ms.value := ms.value.(graphQLPort := found.value);
      MarkOne(marked, found.value);
      unavailablePorts := unavailablePorts[found.value := true];
      marked := marked + {found.value};
    }
    assert AllocateRoles(ms.value, marked, 2) == target;

    // Initialize the DB port if not set.
    AllocateStep(ms.value, marked, 2);
    if ms.value.dbPort == 0 {
      var found := FindAvailablePort(15432, 15532, unavailablePorts);
      if found.Err? {
        return Some(AllocationFailed(DB, found.error));
      }
      ms.value := ms.value.(dbPort := found.value);
    }
    return None;
  }

  /**
   * With no configuration and nothing listening, a manuscript with no ports
   * set receives the first port of each range.
   */
  method FreshManuscriptGetsRangeStarts(name: string) returns (m: Manuscript, err: Option<PortError>)
    ensures err.None?
    ensures m == Manuscript(name, 8081, 8082, 15432)
  {
    var ms := new ManuscriptRef(Manuscript(name, 0, 0, 0));
    NilConfigReservesNothing();
    assert ListeningSet(Listening([])) + ReservedSet(None) == {};
    assert FirstFreeFrom(8081, 8181, Marked({})) == Some(8081);
    assert FirstFreeFrom(8082, 8182, Marked({8081})) == Some(8082);
    assert FirstFreeFrom(15432, 15532, Marked({8081, 8082})) == Some(15432);
    assert AllocateRoles(Manuscript(name, 8081, 8082, 15432), {8081, 8082, 15432}, 3)
        == (Manuscript(name, 8081, 8082, 15432), None);
    err := InitializePorts(ms, None, Listening([]));
    m := ms.value;
  }

  /**
   * A preset Flink port is not added to the unavailable ports, so a preset
   * Flink port of 8082 is handed out again as the GraphQL port.
   */
  method PresetPortIsNotAvoided(name: string) returns (m: Manuscript, err: Option<PortError>)
    ensures err.None?
    ensures m.port == 8082 && m.graphQLPort == 8082
  {
    var ms := new ManuscriptRef(Manuscript(name, 8082, 0, 0));
    NilConfigReservesNothing();
    assert ListeningSet(Listening([])) + ReservedSet(None) == {};
    assert FirstFreeFrom(8082, 8182, Marked({})) == Some(8082);
    assert FirstFreeFrom(15432, 15532, Marked({8082})) == Some(15432);
    err := InitializePorts(ms, None, Listening([]));
    m := ms.value;
  }
}
