/**
 * Shared vocabulary of the port reservation and allocation logic of the
 * manuscript tool: manuscripts (the deployable jobs), their three port roles,
 * reservation records and the error kinds the logic can report.
 */
module PortModel {

  datatype Option<T> = None | Some(value: T)

  /** Every fallible operation here reports one of the PortError kinds below. */
  datatype Result<T> = Ok(value: T) | Err(error: PortError)

  /** The three roles a manuscript's ports play, always examined in this order. */
  datatype PortType = Flink | GraphQL | DB

  /** Position of a role in the fixed examination order Flink, GraphQL, DB. */
  function Rank(t: PortType): nat
  {
    match t
    case Flink => 0
    case GraphQL => 1
    case DB => 2
  }

  /**
   * The fields of a manuscript that the port logic reads and writes.  A port
   * of 0 means "not set".
   */
  datatype Manuscript = Manuscript(name: string, port: int, graphQLPort: int, dbPort: int)

  /** The persisted list of previously configured manuscripts. */
  datatype Config = Config(manuscripts: seq<Manuscript>)

  /** The port field of `ms` that plays role `t`. */
  function PortOf(ms: Manuscript, t: PortType): int
  {
    match t
    case Flink => ms.port
    case GraphQL => ms.graphQLPort
    case DB => ms.dbPort
  }

  /** A port claimed by a manuscript in one role. */
  datatype PortReservation = PortReservation(port: int, manuscriptName: string, portType: PortType)

  datatype PortError =
      /** Two claims on one port while building the reservation index; names the first claimant and its role. */
    | PortConflict(port: int, existingOwner: string, newOwner: string, existingType: PortType)
      /** Building the reservation index failed during validation. */
    | ReservedPortsCheckFailed(cause: PortError)
      /** A port of the candidate is reserved by a manuscript with another name. */
    | AlreadyReserved(port: int, owner: string, ownerType: PortType)
      /** The listening-port lookup failed. */
    | ListeningPortsFailed(reason: string)
      /** Every port of the inclusive range is unavailable. */
    | NoAvailablePort(startPort: int, endPort: int)
      /** Allocation for one role failed. */
    | AllocationFailed(role: PortType, cause: PortError)

  /**
   * Outcome of asking the host and the container engine which ports are in
   * use: the ports found, or the reason the lookup failed.
   */
  datatype PortLookup = Listening(ports: seq<int>) | LookupFailed(reason: string)
}
