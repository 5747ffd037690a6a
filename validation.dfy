/**
 * Validation of a candidate manuscript's explicitly set ports against the
 * reservation index of the configured manuscripts.  A port reserved under
 * the candidate's own name is the redeploy case and is accepted.
 */
module Validation {
  import opened PortModel
  import opened Reservation

  /** The port `ms` sets for role `t` is reserved under a name other than that of `ms`. */
  predicate ForeignReservation(reserved: map<int, PortReservation>, ms: Manuscript, t: PortType)
  {
    PortOf(ms, t) != 0 && PortOf(ms, t) in reserved && reserved[PortOf(ms, t)].manuscriptName != ms.name
  }

  /** The error reported for a foreign reservation on the port of role `t`: the port, its holder and the holder's role. */
  function Rejection(reserved: map<int, PortReservation>, ms: Manuscript, t: PortType): PortError
    requires ForeignReservation(reserved, ms, t)
  {
    var holder := reserved[PortOf(ms, t)];
    AlreadyReserved(PortOf(ms, t), holder.manuscriptName, holder.portType)
  }

  /**
   * Checks the candidate's Flink, GraphQL and DB ports, in that order, against
   * the reservation index of `config`; reports a failure to build the index,
   * or the first port held under another manuscript's name.
   */
  function ValidatePortAssignments(ms: Manuscript, config: Option<Config>): (r: Option<PortError>)
    ensures ReservationIndex(config).Err? ==> r == Some(ReservedPortsCheckFailed(ReservationIndex(config).error))
    ensures ReservationIndex(config).Ok? ==>
              (r.None? <==> forall t :: !ForeignReservation(ReservationIndex(config).value, ms, t))
    ensures ReservationIndex(config).Ok? && r.Some? ==>
              exists t ::
                && ForeignReservation(ReservationIndex(config).value, ms, t)
                && r.value == Rejection(ReservationIndex(config).value, ms, t)
                && forall u :: Rank(u) < Rank(t) ==> !ForeignReservation(ReservationIndex(config).value, ms, u)
  {
    match ReservationIndex(config)
    case Err(e) => Some(ReservedPortsCheckFailed(e))
    case Ok(reserved) =>
      if ForeignReservation(reserved, ms, Flink) then Some(Rejection(reserved, ms, Flink))
      else if ForeignReservation(reserved, ms, GraphQL) then Some(Rejection(reserved, ms, GraphQL))
      else if ForeignReservation(reserved, ms, DB) then Some(Rejection(reserved, ms, DB))
      else None
  }

  /** `p` is one of the ports `ms` sets. */
  ghost predicate UsesPort(ms: Manuscript, p: int)
  {
    p != 0 && exists t :: PortOf(ms, t) == p
  }

  /**
   * Validation passes exactly when no port is claimed twice in the
   * configuration and every configured claim on a port the candidate sets
   * was made under the candidate's name.
   */
  lemma ValidateIff(ms: Manuscript, config: Option<Config>)
    ensures ValidatePortAssignments(ms, config).None?
        <==> && DistinctPorts(AllClaims(config))
             && forall c :: c in AllClaims(config) && UsesPort(ms, c.port) ==> c.manuscriptName == ms.name
  {
    var claims := AllClaims(config);
    ReservationIndexCorrect(config);
    if ReservationIndex(config).Ok? {
      var index := ReservationIndex(config).value;
      assert Indexes(index, claims);
      if ValidatePortAssignments(ms, config).None? {
        forall c | c in claims && UsesPort(ms, c.port)
          ensures c.manuscriptName == ms.name
        {
          var t :| PortOf(ms, t) == c.port;
          assert !ForeignReservation(index, ms, t);
        }
      }
      if forall c :: c in claims && UsesPort(ms, c.port) ==> c.manuscriptName == ms.name {
        forall t
          ensures !ForeignReservation(index, ms, t)
        {
          var p := PortOf(ms, t);
          if p != 0 && p in index {
            var c :| c in claims && c.port == p;
            assert UsesPort(ms, c.port);
          }
        }
      }
    }
  }

  /**
   * Redeploying a manuscript that is itself part of a conflict-free
   * configuration always validates: each of its ports is reserved under its
   * own name.
   */
  lemma RedeployValidates(ms: Manuscript, manuscripts: seq<Manuscript>)
    requires ms in manuscripts
    requires ReservationIndex(Some(Config(manuscripts))).Ok?
    ensures ValidatePortAssignments(ms, Some(Config(manuscripts))).None?
  {
    var config := Some(Config(manuscripts));
    var index := ReservationIndex(config).value;
    ReservationIndexCorrect(config);
    var k :| 0 <= k < |manuscripts| && manuscripts[k] == ms;
    forall t
      ensures !ForeignReservation(index, ms, t)
    {
      if PortOf(ms, t) != 0 {
        FieldPosition(manuscripts, k, t);
        var i :| 0 <= i < |Claims(manuscripts)|
                 && Claims(manuscripts)[i] == PortReservation(PortOf(ms, t), ms.name, t);
        assert Claims(manuscripts)[i] in AllClaims(config);
      }
    }
  }

  /**
   * A candidate that presets its Flink port to 8081 while another manuscript
   * holds 8081 as its GraphQL port is rejected, naming that manuscript and
   * the GraphQL role.
   */
  lemma PresetPortHeldElsewhereRejected()
    ensures ValidatePortAssignments(Manuscript("orders", 8081, 0, 0), Some(Config([Manuscript("payments", 0, 8081, 0)])))
         == Some(AlreadyReserved(8081, "payments", GraphQL))
  {
  }
}
