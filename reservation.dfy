/**
 * The reservation index: every non-zero port of every configured manuscript,
 * mapped to the manuscript that claims it and the role it plays there.  A
 * port claimed twice is a configuration error that aborts the scan.
 */
module Reservation {
  import opened PortModel

  /** The claim `ms` makes in role `t`: one reservation if that port is set, none if it is 0. */
  function RoleClaim(ms: Manuscript, t: PortType): seq<PortReservation>
  {
    if PortOf(ms, t) != 0 then [PortReservation(PortOf(ms, t), ms.name, t)] else []
  }

  /** `c` records a set port of `ms`, under the name of `ms` and the role that port plays. */
  ghost predicate ClaimedBy(ms: Manuscript, c: PortReservation)
  {
    c.port != 0 && c.port == PortOf(ms, c.portType) && c.manuscriptName == ms.name
  }

  /** The claims of one manuscript, in the order the scan examines them: Flink, GraphQL, DB. */
  function ClaimsOf(ms: Manuscript): (r: seq<PortReservation>)
    ensures forall c :: c in r <==> ClaimedBy(ms, c)
    ensures forall i, j :: 0 <= i < j < |r| ==> Rank(r[i].portType) < Rank(r[j].portType)
  {
    RoleClaim(ms, Flink) + RoleClaim(ms, GraphQL) + RoleClaim(ms, DB)
  }

  /** The claims of all manuscripts, manuscript by manuscript. */
  function Claims(manuscripts: seq<Manuscript>): seq<PortReservation>
  {
    if manuscripts == [] then [] else ClaimsOf(manuscripts[0]) + Claims(manuscripts[1..])
  }

  /** The claims of a configuration; a nil configuration claims nothing. */
  function AllClaims(config: Option<Config>): seq<PortReservation>
  {
    match config
    case None => []
    case Some(cfg) => Claims(cfg.manuscripts)
  }

  /**
   * The scan as a fold over the pending claims: each claim is checked against
   * the index built so far, and the first claim on a port already present
   * aborts with a conflict naming the earlier claimant and its role.
   */
  function Reserve(reserved: map<int, PortReservation>, pending: seq<PortReservation>): Result<map<int, PortReservation>>
    decreases |pending|
  {
    if pending == [] then Ok(reserved)
    else
      var c := pending[0];
      if c.port in reserved then
        Err(PortConflict(c.port, reserved[c.port].manuscriptName, c.manuscriptName, reserved[c.port].portType))
      else
        Reserve(reserved[c.port := c], pending[1..])
  }

  /** What FindReservedPorts computes for `config`. */
  function ReservationIndex(config: Option<Config>): Result<map<int, PortReservation>>
  {
    Reserve(map[], AllClaims(config))
  }

  /** No port is claimed twice. */
  ghost predicate DistinctPorts(claims: seq<PortReservation>)
  {
    forall i, j :: 0 <= i < j < |claims| ==> claims[i].port != claims[j].port
  }

  /** `index` maps exactly the ports of the pairwise distinct `claims`, each to its claim. */
  ghost predicate Indexes(index: map<int, PortReservation>, claims: seq<PortReservation>)
  {
    && DistinctPorts(claims)
    && index.Keys == (set c | c in claims :: c.port)
    && forall c :: c in claims ==> c.port in index && index[c.port] == c
  }

  /**
   * `e` reports the first repeated claim of `claims`: claim `j` is the first
   * whose port was claimed before, by claim `i`, and `e` names the port, the
   * earlier claimant, the later claimant and the earlier claimant's role.
   */
  ghost predicate FirstConflictIs(claims: seq<PortReservation>, e: PortError)
  {
    exists i, j ::
      && 0 <= i < j < |claims|
      && claims[i].port == claims[j].port
      && DistinctPorts(claims[..j])
      && e == PortConflict(claims[j].port, claims[i].manuscriptName, claims[j].manuscriptName, claims[i].portType)
  }

  /**
   * Scanning `pending` on top of an index of the distinct claims `done`
   * succeeds exactly when `done + pending` is free of repeats, yields the
   * index of all of them, and otherwise reports the first repeat.
   */
  lemma {:induction false} ReserveCorrect(index: map<int, PortReservation>, done: seq<PortReservation>, pending: seq<PortReservation>)
    requires Indexes(index, done)
    ensures Reserve(index, pending).Ok? <==> DistinctPorts(done + pending)
    ensures Reserve(index, pending).Ok? ==> Indexes(Reserve(index, pending).value, done + pending)
    ensures Reserve(index, pending).Err? ==> FirstConflictIs(done + pending, Reserve(index, pending).error)
    decreases |pending|
  {
    var all := done + pending;
    if pending == [] {
      assert all == done;
    } else {
      var c := pending[0];
      assert all[|done|] == c;
      assert all[..|done|] == done;
      if c.port in index {
        var d :| d in done && d.port == c.port;
        var i :| 0 <= i < |done| && done[i] == d;
        assert all[i] == d && index[c.port] == d;
        assert !DistinctPorts(all) by {
          assert all[i].port == all[|done|].port;
        }
        assert FirstConflictIs(all, Reserve(index, pending).error) by {
          assert 0 <= i < |done| < |all| && all[i].port == all[|done|].port && DistinctPorts(all[..|done|]);
        }
      } else {
        var done' := done + [c];
        var index' := index[c.port := c];
        assert DistinctPorts(done') by {
          forall i, j | 0 <= i < j < |done'|
            ensures done'[i].port != done'[j].port
          {
            if j == |done| {
              assert done[i] in done;
            } else {
              assert done'[i] == done[i] && done'[j] == done[j];
            }
          }
        }
        assert Indexes(index', done');
        ReserveCorrect(index', done', pending[1..]);
        assert done' + pending[1..] == all;
      }
    }
  }

  /**
   * The reservation index of a configuration exists exactly when no port is
   * claimed twice; it then maps every claimed port to its claim, and otherwise
   * the error reports the first repeated claim.
   */
  lemma ReservationIndexCorrect(config: Option<Config>)
    ensures ReservationIndex(config).Ok? <==> DistinctPorts(AllClaims(config))
    ensures ReservationIndex(config).Ok? ==> Indexes(ReservationIndex(config).value, AllClaims(config))
    ensures ReservationIndex(config).Err? ==> FirstConflictIs(AllClaims(config), ReservationIndex(config).error)
  {
    ReserveCorrect(map[], [], AllClaims(config));
    assert [] + AllClaims(config) == AllClaims(config);
  }

  /** A nil configuration reserves nothing and never fails. */
  lemma NilConfigReservesNothing()
    ensures ReservationIndex(None) == Ok(map[])
  {
  }

  /** Position of the manuscript whose claim sits at position `i` of Claims(manuscripts). */
  ghost function Owner(manuscripts: seq<Manuscript>, i: nat): (k: nat)
    requires i < |Claims(manuscripts)|
    ensures k < |manuscripts| && ClaimedBy(manuscripts[k], Claims(manuscripts)[i])
    decreases |manuscripts|
  {
    var n := |ClaimsOf(manuscripts[0])|;
    if i < n then
      assert Claims(manuscripts)[i] == ClaimsOf(manuscripts[0])[i];
      0
    else
      assert Claims(manuscripts)[i] == Claims(manuscripts[1..])[i - n];
      1 + Owner(manuscripts[1..], i - n)
  }

  /** Two claims of the same manuscript at different positions are for different roles. */
  lemma {:induction false} SameOwnerDistinctRoles(manuscripts: seq<Manuscript>, i: nat, j: nat)
    requires i < j < |Claims(manuscripts)| && Owner(manuscripts, i) == Owner(manuscripts, j)
    ensures Claims(manuscripts)[i].portType != Claims(manuscripts)[j].portType
    decreases |manuscripts|
  {
    var n := |ClaimsOf(manuscripts[0])|;
    if j < n {
      assert Claims(manuscripts)[i] == ClaimsOf(manuscripts[0])[i];
      assert Claims(manuscripts)[j] == ClaimsOf(manuscripts[0])[j];
    } else if i >= n {
      SameOwnerDistinctRoles(manuscripts[1..], i - n, j - n);
      assert Claims(manuscripts)[i] == Claims(manuscripts[1..])[i - n];
      assert Claims(manuscripts)[j] == Claims(manuscripts[1..])[j - n];
    }
  }

  /** Position `i` of the first manuscript's claims, seen in the claims of all manuscripts. */
  lemma HeadPosition(manuscripts: seq<Manuscript>, i: nat)
    requires manuscripts != [] && i < |ClaimsOf(manuscripts[0])|
    ensures i < |Claims(manuscripts)| && Claims(manuscripts)[i] == ClaimsOf(manuscripts[0])[i]
    ensures Owner(manuscripts, i) == 0
  {
  }

  /** Position `i` of the later manuscripts' claims, seen in the claims of all manuscripts. */
  lemma TailPosition(manuscripts: seq<Manuscript>, i: nat)
    requires manuscripts != [] && i < |Claims(manuscripts[1..])|
    ensures var n := |ClaimsOf(manuscripts[0])|;
      && n + i < |Claims(manuscripts)|
      && Claims(manuscripts)[n + i] == Claims(manuscripts[1..])[i]
      && Owner(manuscripts, n + i) == 1 + Owner(manuscripts[1..], i)
  {
  }

  /** Every set port of every manuscript has its claim somewhere in Claims(manuscripts), owned by that manuscript. */
  lemma {:induction false} FieldPosition(manuscripts: seq<Manuscript>, k: nat, t: PortType)
    requires k < |manuscripts| && PortOf(manuscripts[k], t) != 0
    ensures exists i :: 0 <= i < |Claims(manuscripts)| && Owner(manuscripts, i) == k
                        && Claims(manuscripts)[i] == PortReservation(PortOf(manuscripts[k], t), manuscripts[k].name, t)
    decreases |manuscripts|
  {
    var c := PortReservation(PortOf(manuscripts[k], t), manuscripts[k].name, t);
    if k == 0 {
      assert ClaimedBy(manuscripts[0], c);
      var i :| 0 <= i < |ClaimsOf(manuscripts[0])| && ClaimsOf(manuscripts[0])[i] == c;
      HeadPosition(manuscripts, i);
    } else {
      assert manuscripts[1..][k - 1] == manuscripts[k];
      FieldPosition(manuscripts[1..], k - 1, t);
      var i :| 0 <= i < |Claims(manuscripts[1..])| && Owner(manuscripts[1..], i) == k - 1
               && Claims(manuscripts[1..])[i] == c;
      TailPosition(manuscripts, i);
    }
  }

  /**
   * Field `t1` of manuscript `k1` and field `t2` of manuscript `k2` are two
   * different fields that hold the same non-zero port.
   */
  ghost predicate FieldsCollide(manuscripts: seq<Manuscript>, k1: int, t1: PortType, k2: int, t2: PortType)
  {
    && 0 <= k1 < |manuscripts| && 0 <= k2 < |manuscripts|
    && (k1 != k2 || t1 != t2)
    && PortOf(manuscripts[k1], t1) != 0
    && PortOf(manuscripts[k1], t1) == PortOf(manuscripts[k2], t2)
  }

  /**
   * Building the index fails exactly when two different port fields, of the
   * same manuscript or of two manuscripts, hold the same non-zero port.
   * Names play no part: a manuscript that uses one port for two roles
   * conflicts with itself.
   */
  lemma ReservationFailsIffCollision(manuscripts: seq<Manuscript>)
    ensures ReservationIndex(Some(Config(manuscripts))).Err?
        <==> exists k1, t1, k2, t2 :: FieldsCollide(manuscripts, k1, t1, k2, t2)
  {
    var config := Some(Config(manuscripts));
    var claims := Claims(manuscripts);
    ReservationIndexCorrect(config);
    if ReservationIndex(config).Err? {
      var i, j :| 0 <= i < j < |claims| && claims[i].port == claims[j].port;
      var k1, k2 := Owner(manuscripts, i), Owner(manuscripts, j);
      var t1, t2 := claims[i].portType, claims[j].portType;
      if k1 == k2 {
        SameOwnerDistinctRoles(manuscripts, i, j);
      }
      assert FieldsCollide(manuscripts, k1, t1, k2, t2);
    }
    if exists k1, t1, k2, t2 :: FieldsCollide(manuscripts, k1, t1, k2, t2) {
      var k1, t1, k2, t2 :| FieldsCollide(manuscripts, k1, t1, k2, t2);
      FieldPosition(manuscripts, k1, t1);
      FieldPosition(manuscripts, k2, t2);
      var i1 :| 0 <= i1 < |claims| && Owner(manuscripts, i1) == k1
                && claims[i1] == PortReservation(PortOf(manuscripts[k1], t1), manuscripts[k1].name, t1);
      var i2 :| 0 <= i2 < |claims| && Owner(manuscripts, i2) == k2
                && claims[i2] == PortReservation(PortOf(manuscripts[k2], t2), manuscripts[k2].name, t2);
      assert i1 != i2;
      assert !DistinctPorts(claims) by {
        if i1 < i2 {
          assert claims[i1].port == claims[i2].port;
        } else {
          assert claims[i2].port == claims[i1].port;
        }
      }
    }
  }

  /**
   * A successful index reserves exactly the non-zero port fields of the
   * configured manuscripts, never port 0, and records for each port the
   * name of a manuscript that holds it and the role it holds it in.
   */
  lemma ReservedPortsExact(manuscripts: seq<Manuscript>, index: map<int, PortReservation>)
    requires ReservationIndex(Some(Config(manuscripts))) == Ok(index)
    ensures 0 !in index
    ensures forall p :: p in index <==> p != 0 && exists k, t :: 0 <= k < |manuscripts| && PortOf(manuscripts[k], t) == p
    ensures forall p :: p in index ==> index[p].port == p
    ensures forall p :: p in index ==> exists k :: 0 <= k < |manuscripts| && ClaimedBy(manuscripts[k], index[p])
  {
    var claims := Claims(manuscripts);
    ReservationIndexCorrect(Some(Config(manuscripts)));
    assert Indexes(index, claims);
    forall p | p in index
      ensures p != 0 && index[p].port == p
      ensures exists k :: 0 <= k < |manuscripts| && ClaimedBy(manuscripts[k], index[p])
      ensures exists k, t :: 0 <= k < |manuscripts| && PortOf(manuscripts[k], t) == p
    {
      var c :| c in claims && c.port == p;
      var i :| 0 <= i < |claims| && claims[i] == c;
      var k := Owner(manuscripts, i);
      assert ClaimedBy(manuscripts[k], index[p]);
      assert PortOf(manuscripts[k], c.portType) == p;
    }
    forall p | p != 0 && exists k, t :: 0 <= k < |manuscripts| && PortOf(manuscripts[k], t) == p
      ensures p in index
    {
      var k, t :| 0 <= k < |manuscripts| && PortOf(manuscripts[k], t) == p;
      FieldPosition(manuscripts, k, t);
      var i :| 0 <= i < |claims| && claims[i] == PortReservation(p, manuscripts[k].name, t);
      assert claims[i] in claims;
    }
  }

  /** The claims from manuscript `i` on: those of manuscript `i`, role by role, then the rest. */
  lemma ClaimsFrom(manuscripts: seq<Manuscript>, i: nat)
    requires i < |manuscripts|
    ensures Claims(manuscripts[i..])
         == RoleClaim(manuscripts[i], Flink) + (RoleClaim(manuscripts[i], GraphQL)
            + (RoleClaim(manuscripts[i], DB) + Claims(manuscripts[i + 1..])))
  {
  }

  /** One check of the scan: the claim of `ms` in role `t`, if any, followed by `tail`. */
  lemma ReserveStep(reserved: map<int, PortReservation>, ms: Manuscript, t: PortType, tail: seq<PortReservation>)
    ensures PortOf(ms, t) == 0 ==> Reserve(reserved, RoleClaim(ms, t) + tail) == Reserve(reserved, tail)
    ensures PortOf(ms, t) != 0 && PortOf(ms, t) in reserved ==>
              Reserve(reserved, RoleClaim(ms, t) + tail)
              == Err(PortConflict(PortOf(ms, t), reserved[PortOf(ms, t)].manuscriptName, ms.name, reserved[PortOf(ms, t)].portType))
    ensures PortOf(ms, t) != 0 && PortOf(ms, t) !in reserved ==>
              Reserve(reserved, RoleClaim(ms, t) + tail)
              == Reserve(reserved[PortOf(ms, t) := PortReservation(PortOf(ms, t), ms.name, t)], tail)
  {
    if PortOf(ms, t) == 0 {
      assert RoleClaim(ms, t) + tail == tail;
    } else {
      assert (RoleClaim(ms, t) + tail)[1..] == tail;
    }
  }

  /**
   * Builds the reservation index by walking the manuscripts in order and
   * checking, for each, its Flink, GraphQL and DB ports; the first port
   * already in the index aborts the walk with a conflict and no index.
   */
  method FindReservedPorts(config: Option<Config>) returns (r: Result<map<int, PortReservation>>)
    ensures r == ReservationIndex(config)
    ensures config.None? ==> r == Ok(map[])
  {
    var reserved: map<int, PortReservation> := map[];
    if config.None? {
      return Ok(reserved);
    }
    var manuscripts := config.value.manuscripts;
    ghost var target := ReservationIndex(config);
    assert manuscripts[0..] == manuscripts;
    var i := 0;
    while i < |manuscripts|
      invariant 0 <= i <= |manuscripts|
      invariant Reserve(reserved, Claims(manuscripts[i..])) == target
    {
      var ms := manuscripts[i];
      ghost var rest := Claims(manuscripts[i + 1..]);
      ClaimsFrom(manuscripts, i);

      ReserveStep(reserved, ms, Flink, RoleClaim(ms, GraphQL) + (RoleClaim(ms, DB) + rest));
      if ms.port != 0 {
        if ms.port in reserved {
          var existing := reserved[ms.port];
          return Err(PortConflict(ms.port, existing.manuscriptName, ms.name, existing.portType));
        }
        reserved := reserved[ms.port := PortReservation(ms.port, ms.name, Flink)];
      }

      ReserveStep(reserved, ms, GraphQL, RoleClaim(ms, DB) + rest);
      if ms.graphQLPort != 0 {
        if ms.graphQLPort in reserved {
          var existing := reserved[ms.graphQLPort];
          return Err(PortConflict(ms.graphQLPort, existing.manuscriptName, ms.name, existing.portType));
        }
        reserved := reserved[ms.graphQLPort := PortReservation(ms.graphQLPort, ms.name, GraphQL)];
      }

      ReserveStep(reserved, ms, DB, rest);
      if ms.dbPort != 0 {
        if ms.dbPort in reserved {
          var existing := reserved[ms.dbPort];
          return Err(PortConflict(ms.dbPort, existing.manuscriptName, ms.name, existing.portType));
        }
        reserved := reserved[ms.dbPort := PortReservation(ms.dbPort, ms.name, DB)];
      }
      i := i + 1;
    }
    return Ok(reserved);
  }
}
