/** The route endpoints: legs recorded inside a usage control, their
    permission checks through the parent control, and the two geocoding
    endpoints that store a reverse-geocoded address on one end of a leg.
    A handler that reads a field of a parent control that does not exist
    fails with an unhandled exception: that is `Err(ServerError)` here. */
module Routes {
  import opened Wrappers
  import opened Tables
  import opened Models
  import opened Schemas
  import opened Crud
  import opened CrudLemmas
  import opened Users
  import opened UsageControl

  /** `create_route`: the parent control must exist (404), belong to the
      caller (403, whatever the profile) and be open (400). */
  function CreateRouteOutcome(db: Db, caller: Row<Usuario>, rc: RotaCreate): Outcome<Result<Row<Rota>>>
  {
    match Get(db.controles, rc.controleUtilizacaoId)
    case None => Outcome(Err(NotFound), db)
    case Some(c) =>
      if c.val.motoristaId != caller.id then Outcome(Err(Forbidden), db)
      else if c.val.status != Aberto then Outcome(Err(BadRequest), db)
      else
        var o := CreateRotaOutcome(db, rc);
        Outcome(Ok(o.result), o.db)
  }

  /** `read_routes_by_control`: 404 for a missing control, 403 for a driver
      asking about someone else's control, otherwise exactly that control's legs. */
  function ReadRoutesByControl(db: Db, caller: Row<Usuario>, cid: int): (r: Result<Table<Rota>>)
    ensures r == Err(NotFound) <==> Get(db.controles, cid).None?
    ensures r == Err(Forbidden) <==>
      (Get(db.controles, cid).Some? && IsMotorista(caller) && Get(db.controles, cid).value.val.motoristaId != caller.id)
    ensures r.Ok? ==>
      (forall i :: 0 <= i < |r.value| ==> r.value[i] in db.rotas && r.value[i].val.controleUtilizacaoId == cid) &&
      (forall i :: 0 <= i < |db.rotas| && db.rotas[i].val.controleUtilizacaoId == cid ==> db.rotas[i] in r.value)
    ensures r.Ok? && Ascending(db.rotas) ==> Ascending(r.value)
    ensures (Get(db.controles, cid).Some? &&
             !(IsMotorista(caller) && Get(db.controles, cid).value.val.motoristaId != caller.id)) ==>
              r == Ok(GetRotasByControle(db, cid))
  {
    match Get(db.controles, cid)
    case None => Err(NotFound)
    case Some(c) =>
      if IsMotorista(caller) && c.val.motoristaId != caller.id then Err(Forbidden)
      else Ok(GetRotasByControle(db, cid))
  }

  /** `read_route`: 404 for a missing leg; a driver may read only a leg of
      their own control. The parent control is looked up only for a driver. */
  function ReadRoute(db: Db, caller: Row<Usuario>, id: int): (r: Result<Row<Rota>>)
    ensures r == Err(NotFound) <==> Get(db.rotas, id).None?
    ensures r.Ok? ==> Some(r.value) == Get(db.rotas, id)
    ensures Get(db.rotas, id).Some? && !IsMotorista(caller) ==> r.Ok?
    ensures r == Err(Forbidden) <==>
      (Get(db.rotas, id).Some? && IsMotorista(caller) &&
       var c := Get(db.controles, Get(db.rotas, id).value.val.controleUtilizacaoId);
       c.Some? && c.value.val.motoristaId != caller.id)
    ensures (Get(db.rotas, id).Some? && IsMotorista(caller) &&
             var c := Get(db.controles, Get(db.rotas, id).value.val.controleUtilizacaoId);
             c.Some? && c.value.val.motoristaId == caller.id) ==>
              r == Ok(Get(db.rotas, id).value)
    ensures r == Err(ServerError) <==>
      (Get(db.rotas, id).Some? && IsMotorista(caller) &&
       Get(db.controles, Get(db.rotas, id).value.val.controleUtilizacaoId).None?)
  {
    match Get(db.rotas, id)
    case None => Err(NotFound)
    case Some(rt) =>
      if !IsMotorista(caller) then Ok(rt)
      else match Get(db.controles, rt.val.controleUtilizacaoId)
        case None => Err(ServerError)
        case Some(c) => if c.val.motoristaId != caller.id then Err(Forbidden) else Ok(rt)
  }

  /** `update_route`: 404, then the parent control's driver only (403), then
      an open control only (400); then the partial update. */
  function UpdateRouteOutcome(db: Db, caller: Row<Usuario>, id: int, upd: RotaUpdate): Outcome<Result<Row<Rota>>>
  {
    match Get(db.rotas, id)
    case None => Outcome(Err(NotFound), db)
    case Some(rt) =>
      match Get(db.controles, rt.val.controleUtilizacaoId)
      case None => Outcome(Err(ServerError), db)
      case Some(c) =>
        if c.val.motoristaId != caller.id then Outcome(Err(Forbidden), db)
        else if c.val.status != Aberto then Outcome(Err(BadRequest), db)
        else
          var o := UpdateRotaOutcome(db, id, upd);
          match o.result
          case None => Outcome(Err(ServerError), o.db)
          case Some(row) => Outcome(Ok(row), o.db)
  }

  /** `delete_route`: 404; 403 unless admin or the control's driver; 400 for
      a closed control unless admin; then the delete, whose `false` is a 404.
      The parent control is dereferenced on every path past the 404. */
  function DeleteRouteOutcome(db: Db, caller: Row<Usuario>, id: int): Outcome<Result<()>>
  {
    match Get(db.rotas, id)
    case None => Outcome(Err(NotFound), db)
    case Some(rt) =>
      match Get(db.controles, rt.val.controleUtilizacaoId)
      case None => Outcome(Err(ServerError), db)
      case Some(c) =>
        if !IsAdmin(caller) && c.val.motoristaId != caller.id then Outcome(Err(Forbidden), db)
        else if c.val.status != Aberto && !IsAdmin(caller) then Outcome(Err(BadRequest), db)
        else
          var o := DeleteRotaOutcome(db, id);
          if !o.result then Outcome(Err(NotFound), o.db) else Outcome(Ok(()), o.db)
  }

  // ---------------------------------------------------------------------
  // Geocoding
  // ---------------------------------------------------------------------

  /** Which end of a leg a geocoding call fills in: `geocode-saida` or `geocode-chegada`. */
  datatype Leg = Departure | Arrival

  /** The body of a geocoding answer. */
  datatype GeocodeReply = GeocodeReply(latitude: real, longitude: real, address: Option<string>, error: Option<string>)

  const GeocodeFailure := "Não foi possível obter o endereço para as coordenadas fornecidas"

  /** The address is used only when it is truthy: present and non-empty. */
  predicate AddressFound(address: Option<string>)
  {
    address.Some? && address.value != ""
  }

  /** The update a successful geocoding call applies: the coordinates and the
      address of the chosen end, and nothing else. */
  function GeocodeUpdate(leg: Leg, lat: real, lon: real, addr: string): RotaUpdate
  {
    match leg
    case Departure => RotaUpdate(latitudeSaida := Set(Some(lat)), longitudeSaida := Set(Some(lon)), logradouroSaida := Set(Some(addr)))
    case Arrival => RotaUpdate(latitudeChegada := Set(Some(lat)), longitudeChegada := Set(Some(lon)), logradouroChegada := Set(Some(addr)))
  }

  /** `geocode_departure` / `geocode_arrival`: 404, then the parent control's
      driver only (403). The control's status is not checked. `address` is
      what the geocoding service answered for (`lat`, `lon`). */
  function GeocodeOutcome(db: Db, caller: Row<Usuario>, id: int, leg: Leg, lat: real, lon: real,
                          address: Option<string>): Outcome<Result<GeocodeReply>>
  {
    match Get(db.rotas, id)
    case None => Outcome(Err(NotFound), db)
    case Some(rt) =>
      match Get(db.controles, rt.val.controleUtilizacaoId)
      case None => Outcome(Err(ServerError), db)
      case Some(c) =>
        if c.val.motoristaId != caller.id then Outcome(Err(Forbidden), db)
        else if AddressFound(address) then
          var o := UpdateRotaOutcome(db, id, GeocodeUpdate(leg, lat, lon, address.value));
          Outcome(Ok(GeocodeReply(lat, lon, address, None)), o.db)
        else Outcome(Ok(GeocodeReply(lat, lon, None, Some(GeocodeFailure))), db)
  }

  // ---------------------------------------------------------------------
  // The handlers on the mutable store
  // ---------------------------------------------------------------------

  method CreateRoute(db: Store, caller: Row<Usuario>, rc: RotaCreate) returns (r: Result<Row<Rota>>)
    modifies db
    ensures Outcome(r, db.State()) == CreateRouteOutcome(old(db.State()), caller, rc)
  {
    var c := Get(db.controles, rc.controleUtilizacaoId);
    if c.None? {
      return Err(NotFound);
    }
    if c.value.val.motoristaId != caller.id {
      return Err(Forbidden);
    }
    if c.value.val.status != Aberto {
      return Err(BadRequest);
    }
    var row := Crud.CreateRota(db, rc);
    r := Ok(row);
  }

  method UpdateRoute(db: Store, caller: Row<Usuario>, id: int, upd: RotaUpdate) returns (r: Result<Row<Rota>>)
    modifies db
    ensures Outcome(r, db.State()) == UpdateRouteOutcome(old(db.State()), caller, id, upd)
  {
    var rt := Get(db.rotas, id);
    if rt.None? {
      return Err(NotFound);
    }
    var c := Get(db.controles, rt.value.val.controleUtilizacaoId);
    if c.None? {
      return Err(ServerError);
    }
    if c.value.val.motoristaId != caller.id {
      return Err(Forbidden);
    }
    if c.value.val.status != Aberto {
      return Err(BadRequest);
    }
    var u := Crud.UpdateRota(db, id, upd);
    r := if u.None? then Err(ServerError) else Ok(u.value);
  }

  method DeleteRoute(db: Store, caller: Row<Usuario>, id: int) returns (r: Result<()>)
    modifies db
    ensures Outcome(r, db.State()) == DeleteRouteOutcome(old(db.State()), caller, id)
  {
    var rt := Get(db.rotas, id);
    if rt.None? {
      return Err(NotFound);
    }
    var c := Get(db.controles, rt.value.val.controleUtilizacaoId);
    if c.None? {
      return Err(ServerError);
    }
    if !IsAdmin(caller) && c.value.val.motoristaId != caller.id {
      return Err(Forbidden);
    }
    if c.value.val.status != Aberto && !IsAdmin(caller) {
      return Err(BadRequest);
    }
    var success := Crud.DeleteRota(db, id);
    r := if !success then Err(NotFound) else Ok(());
  }

  method Geocode(db: Store, caller: Row<Usuario>, id: int, leg: Leg, lat: real, lon: real, address: Option<string>)
    returns (r: Result<GeocodeReply>)
    modifies db
    ensures Outcome(r, db.State()) == GeocodeOutcome(old(db.State()), caller, id, leg, lat, lon, address)
  {
    var rt := Get(db.rotas, id);
    if rt.None? {
      return Err(NotFound);
    }
    var c := Get(db.controles, rt.value.val.controleUtilizacaoId);
    if c.None? {
      return Err(ServerError);
    }
    if c.value.val.motoristaId != caller.id {
      return Err(Forbidden);
    }
    if AddressFound(address) {
      var _ := Crud.UpdateRota(db, id, GeocodeUpdate(leg, lat, lon, address.value));
      r := Ok(GeocodeReply(lat, lon, address, None));
    } else {
      r := Ok(GeocodeReply(lat, lon, None, Some(GeocodeFailure)));
    }
  }

  // ---------------------------------------------------------------------
  // Properties
  // ---------------------------------------------------------------------

  /** Every leg's parent control exists. Nothing deletes a control, and
      deleting a user or vehicle that a control references fails. */
  ghost predicate RotasHaveControl(db: Db)
  {
    forall i :: 0 <= i < |db.rotas| ==> Get(db.controles, db.rotas[i].val.controleUtilizacaoId).Some?
  }

  /** `create_route`: the refusals in order, each changing nothing; on success
      the leg holds the request and is appended, and nothing else changes. */
  lemma CreateRouteSpec(db: Db, caller: Row<Usuario>, rc: RotaCreate)
    ensures var o := CreateRouteOutcome(db, caller, rc);
      var c := Get(db.controles, rc.controleUtilizacaoId);
      && (c.None? ==> o == Outcome(Err(NotFound), db))
      && (c.Some? && c.value.val.motoristaId != caller.id ==> o == Outcome(Err(Forbidden), db))
      && (c.Some? && c.value.val.motoristaId == caller.id && c.value.val.status != Aberto ==>
            o == Outcome(Err(BadRequest), db))
      && (o.result.Ok? <==> c.Some? && c.value.val.motoristaId == caller.id && c.value.val.status == Aberto)
      && (o.result.Ok? ==>
            && o.result.value.val == NewRota(rc)
            && Get(db.rotas, o.result.value.id).None?
            && o.db == db.(rotas := db.rotas + [o.result.value]))
      && (Valid(db) ==> Valid(o.db))
      && (RotasHaveControl(db) ==> RotasHaveControl(o.db))
  {
    var o := CreateRouteOutcome(db, caller, rc);
    CreateRotaSpec(db, rc);
    if o.result.Ok? && RotasHaveControl(db) {
      var t := o.db.rotas;
      forall i | 0 <= i < |t|
        ensures Get(o.db.controles, t[i].val.controleUtilizacaoId).Some?
      {
        if i < |db.rotas| {
          assert t[i] == db.rotas[i];
        }
      }
    }
  }

  /** `update_route`: the refusals in order, each changing nothing; on success
      exactly the sent columns of that leg are written and the leg stays in
      its control. */
  lemma UpdateRouteSpec(db: Db, caller: Row<Usuario>, id: int, upd: RotaUpdate)
    ensures var o := UpdateRouteOutcome(db, caller, id, upd);
      && (Get(db.rotas, id).None? ==> o == Outcome(Err(NotFound), db))
      && (o.result.Err? ==> o.db == db)
      && (Get(db.rotas, id).Some? ==>
            var rt := Get(db.rotas, id).value;
            var c := Get(db.controles, rt.val.controleUtilizacaoId);
            && (c.None? ==> o.result == Err(ServerError))
            && (c.Some? && c.value.val.motoristaId != caller.id ==> o.result == Err(Forbidden))
            && (c.Some? && c.value.val.motoristaId == caller.id && c.value.val.status != Aberto ==>
                  o.result == Err(BadRequest))
            && (o.result.Ok? <==> c.Some? && c.value.val.motoristaId == caller.id && c.value.val.status == Aberto)
            && (o.result.Ok? ==>
                  && o.result.value == Row(id, PatchRota(rt.val, upd))
                  && o.result.value.val.controleUtilizacaoId == rt.val.controleUtilizacaoId
                  && o.db == db.(rotas := o.db.rotas)
                  && |o.db.rotas| == |db.rotas|
                  && (forall i :: 0 <= i < |db.rotas| && db.rotas[i].id != id ==> o.db.rotas[i] == db.rotas[i])
                  && (Valid(db) ==> Get(o.db.rotas, id) == Some(o.result.value))))
      && (Valid(db) ==> Valid(o.db))
  {
    UpdateRotaSpec(db, id, upd);
  }

  /** `delete_route`: the refusals in order, each changing nothing. An admin
      may delete any leg, even of a closed control; a driver only a leg of
      their own open control. On success that leg is gone and every other stays. */
  lemma DeleteRouteSpec(db: Db, caller: Row<Usuario>, id: int)
    ensures var o := DeleteRouteOutcome(db, caller, id);
      && (Get(db.rotas, id).None? ==> o == Outcome(Err(NotFound), db))
      && (o.result.Err? ==> o.db == db)
      && (Get(db.rotas, id).Some? ==>
            var c := Get(db.controles, Get(db.rotas, id).value.val.controleUtilizacaoId);
            && (c.None? ==> o.result == Err(ServerError))
            && (c.Some? && !IsAdmin(caller) && c.value.val.motoristaId != caller.id ==> o.result == Err(Forbidden))
            && (c.Some? && !IsAdmin(caller) && c.value.val.motoristaId == caller.id && c.value.val.status != Aberto ==>
                  o.result == Err(BadRequest))
            && (o.result.Ok? <==>
                  c.Some? && (IsAdmin(caller) || (c.value.val.motoristaId == caller.id && c.value.val.status == Aberto)))
            && (o.result.Ok? ==>
                  && o.db == db.(rotas := o.db.rotas)
                  && |o.db.rotas| == |db.rotas| - 1
                  && (forall i :: 0 <= i < |db.rotas| && db.rotas[i].id != id ==> db.rotas[i] in o.db.rotas)
                  && (Valid(db) ==> Get(o.db.rotas, id).None?)))
      && (Valid(db) ==> Valid(o.db))
      && (RotasHaveControl(db) ==> RotasHaveControl(o.db))
  {
    var o := DeleteRouteOutcome(db, caller, id);
    DeleteRotaSpec(db, id);
    if o.result.Ok? && RotasHaveControl(db) {
      var t := o.db.rotas;
      forall i | 0 <= i < |t|
        ensures Get(o.db.controles, t[i].val.controleUtilizacaoId).Some?
      {
        var j :| 0 <= j < |db.rotas| && db.rotas[j] == t[i];
        assert Get(db.controles, db.rotas[j].val.controleUtilizacaoId).Some?;
      }
    }
  }

  /** The geocoding endpoints: 404, then the control's driver only (403, an
      admin included), whatever the control's status. When the service has an
      address the chosen end of that leg gets the coordinates and the address
      and no other column of any row changes; otherwise nothing changes and
      the reply carries the error text. */
  lemma GeocodeSpec(db: Db, caller: Row<Usuario>, id: int, leg: Leg, lat: real, lon: real, address: Option<string>)
    requires Valid(db)
    ensures var o := GeocodeOutcome(db, caller, id, leg, lat, lon, address);
      && (Get(db.rotas, id).None? ==> o == Outcome(Err(NotFound), db))
      && (o.result.Err? ==> o.db == db)
      && (Get(db.rotas, id).Some? ==>
            var rt := Get(db.rotas, id).value;
            var c := Get(db.controles, rt.val.controleUtilizacaoId);
            && (c.None? ==> o.result == Err(ServerError))
            && (c.Some? && c.value.val.motoristaId != caller.id ==> o.result == Err(Forbidden))
            && (o.result.Ok? <==> c.Some? && c.value.val.motoristaId == caller.id)
            && (o.result.Ok? && !AddressFound(address) ==>
                  o.result.value == GeocodeReply(lat, lon, None, Some(GeocodeFailure)) && o.db == db)
            && (o.result.Ok? && AddressFound(address) ==>
                  && o.result.value == GeocodeReply(lat, lon, address, None)
                  && o.db == db.(rotas := o.db.rotas)
                  && |o.db.rotas| == |db.rotas|
                  && (forall i :: 0 <= i < |db.rotas| && db.rotas[i].id != id ==> o.db.rotas[i] == db.rotas[i])
                  && Get(o.db.rotas, id) == Some(Row(id,
                       match leg
                       case Departure =>
                         rt.val.(latitudeSaida := Some(lat), longitudeSaida := Some(lon), logradouroSaida := address)
                       case Arrival =>
                         rt.val.(latitudeChegada := Some(lat), longitudeChegada := Some(lon), logradouroChegada := address)))))
      && Valid(o.db)
      && (RotasHaveControl(db) ==> RotasHaveControl(o.db))
  {
    var o := GeocodeOutcome(db, caller, id, leg, lat, lon, address);
    if AddressFound(address) {
      UpdateRotaSpec(db, id, GeocodeUpdate(leg, lat, lon, address.value));
      if o.result.Ok? && RotasHaveControl(db) {
        var k := Find(db.rotas, id).value;
        var t := o.db.rotas;
        forall i | 0 <= i < |t|
          ensures Get(o.db.controles, t[i].val.controleUtilizacaoId).Some?
        {
          if i != k {
            assert t[i] == db.rotas[i];
          }
        }
      }
    }
  }

  /** While every leg has its control, no route handler fails with a server error. */
  lemma NoServerErrorWithIntegrity(db: Db, caller: Row<Usuario>, id: int, upd: RotaUpdate,
                                   leg: Leg, lat: real, lon: real, address: Option<string>)
    requires RotasHaveControl(db)
    ensures ReadRoute(db, caller, id) != Err(ServerError)
    ensures UpdateRouteOutcome(db, caller, id, upd).result != Err(ServerError)
    ensures DeleteRouteOutcome(db, caller, id).result != Err(ServerError)
    ensures GeocodeOutcome(db, caller, id, leg, lat, lon, address).result != Err(ServerError)
  {
    if Get(db.rotas, id).Some? {
      var k := Find(db.rotas, id).value;
      assert db.rotas[k] == Get(db.rotas, id).value;
    }
  }

  /** Without that integrity, a driver reading a leg whose control is gone
      gets a server error, while any other profile gets the leg. */
  lemma OrphanRouteRead(db: Db, caller: Row<Usuario>, id: int)
    requires Get(db.rotas, id).Some? && Get(db.controles, Get(db.rotas, id).value.val.controleUtilizacaoId).None?
    ensures ReadRoute(db, caller, id) == (if IsMotorista(caller) then Err(ServerError) else Ok(Get(db.rotas, id).value))
  {
  }
}
