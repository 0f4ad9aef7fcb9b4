/** The vehicle endpoints: any authenticated user may read; only an admin may
    create, update or delete, and a create must not repeat a plate. */
module Vehicles {
  import opened Wrappers
  import opened Tables
  import opened Models
  import opened Schemas
  import opened Crud
  import opened CrudLemmas
  import opened Users

  /** `create_vehicle`: admin only, then a taken plate is refused. */
  function CreateVehicleOutcome(db: Db, caller: Row<Usuario>, v: VeiculoCreate): Outcome<Result<Row<Veiculo>>>
  {
    if !IsAdmin(caller) then Outcome(Err(Forbidden), db)
    else if GetVeiculoByPlaca(db, v.placa).Some? then Outcome(Err(BadRequest), db)
    else CreateVeiculoOutcome(db, v)
  }

  /** `read_vehicles`: a skip/limit page of all vehicles. */
  function ReadVehicles(db: Db, skip: nat, limit: nat): (r: Table<Veiculo>)
    ensures |r| == if skip >= |db.veiculos| then 0 else Min(limit, |db.veiculos| - skip)
    ensures forall i :: 0 <= i < |r| ==> skip + i < |db.veiculos| && r[i] == db.veiculos[skip + i]
  {
    Page(db.veiculos, skip, limit)
  }

  /** `read_available_vehicles`: exactly the vehicles whose status is "disponivel". */
  function ReadAvailableVehicles(db: Db): (r: Table<Veiculo>)
    ensures forall i :: 0 <= i < |r| ==> r[i] in db.veiculos && r[i].val.status == Disponivel
    ensures forall i :: 0 <= i < |db.veiculos| && db.veiculos[i].val.status == Disponivel ==> db.veiculos[i] in r
    ensures Ascending(db.veiculos) ==> Ascending(r)
  {
    GetVeiculosDisponiveis(db)
  }

  /** `read_vehicle`: 404 for a missing key. */
  function ReadVehicle(db: Db, id: int): (r: Result<Row<Veiculo>>)
    ensures r.Err? <==> Get(db.veiculos, id).None?
    ensures r.Err? ==> r.error == NotFound
    ensures r.Ok? ==> r.value in db.veiculos && r.value.id == id
  {
    match Get(db.veiculos, id)
    case None => Err(NotFound)
    case Some(v) => Ok(v)
  }

  /** `update_vehicle`: admin only, then 404 for a missing key. The plate is
      not checked here: a repeated one makes the commit fail (500). */
  function UpdateVehicleOutcome(db: Db, caller: Row<Usuario>, id: int, upd: VeiculoUpdate): Outcome<Result<Row<Veiculo>>>
  {
    if !IsAdmin(caller) then Outcome(Err(Forbidden), db)
    else
      var o := UpdateVeiculoOutcome(db, id, upd);
      match o.result
      case Err(e) => Outcome(Err(e), o.db)
      case Ok(None) => Outcome(Err(NotFound), o.db)
      case Ok(Some(row)) => Outcome(Ok(row), o.db)
  }

  /** `delete_vehicle`: admin only, then 404 for a missing key. */
  function DeleteVehicleOutcome(db: Db, caller: Row<Usuario>, id: int): Outcome<Result<()>>
  {
    if !IsAdmin(caller) then Outcome(Err(Forbidden), db)
    else
      var o := DeleteVeiculoOutcome(db, id);
      match o.result
      case Err(e) => Outcome(Err(e), o.db)
      case Ok(false) => Outcome(Err(NotFound), o.db)
      case Ok(true) => Outcome(Ok(()), o.db)
  }

  method CreateVehicle(db: Store, caller: Row<Usuario>, v: VeiculoCreate) returns (r: Result<Row<Veiculo>>)
    modifies db
    ensures Outcome(r, db.State()) == CreateVehicleOutcome(old(db.State()), caller, v)
  {
    if !IsAdmin(caller) {
      return Err(Forbidden);
    }
    if GetVeiculoByPlaca(db.State(), v.placa).Some? {
      return Err(BadRequest);
    }
    r := CreateVeiculo(db, v);
  }

  method UpdateVehicle(db: Store, caller: Row<Usuario>, id: int, upd: VeiculoUpdate) returns (r: Result<Row<Veiculo>>)
    modifies db
    ensures Outcome(r, db.State()) == UpdateVehicleOutcome(old(db.State()), caller, id, upd)
  {
    if !IsAdmin(caller) {
      return Err(Forbidden);
    }
    var u := UpdateVeiculo(db, id, upd);
    match u
    case Err(e) => r := Err(e);
    case Ok(None) => r := Err(NotFound);
    case Ok(Some(row)) => r := Ok(row);
  }

  method DeleteVehicle(db: Store, caller: Row<Usuario>, id: int) returns (r: Result<()>)
    modifies db
    ensures Outcome(r, db.State()) == DeleteVehicleOutcome(old(db.State()), caller, id)
  {
    if !IsAdmin(caller) {
      return Err(Forbidden);
    }
    var ok := DeleteVeiculo(db, id);
    match ok
    case Err(e) => r := Err(e);
    case Ok(false) => r := Err(NotFound);
    case Ok(true) => r := Ok(());
  }

  // ---------------------------------------------------------------------
  // Properties
  // ---------------------------------------------------------------------

  /** A non-admin can neither create, update nor delete a vehicle, and the
      store is left as it was. */
  lemma NonAdminCannotChangeVehicles(db: Db, caller: Row<Usuario>, v: VeiculoCreate, id: int, upd: VeiculoUpdate)
    requires !IsAdmin(caller)
    ensures CreateVehicleOutcome(db, caller, v) == Outcome(Err(Forbidden), db)
    ensures UpdateVehicleOutcome(db, caller, id, upd) == Outcome(Err(Forbidden), db)
    ensures DeleteVehicleOutcome(db, caller, id) == Outcome(Err(Forbidden), db)
  {
  }

  /** `create_vehicle` refuses a taken plate, otherwise stores the vehicle
      (never reaching a failing commit), and plates stay unique. */
  lemma CreateVehicleSpec(db: Db, caller: Row<Usuario>, v: VeiculoCreate)
    requires IsAdmin(caller)
    ensures var o := CreateVehicleOutcome(db, caller, v);
      && ((exists i :: 0 <= i < |db.veiculos| && db.veiculos[i].val.placa == v.placa) ==>
            o == Outcome(Err(BadRequest), db))
      && ((forall i :: 0 <= i < |db.veiculos| ==> db.veiculos[i].val.placa != v.placa) ==>
            && o.result.Ok?
            && o.result.value.val == NewVeiculo(v)
            && o.db == db.(veiculos := db.veiculos + [o.result.value]))
      && o.result != Err(ServerError)
      && (Valid(db) ==> Valid(o.db))
  {
    CreateVeiculoSpec(db, v);
  }

  /** `update_vehicle` by an admin: 404 for a missing key; the plate is not
      checked first, so one already held by another vehicle makes the commit
      fail (500) and changes nothing; otherwise the row gets exactly the sent
      columns and every other row stays. */
  lemma UpdateVehicleSpec(db: Db, caller: Row<Usuario>, id: int, upd: VeiculoUpdate)
    requires Valid(db) && IsAdmin(caller)
    ensures var o := UpdateVehicleOutcome(db, caller, id, upd);
      && (Get(db.veiculos, id).None? ==> o == Outcome(Err(NotFound), db))
      && (o.result.Err? ==> o.db == db)
      && (Get(db.veiculos, id).Some? ==>
            var x := PatchVeiculo(Get(db.veiculos, id).value.val, upd);
            && (o.result == Err(ServerError) <==>
                  exists j :: 0 <= j < |db.veiculos| && db.veiculos[j].id != id && db.veiculos[j].val.placa == x.placa)
            && (o.result.Ok? <==>
                  !exists j :: 0 <= j < |db.veiculos| && db.veiculos[j].id != id && db.veiculos[j].val.placa == x.placa)
            && (o.result.Ok? ==>
                  && o.result.value == Row(id, x)
                  && Get(o.db.veiculos, id) == Some(Row(id, x))
                  && (forall i :: 0 <= i < |db.veiculos| && db.veiculos[i].id != id ==> o.db.veiculos[i] == db.veiculos[i])
                  && o.db == db.(veiculos := o.db.veiculos)))
      && Valid(o.db)
  {
    UpdateVeiculoSpec(db, id, upd);
    match Find(db.veiculos, id)
    case None =>
    case Some(k) =>
      var t := db.veiculos;
      forall j | 0 <= j < |t|
        ensures j != k <==> t[j].id != id
      {
        if j < k {
          assert t[j].id < t[k].id;
        } else if j > k {
          assert t[k].id < t[j].id;
        }
      }
  }

  /** `update_vehicle` / `delete_vehicle` answer 404 for a missing key and
      change nothing. */
  lemma MissingVehicle(db: Db, caller: Row<Usuario>, id: int, upd: VeiculoUpdate)
    requires IsAdmin(caller) && Get(db.veiculos, id).None?
    ensures UpdateVehicleOutcome(db, caller, id, upd) == Outcome(Err(NotFound), db)
    ensures DeleteVehicleOutcome(db, caller, id) == Outcome(Err(NotFound), db)
  {
    UpdateVeiculoSpec(db, id, upd);
    DeleteVeiculoSpec(db, id);
  }

  /** An admin may set a vehicle's status to any string at all, whether or not
      a usage control is open on it; the usage controls are not consulted or
      touched. */
  lemma AdminSetsAnyVehicleStatus(db: Db, caller: Row<Usuario>, id: int, s: string)
    requires Valid(db) && IsAdmin(caller) && Get(db.veiculos, id).Some?
    ensures var o := UpdateVehicleOutcome(db, caller, id, VeiculoUpdate(status := Set(s)));
      && o.result == Ok(Row(id, Get(db.veiculos, id).value.val.(status := s)))
      && Get(o.db.veiculos, id) == Some(o.result.value)
      && o.db.controles == db.controles
      && Valid(o.db)
  {
    var upd := VeiculoUpdate(status := Set(s));
    var t := db.veiculos;
    var k := Find(t, id).value;
    var x := PatchVeiculo(t[k].val, upd);
    assert x == t[k].val.(status := s);
    forall j | 0 <= j < |t| && j != k
      ensures t[j].val.placa != x.placa
    {
      if j < k {
        assert t[j].val.placa != t[k].val.placa;
      } else {
        assert t[k].val.placa != t[j].val.placa;
      }
    }
    UpdateVeiculoSpec(db, id, upd);
  }

  /** `delete_vehicle` by an admin: 404 for a missing key, 500 (nothing
      deleted) for a vehicle some control refers to, otherwise the row is gone. */
  lemma DeleteVehicleSpec(db: Db, caller: Row<Usuario>, id: int)
    requires IsAdmin(caller)
    ensures var o := DeleteVehicleOutcome(db, caller, id);
      && (Get(db.veiculos, id).None? ==> o.result == Err(NotFound))
      && (Get(db.veiculos, id).Some? ==> (o.result == Err(ServerError) <==> VehicleReferenced(db, id)))
      && (Get(db.veiculos, id).Some? && !VehicleReferenced(db, id) ==> o.result == Ok(()))
      && (o.result.Err? ==> o.db == db)
      && (o.result.Ok? ==>
            && o.db == db.(veiculos := o.db.veiculos)
            && |o.db.veiculos| == |db.veiculos| - 1
            && (forall i :: 0 <= i < |o.db.veiculos| ==> o.db.veiculos[i] in db.veiculos)
            && (forall i :: 0 <= i < |db.veiculos| && db.veiculos[i].id != id ==> db.veiculos[i] in o.db.veiculos)
            && (Ascending(db.veiculos) ==> Get(o.db.veiculos, id).None?))
      && (Valid(db) ==> Valid(o.db))
  {
    DeleteVeiculoSpec(db, id);
  }
}
