/** The usage-control endpoints: opening a control (a driver's checkout of a
    vehicle), the permission-filtered reads, finalizing and cancelling; and
    the lifecycle invariants that tie open controls to vehicle status. */
module UsageControl {
  import opened Wrappers
  import opened Tables
  import opened Models
  import opened Schemas
  import opened Crud
  import opened CrudLemmas
  import opened Users

  predicate IsMotorista(u: Row<Usuario>) { u.val.perfil == Motorista }

  /** `create_usage_control`: the vehicle must exist (404) and be "disponivel"
      (400), and the caller must have no open control (400). Any profile may
      open a control, and the request's own `status` is stored as sent. */
  function CreateUsageControlOutcome(db: Db, caller: Row<Usuario>, c: ControleCreate): Outcome<Result<Row<Controle>>>
  {
    match Get(db.veiculos, c.veiculoId)
    case None => Outcome(Err(NotFound), db)
    case Some(v) =>
      if v.val.status != Disponivel then Outcome(Err(BadRequest), db)
      else if GetControlesAbertos(db, Some(caller.id)) != [] then Outcome(Err(BadRequest), db)
      else
        var o := CreateControleOutcome(db, c, caller.id);
        Outcome(Ok(o.result), o.db)
  }

  /** `read_usage_controls`: a driver sees exactly their own controls (the
      page bounds are ignored); every other profile a skip/limit page of all. */
  function ReadUsageControls(db: Db, caller: Row<Usuario>, skip: nat, limit: nat): (r: Table<Controle>)
    ensures IsMotorista(caller) ==>
      (forall i :: 0 <= i < |r| ==> r[i] in db.controles && r[i].val.motoristaId == caller.id) &&
      (forall i :: 0 <= i < |db.controles| && db.controles[i].val.motoristaId == caller.id ==> db.controles[i] in r)
    ensures IsMotorista(caller) && Ascending(db.controles) ==> Ascending(r)
    ensures !IsMotorista(caller) ==>
      |r| == if skip >= |db.controles| then 0 else Min(limit, |db.controles| - skip)
    ensures !IsMotorista(caller) ==>
      forall i :: 0 <= i < |r| ==> skip + i < |db.controles| && r[i] == db.controles[skip + i]
  {
    if IsMotorista(caller) then GetControlesByMotorista(db, caller.id)
    else Page(db.controles, skip, limit)
  }

  /** `read_my_usage_controls`: exactly the caller's own controls, whatever the profile. */
  function ReadMyUsageControls(db: Db, caller: Row<Usuario>): (r: Table<Controle>)
    ensures forall i :: 0 <= i < |r| ==> r[i] in db.controles && r[i].val.motoristaId == caller.id
    ensures forall i :: 0 <= i < |db.controles| && db.controles[i].val.motoristaId == caller.id ==> db.controles[i] in r
    ensures Ascending(db.controles) ==> Ascending(r)
  {
    GetControlesByMotorista(db, caller.id)
  }

  /** `read_open_usage_controls` as written: a driver gets their own open
      controls; for every other profile the query filters on a null driver,
      which no row has, so the list is always empty. */
  function ReadOpenUsageControls(db: Db, caller: Row<Usuario>): (r: Table<Controle>)
    ensures IsMotorista(caller) ==>
      (forall i :: 0 <= i < |r| ==> r[i] in db.controles && r[i].val.motoristaId == caller.id && r[i].val.status == Aberto) &&
      (forall i :: (0 <= i < |db.controles| && db.controles[i].val.motoristaId == caller.id &&
         db.controles[i].val.status == Aberto) ==> db.controles[i] in r)
    ensures !IsMotorista(caller) ==> r == []
    ensures Ascending(db.controles) ==> Ascending(r)
  {
    if IsMotorista(caller) then GetControlesAbertos(db, Some(caller.id))
    else GetControlesAbertos(db, None)
  }

  /** The open list as the handler's comment describes it: admin, gestor and
      operador see every open control. */
  function ReadOpenUsageControlsIntended(db: Db, caller: Row<Usuario>): (r: Table<Controle>)
    ensures IsMotorista(caller) ==> r == ReadOpenUsageControls(db, caller)
    ensures !IsMotorista(caller) ==>
      (forall i :: 0 <= i < |r| ==> r[i] in db.controles && r[i].val.status == Aberto) &&
      (forall i :: 0 <= i < |db.controles| && db.controles[i].val.status == Aberto ==> db.controles[i] in r)
    ensures Ascending(db.controles) ==> Ascending(r)
  {
    if IsMotorista(caller) then GetControlesAbertos(db, Some(caller.id))
    else Filter(db.controles, (c: Row<Controle>) => c.val.status == Aberto)
  }

  /** `read_usage_control`: 404 for a missing key; a driver may read only
      their own control; other profiles may read any. */
  function ReadUsageControl(db: Db, caller: Row<Usuario>, id: int): (r: Result<Row<Controle>>)
    ensures r == Err(NotFound) <==> Get(db.controles, id).None?
    ensures r == Err(Forbidden) <==>
      Get(db.controles, id).Some? && IsMotorista(caller) && Get(db.controles, id).value.val.motoristaId != caller.id
    ensures r.Ok? ==> r.value in db.controles && r.value.id == id
    ensures Get(db.controles, id).Some? &&
            !(IsMotorista(caller) && Get(db.controles, id).value.val.motoristaId != caller.id) ==>
              r == Ok(Get(db.controles, id).value)
  {
    match Get(db.controles, id)
    case None => Err(NotFound)
    case Some(c) =>
      if IsMotorista(caller) && c.val.motoristaId != caller.id then Err(Forbidden) else Ok(c)
  }

  /** Python truth of `finalization_data.km_final`: not sent, null and 0.0 are all false. */
  predicate KmFinalGiven(f: Field<Option<real>>)
  {
    f.Set? && f.value.Some? && f.value.value != 0.0
  }

  /** Python truth of `finalization_data.data_fim`: not sent, null and "" are all false. */
  predicate DataFimGiven(f: Field<Option<string>>)
  {
    f.Set? && f.value.Some? && f.value.value != ""
  }

  /** The update `finalize_usage_control` hands to `update_controle`: the
      request with `data_fim` defaulted to `now` when falsy and `status`
      forced to "finalizado" (both assignments mark the field as sent). */
  function Finalization(fin: ControleUpdate, now: string): (upd: ControleUpdate)
    ensures upd.status == Set(Finalizado) && upd.kmFinal == fin.kmFinal
    ensures upd.assinaturaEletronica == fin.assinaturaEletronica
    ensures upd.dataFim == if DataFimGiven(fin.dataFim) then fin.dataFim else Set(Some(now))
  {
    var withDate := if DataFimGiven(fin.dataFim) then fin else fin.(dataFim := Set(Some(now)));
    withDate.(status := Set(Finalizado))
  }

  /** `finalize_usage_control`: 404 for a missing control; 403 unless the
      caller is its driver (an admin included); 400 unless it is open; 400
      when `km_final` is falsy; 400 unless `km_final` exceeds `km_inicial`.
      Then the control is updated, which releases its vehicle. */
  function FinalizeOutcome(db: Db, caller: Row<Usuario>, id: int, fin: ControleUpdate, now: string): Outcome<Result<Row<Controle>>>
  {
    match Get(db.controles, id)
    case None => Outcome(Err(NotFound), db)
    case Some(c) =>
      if c.val.motoristaId != caller.id then Outcome(Err(Forbidden), db)
      else if c.val.status != Aberto then Outcome(Err(BadRequest), db)
      else if !KmFinalGiven(fin.kmFinal) then Outcome(Err(BadRequest), db)
      else if fin.kmFinal.value.value <= c.val.kmInicial then Outcome(Err(BadRequest), db)
      else
        var o := UpdateControleOutcome(db, id, Finalization(fin, now));
        match o.result
        case None => Outcome(Err(ServerError), o.db)
        case Some(row) => Outcome(Ok(row), o.db)
  }

  /** The update `cancel_usage_control` sends: only the status. */
  const Cancellation := ControleUpdate(status := Set(Cancelado))

  /** `cancel_usage_control`: 404 for a missing control; 403 unless the caller
      is admin or its driver; 400 unless it is open; then only the status is
      set to "cancelado". The vehicle is NOT released. */
  function CancelOutcome(db: Db, caller: Row<Usuario>, id: int): Outcome<Result<()>>
  {
    match Get(db.controles, id)
    case None => Outcome(Err(NotFound), db)
    case Some(c) =>
      if !IsAdmin(caller) && c.val.motoristaId != caller.id then Outcome(Err(Forbidden), db)
      else if c.val.status != Aberto then Outcome(Err(BadRequest), db)
      else Outcome(Ok(()), UpdateControleOutcome(db, id, Cancellation).db)
  }

  /** Cancellation as the lifecycle intends it: the same guards, and the
      vehicle is released in the same commit. */
  function CancelReleasingOutcome(db: Db, caller: Row<Usuario>, id: int): Outcome<Result<()>>
  {
    match Get(db.controles, id)
    case None => Outcome(Err(NotFound), db)
    case Some(c) =>
      if !IsAdmin(caller) && c.val.motoristaId != caller.id then Outcome(Err(Forbidden), db)
      else if c.val.status != Aberto then Outcome(Err(BadRequest), db)
      else
        var after := UpdateControleOutcome(db, id, Cancellation).db;
        Outcome(Ok(()), after.(veiculos := WithVehicleStatus(after.veiculos, c.val.veiculoId, Disponivel)))
  }

  // ---------------------------------------------------------------------
  // The handlers on the mutable store
  // ---------------------------------------------------------------------

  method CreateUsageControl(db: Store, caller: Row<Usuario>, c: ControleCreate) returns (r: Result<Row<Controle>>)
    modifies db
    ensures Outcome(r, db.State()) == CreateUsageControlOutcome(old(db.State()), caller, c)
  {
    var v := Get(db.veiculos, c.veiculoId);
    if v.None? {
      return Err(NotFound);
    }
    if v.value.val.status != Disponivel {
      return Err(BadRequest);
    }
    if GetControlesAbertos(db.State(), Some(caller.id)) != [] {
      return Err(BadRequest);
    }
    var row := CreateControle(db, c, caller.id);
    r := Ok(row);
  }

  method FinalizeUsageControl(db: Store, caller: Row<Usuario>, id: int, fin: ControleUpdate, now: string)
    returns (r: Result<Row<Controle>>)
    modifies db
    ensures Outcome(r, db.State()) == FinalizeOutcome(old(db.State()), caller, id, fin, now)
  {
    var c := Get(db.controles, id);
    if c.None? {
      return Err(NotFound);
    }
    if c.value.val.motoristaId != caller.id {
      return Err(Forbidden);
    }
    if c.value.val.status != Aberto {
      return Err(BadRequest);
    }
    if !KmFinalGiven(fin.kmFinal) {
      return Err(BadRequest);
    }
    if fin.kmFinal.value.value <= c.value.val.kmInicial {
      return Err(BadRequest);
    }
    var data := fin;
    if !DataFimGiven(data.dataFim) {
      data := data.(dataFim := Set(Some(now)));
    }
    data := data.(status := Set(Finalizado));
    var u := UpdateControle(db, id, data);
    r := if u.None? then Err(ServerError) else Ok(u.value);
  }

  method CancelUsageControl(db: Store, caller: Row<Usuario>, id: int) returns (r: Result<()>)
    modifies db
    ensures Outcome(r, db.State()) == CancelOutcome(old(db.State()), caller, id)
  {
    var c := Get(db.controles, id);
    if c.None? {
      return Err(NotFound);
    }
    if !IsAdmin(caller) && c.value.val.motoristaId != caller.id {
      return Err(Forbidden);
    }
    if c.value.val.status != Aberto {
      return Err(BadRequest);
    }
    var _ := UpdateControle(db, id, Cancellation);
    r := Ok(());
  }

  // ---------------------------------------------------------------------
  // Lifecycle invariants
  // ---------------------------------------------------------------------

  predicate IsOpen(c: Row<Controle>) { c.val.status == Aberto }

  /** Some open control is on vehicle `vid`. */
  ghost predicate HasOpenControl(cs: Table<Controle>, vid: int)
  {
    exists j :: 0 <= j < |cs| && cs[j].val.veiculoId == vid && IsOpen(cs[j])
  }

  /** No driver has two open controls. */
  ghost predicate OneOpenPerDriver(cs: Table<Controle>)
  {
    forall i, j :: 0 <= i < j < |cs| && IsOpen(cs[i]) && IsOpen(cs[j]) ==> cs[i].val.motoristaId != cs[j].val.motoristaId
  }

  /** No vehicle has two open controls. */
  ghost predicate OneOpenPerVehicle(cs: Table<Controle>)
  {
    forall i, j :: 0 <= i < j < |cs| && IsOpen(cs[i]) && IsOpen(cs[j]) ==> cs[i].val.veiculoId != cs[j].val.veiculoId
  }

  /** A vehicle is "em_uso" exactly when an open control is on it. */
  ghost predicate VehicleInUseIffOpen(db: Db)
  {
    forall i :: 0 <= i < |db.veiculos| ==> (db.veiculos[i].val.status == EmUso <==> HasOpenControl(db.controles, db.veiculos[i].id))
  }

  ghost predicate Consistent(db: Db)
  {
    OneOpenPerDriver(db.controles) && OneOpenPerVehicle(db.controles) && VehicleInUseIffOpen(db)
  }

  /** Appending a control adds its vehicle, if it is open, to those with an
      open control, and changes nothing else. */
  lemma OpenAfterInsert(cs: Table<Controle>, row: Row<Controle>, w: int)
    ensures HasOpenControl(cs + [row], w) <==> HasOpenControl(cs, w) || (row.val.veiculoId == w && IsOpen(row))
  {
    var t := cs + [row];
    if HasOpenControl(cs, w) {
      var j :| 0 <= j < |cs| && cs[j].val.veiculoId == w && IsOpen(cs[j]);
      assert t[j] == cs[j];
    }
    if HasOpenControl(t, w) {
      var j :| 0 <= j < |t| && t[j].val.veiculoId == w && IsOpen(t[j]);
      if j < |cs| {
        assert t[j] == cs[j];
      }
    }
    if row.val.veiculoId == w && IsOpen(row) {
      assert t[|cs|] == row;
    }
  }

  /** With one open control per vehicle, the open control at `k` is the only
      open one on its vehicle. */
  lemma OnlyOpenOnItsVehicle(cs: Table<Controle>, k: nat)
    requires OneOpenPerVehicle(cs) && k < |cs| && IsOpen(cs[k])
    ensures forall j :: 0 <= j < |cs| && j != k && cs[j].val.veiculoId == cs[k].val.veiculoId ==> !IsOpen(cs[j])
  {
    forall j | 0 <= j < |cs| && j != k && cs[j].val.veiculoId == cs[k].val.veiculoId
      ensures !IsOpen(cs[j])
    {
      if j < k {
        assert !IsOpen(cs[k]) || !IsOpen(cs[j]);
      } else {
        assert !IsOpen(cs[k]) || !IsOpen(cs[j]);
      }
    }
  }

  /** With one open control per driver, the open control at `k` is the only
      open one of its driver. */
  lemma OnlyOpenOfItsDriver(cs: Table<Controle>, k: nat)
    requires OneOpenPerDriver(cs) && k < |cs| && IsOpen(cs[k])
    ensures forall j :: 0 <= j < |cs| && j != k && cs[j].val.motoristaId == cs[k].val.motoristaId ==> !IsOpen(cs[j])
  {
    forall j | 0 <= j < |cs| && j != k && cs[j].val.motoristaId == cs[k].val.motoristaId
      ensures !IsOpen(cs[j])
    {
      if j < k {
        assert !IsOpen(cs[k]) || !IsOpen(cs[j]);
      } else {
        assert !IsOpen(cs[k]) || !IsOpen(cs[j]);
      }
    }
  }

  /** Closing the open control at `k` leaves no open control on its vehicle. */
  lemma ClosedLeavesNoOpen(cs: Table<Controle>, k: nat, x: Controle)
    requires OneOpenPerVehicle(cs) && k < |cs| && IsOpen(cs[k])
    requires x.veiculoId == cs[k].val.veiculoId && x.status != Aberto
    ensures !HasOpenControl(SetAt(cs, k, x), x.veiculoId)
  {
    var t := SetAt(cs, k, x);
    OnlyOpenOnItsVehicle(cs, k);
    forall j | 0 <= j < |t| && t[j].val.veiculoId == x.veiculoId
      ensures !IsOpen(t[j])
    {
      if j != k {
        assert t[j] == cs[j];
      }
    }
  }

  /** Closing the open control at index `k` and releasing its vehicle keeps
      the store consistent. */
  lemma CloseAndRelease(db: Db, k: nat, x: Controle)
    requires Valid(db) && Consistent(db)
    requires k < |db.controles| && IsOpen(db.controles[k])
    requires x.veiculoId == db.controles[k].val.veiculoId && x.status != Aberto
    ensures var after := db.(controles := SetAt(db.controles, k, x),
                             veiculos := WithVehicleStatus(db.veiculos, x.veiculoId, Disponivel));
      && Consistent(after)
      && !HasOpenControl(after.controles, x.veiculoId)
  {
    var cs := db.controles;
    var t := SetAt(cs, k, x);
    var vs := WithVehicleStatus(db.veiculos, x.veiculoId, Disponivel);
    var after := db.(controles := t, veiculos := vs);
    var v := x.veiculoId;
    ClosedLeavesNoOpen(cs, k, x);
    forall w | w != v
      ensures HasOpenControl(t, w) <==> HasOpenControl(cs, w)
    {
      if HasOpenControl(cs, w) {
        var j :| 0 <= j < |cs| && cs[j].val.veiculoId == w && IsOpen(cs[j]);
        assert j != k && t[j] == cs[j];
      }
      if HasOpenControl(t, w) {
        var j :| 0 <= j < |t| && t[j].val.veiculoId == w && IsOpen(t[j]);
        assert j != k && t[j] == cs[j];
      }
    }
    forall i | 0 <= i < |vs|
      ensures vs[i].val.status == EmUso <==> HasOpenControl(t, vs[i].id)
    {
      if db.veiculos[i].id == v {
        assert vs[i].val.status == Disponivel;
      } else {
        assert vs[i] == db.veiculos[i];
      }
    }
    assert VehicleInUseIffOpen(after);
  }

  /** A create that succeeds on a vehicle in a consistent store, with the
      request status left at "aberto", keeps the store consistent. */
  lemma CreatePreservesConsistency(db: Db, caller: Row<Usuario>, c: ControleCreate)
    requires Valid(db) && Consistent(db) && c.status == Aberto
    ensures var o := CreateUsageControlOutcome(db, caller, c);
      Consistent(o.db) && Valid(o.db)
  {
    var o := CreateUsageControlOutcome(db, caller, c);
    CreateControleSpec(db, c, caller.id);
    if o.result.Ok? {
      var cs := db.controles;
      var t := o.db.controles;
      var row := o.result.value;
      var v := c.veiculoId;
      var kv := Find(db.veiculos, v).value;
      assert db.veiculos[kv].val.status == Disponivel;
      assert !HasOpenControl(cs, v);
      assert t == cs + [row] && IsOpen(row) && row.val.veiculoId == v && row.val.motoristaId == caller.id;
      forall i | 0 <= i < |cs| && IsOpen(cs[i])
        ensures cs[i].val.motoristaId != caller.id && cs[i].val.veiculoId != v
      {
        var ci := cs[i];
        assert ci.val.motoristaId == caller.id ==> ci in GetControlesAbertos(db, Some(caller.id));
      }
      forall i, j | 0 <= i < j < |t| && IsOpen(t[i]) && IsOpen(t[j])
        ensures t[i].val.motoristaId != t[j].val.motoristaId && t[i].val.veiculoId != t[j].val.veiculoId
      {
        assert t[i] == cs[i];
        if j < |cs| {
          assert t[j] == cs[j];
        }
      }
      var vs := o.db.veiculos;
      forall i | 0 <= i < |vs|
        ensures vs[i].val.status == EmUso <==> HasOpenControl(t, vs[i].id)
      {
        OpenAfterInsert(cs, row, vs[i].id);
        if db.veiculos[i].id == v {
          assert vs[i].val.status == EmUso;
        } else {
          assert vs[i] == db.veiculos[i];
        }
      }
    }
  }

  /** `create_usage_control`: 404, then 400 for a vehicle that is not
      available, then 400 for a caller with an open control; a refusal changes
      nothing. Any profile passes. On success the control holds the request and
      the caller, and its vehicle is "em_uso". */
  lemma CreateUsageControlSpec(db: Db, caller: Row<Usuario>, c: ControleCreate)
    ensures var o := CreateUsageControlOutcome(db, caller, c);
      && (Get(db.veiculos, c.veiculoId).None? ==> o == Outcome(Err(NotFound), db))
      && (Get(db.veiculos, c.veiculoId).Some? && Get(db.veiculos, c.veiculoId).value.val.status != Disponivel ==>
            o == Outcome(Err(BadRequest), db))
      && (Get(db.veiculos, c.veiculoId).Some? &&
          (exists i :: 0 <= i < |db.controles| && db.controles[i].val.motoristaId == caller.id && IsOpen(db.controles[i])) ==>
            o == Outcome(Err(BadRequest), db))
      && (o.result.Ok? <==> (Get(db.veiculos, c.veiculoId).Some? &&
            Get(db.veiculos, c.veiculoId).value.val.status == Disponivel &&
            forall i :: 0 <= i < |db.controles| ==> !(db.controles[i].val.motoristaId == caller.id && IsOpen(db.controles[i]))))
      && (o.result.Ok? ==>
            && o.result.value.val == NewControle(c, caller.id)
            && o.db.controles == db.controles + [o.result.value]
            && o.db.usuarios == db.usuarios && o.db.rotas == db.rotas
            && (Valid(db) ==> (Get(o.db.veiculos, c.veiculoId) ==
                  Some(Row(c.veiculoId, Get(db.veiculos, c.veiculoId).value.val.(status := EmUso))))))
      && (Valid(db) ==> Valid(o.db))
  {
    CreateControleSpec(db, c, caller.id);
    var open := GetControlesAbertos(db, Some(caller.id));
    if exists i :: 0 <= i < |db.controles| && db.controles[i].val.motoristaId == caller.id && IsOpen(db.controles[i]) {
      var i :| 0 <= i < |db.controles| && db.controles[i].val.motoristaId == caller.id && IsOpen(db.controles[i]);
      assert db.controles[i] in open;
    }
  }

  /** Once a driver's create has succeeded, a second one fails, whichever
      vehicle it names, and changes nothing. */
  lemma SecondOpenRefused(db: Db, caller: Row<Usuario>, c: ControleCreate, c2: ControleCreate)
    requires Valid(db) && c.status == Aberto
    ensures var o := CreateUsageControlOutcome(db, caller, c);
      o.result.Ok? ==>
        var o2 := CreateUsageControlOutcome(o.db, caller, c2);
        o2.result.Err? && o2.db == o.db
  {
    var o := CreateUsageControlOutcome(db, caller, c);
    CreateUsageControlSpec(db, caller, c);
    if o.result.Ok? {
      var t := o.db.controles;
      assert t[|t| - 1] == o.result.value;
      CreateUsageControlSpec(o.db, caller, c2);
    }
  }

  /** The request's `status` is stored as sent: a control created as anything
      but "aberto" leaves its vehicle "em_uso" with no open control on it. */
  lemma ClientStatusBreaksConsistency(db: Db, caller: Row<Usuario>, c: ControleCreate)
    requires Valid(db) && Consistent(db) && c.status != Aberto
    requires Get(db.veiculos, c.veiculoId).Some? && Get(db.veiculos, c.veiculoId).value.val.status == Disponivel
    requires forall i :: 0 <= i < |db.controles| ==> !(db.controles[i].val.motoristaId == caller.id && IsOpen(db.controles[i]))
    ensures var o := CreateUsageControlOutcome(db, caller, c);
      && o.result.Ok?
      && Get(o.db.veiculos, c.veiculoId).value.val.status == EmUso
      && !HasOpenControl(o.db.controles, c.veiculoId)
      && !Consistent(o.db)
  {
    var o := CreateUsageControlOutcome(db, caller, c);
    CreateUsageControlSpec(db, caller, c);
    var kv := Find(db.veiculos, c.veiculoId).value;
    assert !HasOpenControl(db.controles, c.veiculoId);
    OpenAfterInsert(db.controles, o.result.value, c.veiculoId);
    var kv2 := Find(o.db.veiculos, c.veiculoId).value;
    assert o.db.veiculos[kv2].val.status == EmUso;
  }

  /** `finalize_usage_control`: 404, then 403 for anyone but the control's
      driver (an admin too), then 400 for a control that is not open, for a
      falsy `km_final` and for one not above `km_inicial`; a refusal changes
      nothing. On success the control is "finalizado" with the sent closing
      fields, `data_fim` defaulted to `now`, and its vehicle "disponivel". */
  lemma FinalizeSpec(db: Db, caller: Row<Usuario>, id: int, fin: ControleUpdate, now: string)
    ensures var o := FinalizeOutcome(db, caller, id, fin, now);
      && (Get(db.controles, id).None? ==> o == Outcome(Err(NotFound), db))
      && (Get(db.controles, id).Some? ==>
            var c := Get(db.controles, id).value.val;
            && (c.motoristaId != caller.id ==> o.result == Err(Forbidden))
            && (c.motoristaId == caller.id && c.status != Aberto ==> o.result == Err(BadRequest))
            && (c.motoristaId == caller.id && c.status == Aberto && !KmFinalGiven(fin.kmFinal) ==>
                  o.result == Err(BadRequest))
            && ((c.motoristaId == caller.id && c.status == Aberto && KmFinalGiven(fin.kmFinal) &&
                 fin.kmFinal.value.value <= c.kmInicial) ==> o.result == Err(BadRequest))
            && (o.result.Ok? <==> (c.motoristaId == caller.id && c.status == Aberto && KmFinalGiven(fin.kmFinal) &&
                  fin.kmFinal.value.value > c.kmInicial))
            && (o.result.Ok? ==>
                  var x := o.result.value.val;
                  && o.result.value.id == id
                  && x.status == Finalizado
                  && x.kmFinal == fin.kmFinal.value
                  && x.dataFim == (if DataFimGiven(fin.dataFim) then fin.dataFim.value else Some(now))
                  && x.assinaturaEletronica == Or(fin.assinaturaEletronica, c.assinaturaEletronica)
                  && x.motoristaId == c.motoristaId && x.veiculoId == c.veiculoId
                  && x.dataInicio == c.dataInicio && x.kmInicial == c.kmInicial
                  && o.db.usuarios == db.usuarios && o.db.rotas == db.rotas
                  && |o.db.controles| == |db.controles|
                  && (forall i :: 0 <= i < |db.controles| && db.controles[i].id != id ==> o.db.controles[i] == db.controles[i])
                  && (Valid(db) ==> Get(o.db.controles, id) == Some(o.result.value))
                  && (Valid(db) && Get(db.veiculos, c.veiculoId).Some? ==>
                        Get(o.db.veiculos, c.veiculoId).value.val.status == Disponivel)))
      && (o.result.Err? ==> o.db == db)
      && o.result != Err(ServerError)
      && (Valid(db) ==> Valid(o.db))
  {
    UpdateControleSpec(db, id, Finalization(fin, now));
  }

  /** A finalize that succeeds on a consistent store keeps it consistent,
      and leaves its driver free to open a new control. */
  lemma FinalizePreservesConsistency(db: Db, caller: Row<Usuario>, id: int, fin: ControleUpdate, now: string)
    requires Valid(db) && Consistent(db)
    ensures var o := FinalizeOutcome(db, caller, id, fin, now);
      && Consistent(o.db) && Valid(o.db)
      && (o.result.Ok? ==> GetControlesAbertos(o.db, Some(caller.id)) == [])
  {
    var o := FinalizeOutcome(db, caller, id, fin, now);
    var upd := Finalization(fin, now);
    UpdateControleSpec(db, id, upd);
    if o.result.Ok? {
      var cs := db.controles;
      var k := Find(cs, id).value;
      var x := PatchControle(cs[k].val, upd);
      assert o.db == db.(controles := SetAt(cs, k, x), veiculos := WithVehicleStatus(db.veiculos, x.veiculoId, Disponivel));
      CloseAndRelease(db, k, x);
      var t := o.db.controles;
      OnlyOpenOfItsDriver(cs, k);
      forall i | 0 <= i < |t|
        ensures !(t[i].val.motoristaId == caller.id && IsOpen(t[i]))
      {
        if i != k {
          assert t[i] == cs[i];
        }
      }
    }
  }

  /** `cancel_usage_control`: 404, then 403 unless admin or the driver, then
      400 unless open; a refusal changes nothing. On success only the
      control's status changes, to "cancelado"; the vehicle table is untouched. */
  lemma CancelSpec(db: Db, caller: Row<Usuario>, id: int)
    ensures var o := CancelOutcome(db, caller, id);
      && (Get(db.controles, id).None? ==> o == Outcome(Err(NotFound), db))
      && (Get(db.controles, id).Some? ==>
            var c := Get(db.controles, id).value.val;
            && (!IsAdmin(caller) && c.motoristaId != caller.id ==> o == Outcome(Err(Forbidden), db))
            && ((IsAdmin(caller) || c.motoristaId == caller.id) && c.status != Aberto ==> o == Outcome(Err(BadRequest), db))
            && (o.result.Ok? <==> (IsAdmin(caller) || c.motoristaId == caller.id) && c.status == Aberto)
            && (o.result.Ok? ==>
                  && o.db.veiculos == db.veiculos && o.db.usuarios == db.usuarios && o.db.rotas == db.rotas
                  && |o.db.controles| == |db.controles|
                  && (forall i :: 0 <= i < |db.controles| && db.controles[i].id != id ==> o.db.controles[i] == db.controles[i])
                  && (Valid(db) ==> Get(o.db.controles, id) == Some(Row(id, c.(status := Cancelado))))))
      && (Valid(db) ==> Valid(o.db))
  {
    UpdateControleSpec(db, id, Cancellation);
  }

  /** Cancelling an open control leaves its vehicle "em_uso" with no open
      control: the store is no longer consistent. */
  lemma CancelLeavesVehicleInUse(db: Db, caller: Row<Usuario>, id: int)
    requires Valid(db) && Consistent(db) && Get(db.controles, id).Some?
    requires var c := Get(db.controles, id).value;
      IsOpen(c) && (IsAdmin(caller) || c.val.motoristaId == caller.id) && Get(db.veiculos, c.val.veiculoId).Some?
    ensures var v := Get(db.controles, id).value.val.veiculoId;
      var o := CancelOutcome(db, caller, id);
      && o.result == Ok(())
      && Get(o.db.veiculos, v) == Get(db.veiculos, v)
      && Get(o.db.veiculos, v).value.val.status == EmUso
      && !HasOpenControl(o.db.controles, v)
      && !Consistent(o.db)
  {
    var cs := db.controles;
    var k := Find(cs, id).value;
    var v := cs[k].val.veiculoId;
    var o := CancelOutcome(db, caller, id);
    CancelSpec(db, caller, id);
    var kv := Find(db.veiculos, v).value;
    assert HasOpenControl(cs, v);
    UpdateControleSpec(db, id, Cancellation);
    var t := o.db.controles;
    var x := PatchControle(cs[k].val, Cancellation);
    assert t == SetAt(cs, k, x);
    ClosedLeavesNoOpen(cs, k, x);
    assert o.db.veiculos[kv].val.status == EmUso;
  }

  /** After such a cancel the vehicle is stranded: nobody can open a control on
      it until an admin resets its status through the vehicle update. */
  lemma CancelStrandsVehicle(db: Db, caller: Row<Usuario>, id: int, other: Row<Usuario>, c2: ControleCreate)
    requires Valid(db) && Consistent(db) && Get(db.controles, id).Some?
    requires var c := Get(db.controles, id).value;
      IsOpen(c) && (IsAdmin(caller) || c.val.motoristaId == caller.id) && Get(db.veiculos, c.val.veiculoId).Some?
    requires c2.veiculoId == Get(db.controles, id).value.val.veiculoId
    ensures CreateUsageControlOutcome(CancelOutcome(db, caller, id).db, other, c2).result == Err(BadRequest)
  {
    CancelLeavesVehicleInUse(db, caller, id);
  }

  /** Cancelling as intended, with the vehicle released, keeps the store consistent. */
  lemma CancelReleasingPreservesConsistency(db: Db, caller: Row<Usuario>, id: int)
    requires Valid(db) && Consistent(db)
    ensures var o := CancelReleasingOutcome(db, caller, id);
      && Consistent(o.db)
      && (o.result.Ok? ==> !HasOpenControl(o.db.controles, Get(db.controles, id).value.val.veiculoId))
  {
    var o := CancelReleasingOutcome(db, caller, id);
    UpdateControleSpec(db, id, Cancellation);
    if o.result.Ok? {
      var cs := db.controles;
      var k := Find(cs, id).value;
      var x := PatchControle(cs[k].val, Cancellation);
      assert o.db == db.(controles := SetAt(cs, k, x), veiculos := WithVehicleStatus(db.veiculos, x.veiculoId, Disponivel));
      CloseAndRelease(db, k, x);
    }
  }

  /** A control that is not open can be neither finalized nor cancelled, by
      anyone, and the attempt changes nothing. */
  lemma ClosedControlIsTerminal(db: Db, id: int, caller: Row<Usuario>, fin: ControleUpdate, now: string)
    requires Get(db.controles, id).Some? && Get(db.controles, id).value.val.status != Aberto
    ensures var o := FinalizeOutcome(db, caller, id, fin, now);
      o.result.Err? && o.db == db
    ensures var o := CancelOutcome(db, caller, id);
      o.result.Err? && o.db == db
  {
  }

  /** "finalizado" is terminal: after a finalize succeeds, every later
      finalize or cancel of that control fails and changes nothing. */
  lemma FinalizedIsTerminal(db: Db, caller: Row<Usuario>, id: int, fin: ControleUpdate, now: string,
                            caller2: Row<Usuario>, fin2: ControleUpdate, now2: string)
    requires Valid(db)
    ensures var o := FinalizeOutcome(db, caller, id, fin, now);
      o.result.Ok? ==>
        && Get(o.db.controles, id).value.val.status == Finalizado
        && FinalizeOutcome(o.db, caller2, id, fin2, now2).result.Err?
        && FinalizeOutcome(o.db, caller2, id, fin2, now2).db == o.db
        && CancelOutcome(o.db, caller2, id).result.Err?
        && CancelOutcome(o.db, caller2, id).db == o.db
  {
    var o := FinalizeOutcome(db, caller, id, fin, now);
    if o.result.Ok? {
      UpdateControleSpec(db, id, Finalization(fin, now));
      assert Get(o.db.controles, id) == Some(o.result.value);
      ClosedControlIsTerminal(o.db, id, caller2, fin2, now2);
    }
  }

  /** "cancelado" is terminal: after a cancel succeeds, every later finalize
      or cancel of that control fails and changes nothing. */
  lemma CancelledIsTerminal(db: Db, caller: Row<Usuario>, id: int,
                            caller2: Row<Usuario>, fin2: ControleUpdate, now2: string)
    requires Valid(db)
    ensures var o := CancelOutcome(db, caller, id);
      o.result.Ok? ==>
        && Get(o.db.controles, id).value.val.status == Cancelado
        && FinalizeOutcome(o.db, caller2, id, fin2, now2).result.Err?
        && FinalizeOutcome(o.db, caller2, id, fin2, now2).db == o.db
        && CancelOutcome(o.db, caller2, id).result.Err?
        && CancelOutcome(o.db, caller2, id).db == o.db
  {
    var o := CancelOutcome(db, caller, id);
    if o.result.Ok? {
      UpdateControleSpec(db, id, Cancellation);
      ClosedControlIsTerminal(o.db, id, caller2, fin2, now2);
    }
  }

  /** The open list a non-driver gets is empty even while controls are open;
      the intended list would contain them. */
  lemma StaffOpenListAlwaysEmpty(db: Db, caller: Row<Usuario>, k: nat)
    requires !IsMotorista(caller) && k < |db.controles| && IsOpen(db.controles[k])
    ensures ReadOpenUsageControls(db, caller) == []
    ensures db.controles[k] in ReadOpenUsageControlsIntended(db, caller)
  {
  }

  // ---------------------------------------------------------------------
  // Defaults and status domain
  // ---------------------------------------------------------------------

  /** A checkout that sends only vehicle, start time and start odometer opens
      an "aberto" control (the column default) with no closing fields. */
  lemma ControleDefaults(db: Db, caller: Row<Usuario>, veiculoId: int, dataInicio: string, kmInicial: real)
    ensures var o := CreateUsageControlOutcome(db, caller, ControleCreate(veiculoId, dataInicio, kmInicial));
      o.result.Ok? ==>
        var x := o.result.value.val;
        && x.status == DefaultControleStatus && IsControleStatus(x.status)
        && x.kmFinal.None? && x.dataFim.None? && x.assinaturaEletronica.None?
        && x.motoristaId == caller.id && x.veiculoId == veiculoId
        && x.dataInicio == dataInicio && x.kmInicial == kmInicial
  {
    CreateControleSpec(db, ControleCreate(veiculoId, dataInicio, kmInicial), caller.id);
  }

  /** Every control's status is one of "aberto", "finalizado", "cancelado". */
  ghost predicate ControlStatusesInDomain(cs: Table<Controle>)
  {
    forall i :: 0 <= i < |cs| ==> IsControleStatus(cs[i].val.status)
  }

  /** A create keeps every control's status in its domain when the request's
      status is in it; one with any other status stores that status. */
  lemma CreateKeepsStatusDomain(db: Db, caller: Row<Usuario>, c: ControleCreate)
    requires ControlStatusesInDomain(db.controles)
    ensures var o := CreateUsageControlOutcome(db, caller, c);
      && (IsControleStatus(c.status) ==> ControlStatusesInDomain(o.db.controles))
      && (!IsControleStatus(c.status) && o.result.Ok? ==> !ControlStatusesInDomain(o.db.controles))
  {
    var o := CreateUsageControlOutcome(db, caller, c);
    if o.result.Ok? {
      CreateControleSpec(db, c, caller.id);
      var t := o.db.controles;
      assert t[|t| - 1] == o.result.value;
      forall i | 0 <= i < |t| - 1
        ensures t[i] == db.controles[i]
      {
      }
    }
  }

  /** Finalize and cancel keep every control's status in its domain. */
  lemma CloseKeepsStatusDomain(db: Db, caller: Row<Usuario>, id: int, fin: ControleUpdate, now: string)
    requires ControlStatusesInDomain(db.controles)
    ensures ControlStatusesInDomain(FinalizeOutcome(db, caller, id, fin, now).db.controles)
    ensures ControlStatusesInDomain(CancelOutcome(db, caller, id).db.controles)
  {
    var cs := db.controles;
    match Find(cs, id)
    case None =>
    case Some(k) =>
      var f := UpdateControleOutcome(db, id, Finalization(fin, now));
      assert f.db.controles == SetAt(cs, k, PatchControle(cs[k].val, Finalization(fin, now)));
      var x := UpdateControleOutcome(db, id, Cancellation);
      assert x.db.controles == SetAt(cs, k, PatchControle(cs[k].val, Cancellation));
  }

  // ---------------------------------------------------------------------
  // One open control per driver, in every reachable store
  // ---------------------------------------------------------------------

  /** Writing a closed status into one control opens nothing, so no driver
      gains a second open control. */
  lemma ClosingKeepsOneOpenPerDriver(cs: Table<Controle>, k: nat, x: Controle)
    requires OneOpenPerDriver(cs) && k < |cs| && x.status != Aberto
    ensures OneOpenPerDriver(SetAt(cs, k, x))
  {
    var t := SetAt(cs, k, x);
    forall i, j | 0 <= i < j < |t| && IsOpen(t[i]) && IsOpen(t[j])
      ensures t[i].val.motoristaId != t[j].val.motoristaId
    {
      assert t[i] == cs[i] && t[j] == cs[j];
    }
  }

  /** The open-control guard of `create_usage_control` keeps "no driver has
      two open controls" on its own: whatever status the client sends, and
      whatever state cancels or vehicle edits have left the vehicles in. */
  lemma CreateKeepsOneOpenPerDriver(db: Db, caller: Row<Usuario>, c: ControleCreate)
    requires OneOpenPerDriver(db.controles)
    ensures OneOpenPerDriver(CreateUsageControlOutcome(db, caller, c).db.controles)
  {
    var o := CreateUsageControlOutcome(db, caller, c);
    CreateUsageControlSpec(db, caller, c);
    if o.result.Ok? {
      var cs := db.controles;
      var t := o.db.controles;
      assert t == cs + [o.result.value] && o.result.value.val.motoristaId == caller.id;
      forall i, j | 0 <= i < j < |t| && IsOpen(t[i]) && IsOpen(t[j])
        ensures t[i].val.motoristaId != t[j].val.motoristaId
      {
        assert t[i] == cs[i];
        if j < |cs| {
          assert t[j] == cs[j];
        }
      }
    }
  }

  /** Finalize and cancel keep "no driver has two open controls" in any store. */
  lemma CloseKeepsOneOpenPerDriver(db: Db, caller: Row<Usuario>, id: int, fin: ControleUpdate, now: string)
    requires OneOpenPerDriver(db.controles)
    ensures OneOpenPerDriver(FinalizeOutcome(db, caller, id, fin, now).db.controles)
    ensures OneOpenPerDriver(CancelOutcome(db, caller, id).db.controles)
  {
    var cs := db.controles;
    match Find(cs, id)
    case None =>
    case Some(k) =>
      var xf := PatchControle(cs[k].val, Finalization(fin, now));
      assert UpdateControleOutcome(db, id, Finalization(fin, now)).db.controles == SetAt(cs, k, xf);
      ClosingKeepsOneOpenPerDriver(cs, k, xf);
      var xc := PatchControle(cs[k].val, Cancellation);
      assert UpdateControleOutcome(db, id, Cancellation).db.controles == SetAt(cs, k, xc);
      ClosingKeepsOneOpenPerDriver(cs, k, xc);
  }
}
