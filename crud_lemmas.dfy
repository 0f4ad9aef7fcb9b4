/** What the data-access operations guarantee: the effect of each create,
    partial update and delete on the store, the constraints they preserve, and
    the columns no update can reach. */
module CrudLemmas {
  import opened Wrappers
  import opened Tables
  import opened Models
  import opened Schemas
  import opened Crud

  // ---------------------------------------------------------------------
  // Users
  // ---------------------------------------------------------------------

  /** `create_usuario` stores the new user under a fresh key and touches
      nothing else; a repeated email or matrícula rolls the commit back. */
  lemma CreateUsuarioSpec(db: Db, u: UsuarioCreate, hash: string -> string)
    ensures var o := CreateUsuarioOutcome(db, u, hash);
      && (o.result.Err? <==> UsuarioClash(db.usuarios, -1, NewUsuario(u, hash)))
      && (o.result.Err? ==> o.result.error == ServerError && o.db == db)
      && (o.result.Ok? ==>
            && o.result.value.val == NewUsuario(u, hash)
            && o.result.value.val.senhaHash == hash(u.senha)
            && Get(db.usuarios, o.result.value.id).None?
            && o.db == db.(usuarios := db.usuarios + [o.result.value]))
      && (Valid(db) ==> Valid(o.db))
  {
    var o := CreateUsuarioOutcome(db, u, hash);
    if o.result.Ok? && Valid(db) {
      var t := o.db.usuarios;
      var x := NewUsuario(u, hash);
      assert t == db.usuarios + [Row(NextId(db.usuarios), x)];
      forall i, j | 0 <= i < j < |t|
        ensures t[i].val.email != t[j].val.email && t[i].val.matricula != t[j].val.matricula
      {
        if j == |t| - 1 {
          assert t[i] == db.usuarios[i];
        } else {
          assert t[i] == db.usuarios[i] && t[j] == db.usuarios[j];
        }
      }
    }
  }

  /** `update_usuario`: a missing key returns `None` and changes nothing;
      otherwise exactly the sent columns of that row are written (never the
      password hash), every other row is kept, and the unique columns stay
      unique. */
  lemma UpdateUsuarioSpec(db: Db, id: int, upd: UsuarioUpdate)
    ensures var o := UpdateUsuarioOutcome(db, id, upd);
      && (Get(db.usuarios, id).None? ==> o == Outcome(Ok(None), db))
      && (o.result.Err? ==> o.result.error == ServerError && o.db == db)
      && (o.result.Ok? && o.result.value.Some? ==>
            var before := Get(db.usuarios, id).value.val;
            && o.result.value.value == Row(id, PatchUsuario(before, upd))
            && o.result.value.value.val.senhaHash == before.senhaHash
            && |o.db.usuarios| == |db.usuarios|
            && (forall i :: 0 <= i < |db.usuarios| && db.usuarios[i].id != id ==> o.db.usuarios[i] == db.usuarios[i])
            && (Ascending(db.usuarios) ==> Get(o.db.usuarios, id) == o.result.value)
            && o.db == db.(usuarios := o.db.usuarios))
      && (Ascending(db.usuarios) && Get(db.usuarios, id).Some? ==>
            var x := PatchUsuario(Get(db.usuarios, id).value.val, upd);
            (o.result.Err? <==> exists j :: 0 <= j < |db.usuarios| && db.usuarios[j].id != id &&
                                               (db.usuarios[j].val.email == x.email || db.usuarios[j].val.matricula == x.matricula)))
      && (Valid(db) ==> Valid(o.db))
  {
    var o := UpdateUsuarioOutcome(db, id, upd);
    match Find(db.usuarios, id)
    case None =>
    case Some(k) =>
      var x := PatchUsuario(db.usuarios[k].val, upd);
      if Ascending(db.usuarios) {
        SameKeySameIndex(db.usuarios, k);
      }
      if !UsuarioClash(db.usuarios, k, x) {
        var t := o.db.usuarios;
        assert t == SetAt(db.usuarios, k, x);
        if Ascending(db.usuarios) {
          assert forall i :: 0 <= i < |t| && i != k ==> t[i].id != id;
        }
        if Valid(db) {
          forall i, j | 0 <= i < j < |t|
            ensures t[i].val.email != t[j].val.email && t[i].val.matricula != t[j].val.matricula
          {
            if i == k || j == k {
            } else {
              assert t[i] == db.usuarios[i] && t[j] == db.usuarios[j];
            }
          }
        }
      }
  }

  /** `delete_usuario` returns false exactly when the key is missing, and then
      changes nothing; a driver some control refers to cannot be deleted (the
      commit fails); otherwise that row, and only that row, is gone. */
  lemma DeleteUsuarioSpec(db: Db, id: int)
    ensures var o := DeleteUsuarioOutcome(db, id);
      && (o.result == Ok(false) <==> Get(db.usuarios, id).None?)
      && (o.result.Err? <==> Get(db.usuarios, id).Some? && DriverReferenced(db, id))
      && (o.result != Ok(true) ==> o.db == db)
      && (o.result == Ok(true) ==>
            && o.db == db.(usuarios := o.db.usuarios)
            && |o.db.usuarios| == |db.usuarios| - 1
            && (forall i :: 0 <= i < |o.db.usuarios| ==> o.db.usuarios[i] in db.usuarios)
            && (forall i :: 0 <= i < |db.usuarios| && db.usuarios[i].id != id ==> db.usuarios[i] in o.db.usuarios)
            && (Ascending(db.usuarios) ==> Get(o.db.usuarios, id).None?))
      && (Valid(db) ==> Valid(o.db))
  {
    var o := DeleteUsuarioOutcome(db, id);
    match Find(db.usuarios, id)
    case None =>
    case Some(k) =>
      if !DriverReferenced(db, id) {
        var t := o.db.usuarios;
        assert t == RemoveAt(db.usuarios, k);
        forall i | 0 <= i < |db.usuarios| && db.usuarios[i].id != id
          ensures db.usuarios[i] in t
        {
          if i < k {
            assert t[i] == db.usuarios[i];
          } else {
            assert i != k;
            assert t[i - 1] == db.usuarios[i];
          }
        }
        if Valid(db) {
          forall i, j | 0 <= i < j < |t|
            ensures t[i].val.email != t[j].val.email && t[i].val.matricula != t[j].val.matricula
          {
            var i' := if i < k then i else i + 1;
            var j' := if j < k then j else j + 1;
            assert t[i] == db.usuarios[i'] && t[j] == db.usuarios[j'];
          }
        }
      }
  }

  // ---------------------------------------------------------------------
  // Vehicles
  // ---------------------------------------------------------------------

  lemma CreateVeiculoSpec(db: Db, v: VeiculoCreate)
    ensures var o := CreateVeiculoOutcome(db, v);
      && (o.result.Err? <==> PlacaClash(db.veiculos, -1, NewVeiculo(v)))
      && (o.result.Err? ==> o.result.error == ServerError && o.db == db)
      && (o.result.Ok? ==>
            && o.result.value.val == NewVeiculo(v)
            && Get(db.veiculos, o.result.value.id).None?
            && o.db == db.(veiculos := db.veiculos + [o.result.value]))
      && (Valid(db) ==> Valid(o.db))
  {
    var o := CreateVeiculoOutcome(db, v);
    if o.result.Ok? && Valid(db) {
      var t := o.db.veiculos;
      assert t == db.veiculos + [Row(NextId(db.veiculos), NewVeiculo(v))];
      forall i, j | 0 <= i < j < |t|
        ensures t[i].val.placa != t[j].val.placa
      {
        if j == |t| - 1 {
          assert t[i] == db.veiculos[i];
        } else {
          assert t[i] == db.veiculos[i] && t[j] == db.veiculos[j];
        }
      }
    }
  }

  lemma UpdateVeiculoSpec(db: Db, id: int, upd: VeiculoUpdate)
    ensures var o := UpdateVeiculoOutcome(db, id, upd);
      && (Get(db.veiculos, id).None? ==> o == Outcome(Ok(None), db))
      && (o.result.Err? ==> o.result.error == ServerError && o.db == db)
      && (o.result.Ok? && o.result.value.Some? ==>
            var before := Get(db.veiculos, id).value.val;
            && o.result.value.value == Row(id, PatchVeiculo(before, upd))
            && |o.db.veiculos| == |db.veiculos|
            && (forall i :: 0 <= i < |db.veiculos| && db.veiculos[i].id != id ==> o.db.veiculos[i] == db.veiculos[i])
            && (Ascending(db.veiculos) ==> Get(o.db.veiculos, id) == o.result.value)
            && o.db == db.(veiculos := o.db.veiculos))
      && (Valid(db) ==> Valid(o.db))
  {
    var o := UpdateVeiculoOutcome(db, id, upd);
    match Find(db.veiculos, id)
    case None =>
    case Some(k) =>
      var x := PatchVeiculo(db.veiculos[k].val, upd);
      if !PlacaClash(db.veiculos, k, x) {
        var t := o.db.veiculos;
        assert t == SetAt(db.veiculos, k, x);
        if Ascending(db.veiculos) {
          assert forall i :: 0 <= i < |t| && i != k ==> t[i].id != id;
        }
        if Valid(db) {
          forall i, j | 0 <= i < j < |t|
            ensures t[i].val.placa != t[j].val.placa
          {
            if i == k || j == k {
            } else {
              assert t[i] == db.veiculos[i] && t[j] == db.veiculos[j];
            }
          }
        }
      }
  }

  lemma DeleteVeiculoSpec(db: Db, id: int)
    ensures var o := DeleteVeiculoOutcome(db, id);
      && (o.result == Ok(false) <==> Get(db.veiculos, id).None?)
      && (o.result.Err? <==> Get(db.veiculos, id).Some? && VehicleReferenced(db, id))
      && (o.result != Ok(true) ==> o.db == db)
      && (o.result == Ok(true) ==>
            && o.db == db.(veiculos := o.db.veiculos)
            && |o.db.veiculos| == |db.veiculos| - 1
            && (forall i :: 0 <= i < |o.db.veiculos| ==> o.db.veiculos[i] in db.veiculos)
            && (forall i :: 0 <= i < |db.veiculos| && db.veiculos[i].id != id ==> db.veiculos[i] in o.db.veiculos)
            && (Ascending(db.veiculos) ==> Get(o.db.veiculos, id).None?))
      && (Valid(db) ==> Valid(o.db))
  {
    var o := DeleteVeiculoOutcome(db, id);
    match Find(db.veiculos, id)
    case None =>
    case Some(k) =>
      if !VehicleReferenced(db, id) {
        var t := o.db.veiculos;
        assert t == RemoveAt(db.veiculos, k);
        forall i | 0 <= i < |db.veiculos| && db.veiculos[i].id != id
          ensures db.veiculos[i] in t
        {
          if i < k {
            assert t[i] == db.veiculos[i];
          } else {
            assert i != k;
            assert t[i - 1] == db.veiculos[i];
          }
        }
        if Valid(db) {
          forall i, j | 0 <= i < j < |t|
            ensures t[i].val.placa != t[j].val.placa
          {
            var i' := if i < k then i else i + 1;
            var j' := if j < k then j else j + 1;
            assert t[i] == db.veiculos[i'] && t[j] == db.veiculos[j'];
          }
        }
      }
  }

  // ---------------------------------------------------------------------
  // Usage controls
  // ---------------------------------------------------------------------

  /** `create_controle` stores every field of the request and the caller as
      driver under a fresh key and, in the same commit, marks the referenced
      vehicle (if it exists) "em_uso"; users and routes are untouched. */
  lemma CreateControleSpec(db: Db, c: ControleCreate, m: int)
    ensures var o := CreateControleOutcome(db, c, m);
      && var x := o.result.val;
      && x.motoristaId == m && x.veiculoId == c.veiculoId && x.dataInicio == c.dataInicio
      && x.kmInicial == c.kmInicial && x.kmFinal == c.kmFinal && x.dataFim == c.dataFim
      && x.assinaturaEletronica == c.assinaturaEletronica && x.status == c.status
      && Get(db.controles, o.result.id).None?
      && o.db.controles == db.controles + [o.result]
      && o.db.usuarios == db.usuarios && o.db.rotas == db.rotas
      && (Valid(db) ==> Valid(o.db))
      && (forall i :: 0 <= i < |db.veiculos| && db.veiculos[i].id != c.veiculoId ==> o.db.veiculos[i] == db.veiculos[i])
      && (Valid(db) && Get(db.veiculos, c.veiculoId).Some? ==>
            Get(o.db.veiculos, c.veiculoId) == Some(Row(c.veiculoId, Get(db.veiculos, c.veiculoId).value.val.(status := EmUso))))
  {
    var o := CreateControleOutcome(db, c, m);
    if Valid(db) {
      match Find(db.veiculos, c.veiculoId)
      case None =>
      case Some(k) =>
        var t := o.db.veiculos;
        assert t == SetAt(db.veiculos, k, db.veiculos[k].val.(status := EmUso));
        assert forall i :: 0 <= i < |t| && i != k ==> t[i].id != c.veiculoId;
    }
  }

  /** `update_controle`: a missing key changes nothing. Otherwise the row gets
      the sent columns (driver, vehicle, start time and start odometer never
      change) and the control's vehicle is set "disponivel" when, and only
      when, the update's status is "finalizado"; any other update leaves the
      vehicle table as it was. */
  lemma UpdateControleSpec(db: Db, id: int, upd: ControleUpdate)
    ensures var o := UpdateControleOutcome(db, id, upd);
      && (Get(db.controles, id).None? ==> o == Outcome(None, db))
      && (o.result.Some? ==>
            var before := Get(db.controles, id).value.val;
            && o.result.value == Row(id, PatchControle(before, upd))
            && o.result.value.val.motoristaId == before.motoristaId
            && o.result.value.val.veiculoId == before.veiculoId
            && o.result.value.val.dataInicio == before.dataInicio
            && o.result.value.val.kmInicial == before.kmInicial
            && |o.db.controles| == |db.controles|
            && (forall i :: 0 <= i < |db.controles| && db.controles[i].id != id ==> o.db.controles[i] == db.controles[i])
            && (Ascending(db.controles) ==> Get(o.db.controles, id) == o.result)
            && o.db.usuarios == db.usuarios && o.db.rotas == db.rotas
            && (!Finalizes(upd) ==> o.db.veiculos == db.veiculos)
            && (Finalizes(upd) ==> o.db.veiculos == WithVehicleStatus(db.veiculos, before.veiculoId, Disponivel))
            && (Finalizes(upd) && Valid(db) && Get(db.veiculos, before.veiculoId).Some? ==>
                  Get(o.db.veiculos, before.veiculoId).value.val.status == Disponivel))
      && (Valid(db) ==> Valid(o.db))
  {
    var o := UpdateControleOutcome(db, id, upd);
    match Find(db.controles, id)
    case None =>
    case Some(k) =>
      var x := PatchControle(db.controles[k].val, upd);
      var t := o.db.controles;
      assert t == SetAt(db.controles, k, x);
      if Ascending(db.controles) {
        assert forall i :: 0 <= i < |t| && i != k ==> t[i].id != id;
      }
      if Finalizes(upd) && Valid(db) {
        VehicleStatusSet(db.veiculos, x.veiculoId, Disponivel);
      }
  }

  /** In a table in rowid order, the vehicle with key `id`, if any, carries
      status `s` after `WithVehicleStatus`. */
  lemma VehicleStatusSet(t: Table<Veiculo>, id: int, s: string)
    requires Ascending(t)
    ensures Get(t, id).Some? ==>
      Get(WithVehicleStatus(t, id, s), id) == Some(Row(id, Get(t, id).value.val.(status := s)))
  {
    match Find(t, id)
    case None =>
    case Some(k) =>
      var r := WithVehicleStatus(t, id, s);
      assert r == SetAt(t, k, t[k].val.(status := s));
      assert forall i :: 0 <= i < |r| && i != k ==> r[i].id != id;
  }

  // ---------------------------------------------------------------------
  // Routes
  // ---------------------------------------------------------------------

  lemma CreateRotaSpec(db: Db, rc: RotaCreate)
    ensures var o := CreateRotaOutcome(db, rc);
      && o.result.val == NewRota(rc)
      && o.result.val.controleUtilizacaoId == rc.controleUtilizacaoId
      && Get(db.rotas, o.result.id).None?
      && o.db == db.(rotas := db.rotas + [o.result])
      && (Valid(db) ==> Valid(o.db))
  {
  }

  /** `update_rota`: a missing key changes nothing; otherwise exactly the sent
      columns are written and the route keeps its parent control. */
  lemma UpdateRotaSpec(db: Db, id: int, upd: RotaUpdate)
    ensures var o := UpdateRotaOutcome(db, id, upd);
      && (Get(db.rotas, id).None? ==> o == Outcome(None, db))
      && (o.result.Some? ==>
            var before := Get(db.rotas, id).value.val;
            && o.result.value == Row(id, PatchRota(before, upd))
            && o.result.value.val.controleUtilizacaoId == before.controleUtilizacaoId
            && |o.db.rotas| == |db.rotas|
            && (forall i :: 0 <= i < |db.rotas| && db.rotas[i].id != id ==> o.db.rotas[i] == db.rotas[i])
            && (Ascending(db.rotas) ==> Get(o.db.rotas, id) == o.result)
            && o.db == db.(rotas := o.db.rotas))
      && (Valid(db) ==> Valid(o.db))
  {
    var o := UpdateRotaOutcome(db, id, upd);
    match Find(db.rotas, id)
    case None =>
    case Some(k) =>
      var t := o.db.rotas;
      assert t == SetAt(db.rotas, k, PatchRota(db.rotas[k].val, upd));
      if Ascending(db.rotas) {
        assert forall i :: 0 <= i < |t| && i != k ==> t[i].id != id;
      }
  }

  lemma DeleteRotaSpec(db: Db, id: int)
    ensures var o := DeleteRotaOutcome(db, id);
      && (o.result <==> Get(db.rotas, id).Some?)
      && (!o.result ==> o.db == db)
      && (o.result ==>
            && o.db == db.(rotas := o.db.rotas)
            && |o.db.rotas| == |db.rotas| - 1
            && (forall i :: 0 <= i < |o.db.rotas| ==> o.db.rotas[i] in db.rotas)
            && (forall i :: 0 <= i < |db.rotas| && db.rotas[i].id != id ==> db.rotas[i] in o.db.rotas)
            && (Ascending(db.rotas) ==> Get(o.db.rotas, id).None?))
      && (Valid(db) ==> Valid(o.db))
  {
    var o := DeleteRotaOutcome(db, id);
    match Find(db.rotas, id)
    case None =>
    case Some(k) =>
      var t := o.db.rotas;
      assert t == RemoveAt(db.rotas, k);
      forall i | 0 <= i < |db.rotas| && db.rotas[i].id != id
        ensures db.rotas[i] in t
      {
        if i < k {
          assert t[i] == db.rotas[i];
        } else {
          assert i != k;
          assert t[i - 1] == db.rotas[i];
        }
      }
  }

  // ---------------------------------------------------------------------
  // Column defaults
  // ---------------------------------------------------------------------

  /** A user created from only the required fields is a pending driver with
      no phone, unit or avatar; the schema's defaults are the table's
      defaults and lie in their domains. */
  lemma UsuarioDefaults(db: Db, matricula: string, nome: string, email: string, senha: string, hash: string -> string)
    ensures var o := CreateUsuarioOutcome(db, UsuarioCreate(matricula, nome, email, senha), hash);
      o.result.Ok? ==>
        var x := o.result.value.val;
        && x.status == DefaultUsuarioStatus && IsUsuarioStatus(x.status)
        && x.perfil == DefaultPerfil && IsPerfil(x.perfil)
        && x.celular.None? && x.unidade.None? && x.avatarLink.None?
        && x.matricula == matricula && x.nome == nome && x.email == email && x.senhaHash == hash(senha)
  {
    CreateUsuarioSpec(db, UsuarioCreate(matricula, nome, email, senha), hash);
  }

  /** A vehicle created from only brand, model and plate is "disponivel" (the
      column default) with every optional column null. */
  lemma VeiculoDefaults(db: Db, marca: string, modelo: string, placa: string)
    ensures var o := CreateVeiculoOutcome(db, VeiculoCreate(marca, modelo, placa));
      o.result.Ok? ==>
        var x := o.result.value.val;
        && x.status == DefaultVeiculoStatus && IsVeiculoStatus(x.status)
        && x.ano.None? && x.motor.None? && x.tipo.None? && x.imagemLink.None?
        && x.marca == marca && x.modelo == modelo && x.placa == placa
  {
    CreateVeiculoSpec(db, VeiculoCreate(marca, modelo, placa));
  }

  /** A route created from only its control, departure time and departure
      odometer has every other column null. */
  lemma RotaDefaults(db: Db, cid: int, saida: string, kmSaida: real)
    ensures var x := CreateRotaOutcome(db, RotaCreate(cid, saida, kmSaida)).result.val;
      && x.controleUtilizacaoId == cid && x.dataHoraSaida == saida && x.kmSaida == kmSaida
      && x.logradouroSaida.None? && x.latitudeSaida.None? && x.longitudeSaida.None?
      && x.dataHoraChegada.None? && x.kmChegada.None? && x.logradouroChegada.None?
      && x.latitudeChegada.None? && x.longitudeChegada.None?
  {
    CreateRotaSpec(db, RotaCreate(cid, saida, kmSaida));
  }
}
