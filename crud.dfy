/** The data-access layer: the store's four tables, the database's own
    constraints, the queries, and the create / partial-update / delete
    operations. Each operation is given twice: as a pure function from the
    store before to an `Outcome` (what it returns and the store after), and as
    a method on the mutable `Store` that performs it step by step and is
    proved to have exactly that outcome. */
module Crud {
  import opened Wrappers
  import opened Tables
  import opened Models
  import opened Schemas

  /** The whole database as a value: its four tables. */
  datatype Db = Db(
    usuarios: Table<Usuario>,
    veiculos: Table<Veiculo>,
    controles: Table<Controle>,
    rotas: Table<Rota>)

  /** What an operation returns, together with the store it leaves. */
  datatype Outcome<+T> = Outcome(result: T, db: Db)

  // ---------------------------------------------------------------------
  // Constraints the database itself enforces
  // ---------------------------------------------------------------------

  /** Some row other than the one at index `k` already holds `u`'s email or
      matrícula (the unique indexes a commit of `u` would violate). */
  predicate UsuarioClash(t: Table<Usuario>, k: int, u: Usuario)
  {
    exists j | 0 <= j < |t| :: j != k && (t[j].val.email == u.email || t[j].val.matricula == u.matricula)
  }

  /** Some row other than the one at index `k` already holds `v`'s plate. */
  predicate PlacaClash(t: Table<Veiculo>, k: int, v: Veiculo)
  {
    exists j | 0 <= j < |t| :: j != k && t[j].val.placa == v.placa
  }

  ghost predicate UniqueUsuarioKeys(t: Table<Usuario>)
  {
    forall i, j :: 0 <= i < j < |t| ==>
      t[i].val.email != t[j].val.email && t[i].val.matricula != t[j].val.matricula
  }

  ghost predicate UniquePlacas(t: Table<Veiculo>)
  {
    forall i, j :: 0 <= i < j < |t| ==> t[i].val.placa != t[j].val.placa
  }

  /** What every committed state satisfies: rowid order in each table and the
      unique columns (email, matrícula, plate). */
  ghost predicate Valid(db: Db)
  {
    && Ascending(db.usuarios) && Ascending(db.veiculos)
    && Ascending(db.controles) && Ascending(db.rotas)
    && UniqueUsuarioKeys(db.usuarios) && UniquePlacas(db.veiculos)
  }

  /** Some control has `id` as its driver. */
  predicate DriverReferenced(db: Db, id: int)
  {
    exists j | 0 <= j < |db.controles| :: db.controles[j].val.motoristaId == id
  }

  /** Some control has `id` as its vehicle. */
  predicate VehicleReferenced(db: Db, id: int)
  {
    exists j | 0 <= j < |db.controles| :: db.controles[j].val.veiculoId == id
  }

  // ---------------------------------------------------------------------
  // Queries
  // ---------------------------------------------------------------------

  function GetUsuarioByEmail(db: Db, email: string): (r: Option<Row<Usuario>>)
    ensures r.Some? ==> r.value in db.usuarios && r.value.val.email == email
    ensures r.None? <==> forall i :: 0 <= i < |db.usuarios| ==> db.usuarios[i].val.email != email
  {
    match FindFirst(db.usuarios, (r: Row<Usuario>) => r.val.email == email)
    case None => None
    case Some(k) => Some(db.usuarios[k])
  }

  function GetUsuarioByMatricula(db: Db, matricula: string): (r: Option<Row<Usuario>>)
    ensures r.Some? ==> r.value in db.usuarios && r.value.val.matricula == matricula
    ensures r.None? <==> forall i :: 0 <= i < |db.usuarios| ==> db.usuarios[i].val.matricula != matricula
  {
    match FindFirst(db.usuarios, (r: Row<Usuario>) => r.val.matricula == matricula)
    case None => None
    case Some(k) => Some(db.usuarios[k])
  }

  function GetVeiculoByPlaca(db: Db, placa: string): (r: Option<Row<Veiculo>>)
    ensures r.Some? ==> r.value in db.veiculos && r.value.val.placa == placa
    ensures r.None? <==> forall i :: 0 <= i < |db.veiculos| ==> db.veiculos[i].val.placa != placa
  {
    match FindFirst(db.veiculos, (r: Row<Veiculo>) => r.val.placa == placa)
    case None => None
    case Some(k) => Some(db.veiculos[k])
  }

  /** Exactly the vehicles whose status is "disponivel". */
  function GetVeiculosDisponiveis(db: Db): (r: Table<Veiculo>)
    ensures forall i :: 0 <= i < |r| ==> r[i] in db.veiculos && r[i].val.status == Disponivel
    ensures forall i :: 0 <= i < |db.veiculos| && db.veiculos[i].val.status == Disponivel ==>
      db.veiculos[i] in r
    ensures Ascending(db.veiculos) ==> Ascending(r)
  {
    Filter(db.veiculos, (v: Row<Veiculo>) => v.val.status == Disponivel)
  }

  /** Exactly the controls of driver `m`. */
  function GetControlesByMotorista(db: Db, m: int): (r: Table<Controle>)
    ensures forall i :: 0 <= i < |r| ==> r[i] in db.controles && r[i].val.motoristaId == m
    ensures forall i :: 0 <= i < |db.controles| && db.controles[i].val.motoristaId == m ==>
      db.controles[i] in r
    ensures Ascending(db.controles) ==> Ascending(r)
  {
    Filter(db.controles, (c: Row<Controle>) => c.val.motoristaId == m)
  }

  /** Exactly the open controls whose driver is `m`. `m` is the filter's
      right-hand side: `None` compiles to `IS NULL`, which no row matches
      because the driver column is NOT NULL. */
  function GetControlesAbertos(db: Db, m: Option<int>): (r: Table<Controle>)
    ensures forall i :: 0 <= i < |r| ==>
      r[i] in db.controles && Some(r[i].val.motoristaId) == m && r[i].val.status == Aberto
    ensures forall i :: (0 <= i < |db.controles| &&
      Some(db.controles[i].val.motoristaId) == m && db.controles[i].val.status == Aberto) ==>
      db.controles[i] in r
    ensures m.None? ==> r == []
    ensures Ascending(db.controles) ==> Ascending(r)
  {
    Filter(db.controles, (c: Row<Controle>) => Some(c.val.motoristaId) == m && c.val.status == Aberto)
  }

  /** Exactly the legs of control `cid`. */
  function GetRotasByControle(db: Db, cid: int): (r: Table<Rota>)
    ensures forall i :: 0 <= i < |r| ==> r[i] in db.rotas && r[i].val.controleUtilizacaoId == cid
    ensures forall i :: 0 <= i < |db.rotas| && db.rotas[i].val.controleUtilizacaoId == cid ==>
      db.rotas[i] in r
    ensures Ascending(db.rotas) ==> Ascending(r)
  {
    Filter(db.rotas, (r: Row<Rota>) => r.val.controleUtilizacaoId == cid)
  }

  /** The vehicle table after `veiculo.status = s` on the vehicle with key
      `id`, if there is one. */
  function WithVehicleStatus(t: Table<Veiculo>, id: int, s: string): (r: Table<Veiculo>)
    ensures |r| == |t|
    ensures forall i :: 0 <= i < |t| ==> r[i].id == t[i].id
    ensures forall i :: 0 <= i < |t| && t[i].id != id ==> r[i] == t[i]
    ensures Ascending(t) ==> forall i :: 0 <= i < |t| && t[i].id == id ==>
      r[i].val == t[i].val.(status := s)
    ensures Get(t, id).None? ==> r == t
    ensures Ascending(t) ==> Ascending(r)
    ensures UniquePlacas(t) ==> UniquePlacas(r)
  {
    match Find(t, id)
    case None => t
    case Some(k) => SetAt(t, k, t[k].val.(status := s))
  }

  // ---------------------------------------------------------------------
  // Partial updates: the loop that assigns each sent field in turn
  // ---------------------------------------------------------------------

  /** Applies the assignments `xs`, first to last, with `f` (one `setattr`). */
  function Fold<R, A>(r: R, xs: seq<A>, f: (R, A) -> R): R
  {
    if |xs| == 0 then r else f(Fold(r, xs[..|xs| - 1], f), xs[|xs| - 1])
  }

  /** One more optional assignment at the end of the list. */
  lemma FoldSnoc<R, A>(r: R, a: seq<A>, p: seq<A>, f: (R, A) -> R)
    requires |p| <= 1
    ensures Fold(r, a + p, f) == if |p| == 0 then Fold(r, a, f) else f(Fold(r, a, f), p[0])
  {
    if |p| == 0 {
      assert a + p == a;
    } else {
      assert (a + p)[..|a + p| - 1] == a;
    }
  }

  // ---- Usuario ----

  /** One `setattr` of a usuario column. */
  function SetUsuarioAttr(u: Usuario, a: UsuarioAssign): Usuario
  {
    match a
    case SetMatricula(x) => u.(matricula := x)
    case SetNome(x) => u.(nome := x)
    case SetEmail(x) => u.(email := x)
    case SetCelular(x) => u.(celular := x)
    case SetUnidade(x) => u.(unidade := x)
    case SetAvatarLink(x) => u.(avatarLink := x)
    case SetUsuarioStatus(x) => u.(status := x)
    case SetPerfil(x) => u.(perfil := x)
  }

  /** Column by column: a sent field replaces the column, an unsent one keeps
      it. The password hash is not in the update record. */
  function PatchUsuario(u: Usuario, upd: UsuarioUpdate): (r: Usuario)
    ensures r.senhaHash == u.senhaHash
  {
    Usuario(Or(upd.matricula, u.matricula), Or(upd.nome, u.nome), Or(upd.email, u.email),
      Or(upd.celular, u.celular), Or(upd.unidade, u.unidade), Or(upd.avatarLink, u.avatarLink),
      Or(upd.status, u.status), Or(upd.perfil, u.perfil), u.senhaHash)
  }

  /** The effect of the assignment, if any, sent for one column. */
  function PatchUsuarioColumn(w: Usuario, upd: UsuarioUpdate, col: UsuarioColumn): Usuario
  {
    match col
    case Matricula => w.(matricula := Or(upd.matricula, w.matricula))
    case Nome => w.(nome := Or(upd.nome, w.nome))
    case Email => w.(email := Or(upd.email, w.email))
    case Celular => w.(celular := Or(upd.celular, w.celular))
    case Unidade => w.(unidade := Or(upd.unidade, w.unidade))
    case AvatarLink => w.(avatarLink := Or(upd.avatarLink, w.avatarLink))
    case UsuarioStatus => w.(status := Or(upd.status, w.status))
    case Perfil => w.(perfil := Or(upd.perfil, w.perfil))
  }

  lemma UsuarioPatchByColumns(u: Usuario, upd: UsuarioUpdate)
    ensures
      var u1 := PatchUsuarioColumn(u, upd, Matricula);
      var u2 := PatchUsuarioColumn(u1, upd, Nome);
      var u3 := PatchUsuarioColumn(u2, upd, Email);
      var u4 := PatchUsuarioColumn(u3, upd, Celular);
      var u5 := PatchUsuarioColumn(u4, upd, Unidade);
      var u6 := PatchUsuarioColumn(u5, upd, AvatarLink);
      var u7 := PatchUsuarioColumn(u6, upd, UsuarioStatus);
      var u8 := PatchUsuarioColumn(u7, upd, Perfil);
      u8 == PatchUsuario(u, upd)
  {
  }

  /** One more iteration of the `setattr` loop, over the pair sent for `col`. */
  lemma UsuarioLoopStep(u: Usuario, a: seq<UsuarioAssign>, upd: UsuarioUpdate, col: UsuarioColumn)
    ensures Fold(u, a + UsuarioSent(upd, col), SetUsuarioAttr) == PatchUsuarioColumn(Fold(u, a, SetUsuarioAttr), upd, col)
  {
    FoldSnoc(u, a, UsuarioSent(upd, col), SetUsuarioAttr);
    match col
    case Matricula =>
      if upd.matricula.Set? {
        assert UsuarioSent(upd, col) == [SetMatricula(upd.matricula.value)];
      } else {
        assert UsuarioSent(upd, col) == [];
      }
    case Nome =>
      if upd.nome.Set? {
        assert UsuarioSent(upd, col) == [SetNome(upd.nome.value)];
      } else {
        assert UsuarioSent(upd, col) == [];
      }
    case Email =>
      if upd.email.Set? {
        assert UsuarioSent(upd, col) == [SetEmail(upd.email.value)];
      } else {
        assert UsuarioSent(upd, col) == [];
      }
    case Celular =>
      if upd.celular.Set? {
        assert UsuarioSent(upd, col) == [SetCelular(upd.celular.value)];
      } else {
        assert UsuarioSent(upd, col) == [];
      }
    case Unidade =>
      if upd.unidade.Set? {
        assert UsuarioSent(upd, col) == [SetUnidade(upd.unidade.value)];
      } else {
        assert UsuarioSent(upd, col) == [];
      }
    case AvatarLink =>
      if upd.avatarLink.Set? {
        assert UsuarioSent(upd, col) == [SetAvatarLink(upd.avatarLink.value)];
      } else {
        assert UsuarioSent(upd, col) == [];
      }
    case UsuarioStatus =>
      if upd.status.Set? {
        assert UsuarioSent(upd, col) == [SetUsuarioStatus(upd.status.value)];
      } else {
        assert UsuarioSent(upd, col) == [];
      }
    case Perfil =>
      if upd.perfil.Set? {
        assert UsuarioSent(upd, col) == [SetPerfil(upd.perfil.value)];
      } else {
        assert UsuarioSent(upd, col) == [];
      }
  }

  /** The `setattr` loop over the sent fields has the column-by-column effect. */
  lemma UsuarioUpdateLoop(u: Usuario, upd: UsuarioUpdate)
    ensures Fold(u, UsuarioUpdateData(upd), SetUsuarioAttr) == PatchUsuario(u, upd)
  {
    var d1 := UsuarioSent(upd, Matricula);
    var d2 := d1 + UsuarioSent(upd, Nome);
    var d3 := d2 + UsuarioSent(upd, Email);
    var d4 := d3 + UsuarioSent(upd, Celular);
    var d5 := d4 + UsuarioSent(upd, Unidade);
    var d6 := d5 + UsuarioSent(upd, AvatarLink);
    var d7 := d6 + UsuarioSent(upd, UsuarioStatus);
    UsuarioLoopStep(u, [], upd, Matricula);
    assert [] + d1 == d1;
    UsuarioLoopStep(u, d1, upd, Nome);
    UsuarioLoopStep(u, d2, upd, Email);
    UsuarioLoopStep(u, d3, upd, Celular);
    UsuarioLoopStep(u, d4, upd, Unidade);
    UsuarioLoopStep(u, d5, upd, AvatarLink);
    UsuarioLoopStep(u, d6, upd, UsuarioStatus);
    UsuarioLoopStep(u, d7, upd, Perfil);
    UsuarioPatchByColumns(u, upd);
  }

  // ---- Veiculo ----

  /** One `setattr` of a veiculo column. */
  function SetVeiculoAttr(v: Veiculo, a: VeiculoAssign): Veiculo
  {
    match a
    case SetMarca(x) => v.(marca := x)
    case SetModelo(x) => v.(modelo := x)
    case SetPlaca(x) => v.(placa := x)
    case SetAno(x) => v.(ano := x)
    case SetMotor(x) => v.(motor := x)
    case SetTipo(x) => v.(tipo := x)
    case SetVeiculoStatus(x) => v.(status := x)
    case SetImagemLink(x) => v.(imagemLink := x)
  }

  /** Column by column; every vehicle column, `status` included, may be sent. */
  function PatchVeiculo(v: Veiculo, upd: VeiculoUpdate): Veiculo
  {
    Veiculo(Or(upd.marca, v.marca), Or(upd.modelo, v.modelo), Or(upd.placa, v.placa),
      Or(upd.ano, v.ano), Or(upd.motor, v.motor), Or(upd.tipo, v.tipo),
      Or(upd.status, v.status), Or(upd.imagemLink, v.imagemLink))
  }

  /** The effect of the assignment, if any, sent for one column. */
  function PatchVeiculoColumn(w: Veiculo, upd: VeiculoUpdate, col: VeiculoColumn): Veiculo
  {
    match col
    case Marca => w.(marca := Or(upd.marca, w.marca))
    case Modelo => w.(modelo := Or(upd.modelo, w.modelo))
    case Placa => w.(placa := Or(upd.placa, w.placa))
    case Ano => w.(ano := Or(upd.ano, w.ano))
    case Motor => w.(motor := Or(upd.motor, w.motor))
    case Tipo => w.(tipo := Or(upd.tipo, w.tipo))
    case VeiculoStatus => w.(status := Or(upd.status, w.status))
    case ImagemLink => w.(imagemLink := Or(upd.imagemLink, w.imagemLink))
  }

  lemma VeiculoPatchByColumns(v: Veiculo, upd: VeiculoUpdate)
    ensures
      var v1 := PatchVeiculoColumn(v, upd, Marca);
      var v2 := PatchVeiculoColumn(v1, upd, Modelo);
      var v3 := PatchVeiculoColumn(v2, upd, Placa);
      var v4 := PatchVeiculoColumn(v3, upd, Ano);
      var v5 := PatchVeiculoColumn(v4, upd, Motor);
      var v6 := PatchVeiculoColumn(v5, upd, Tipo);
      var v7 := PatchVeiculoColumn(v6, upd, VeiculoStatus);
      var v8 := PatchVeiculoColumn(v7, upd, ImagemLink);
      v8 == PatchVeiculo(v, upd)
  {
  }

  /** One more iteration of the `setattr` loop, over the pair sent for `col`. */
  lemma VeiculoLoopStep(v: Veiculo, a: seq<VeiculoAssign>, upd: VeiculoUpdate, col: VeiculoColumn)
    ensures Fold(v, a + VeiculoSent(upd, col), SetVeiculoAttr) == PatchVeiculoColumn(Fold(v, a, SetVeiculoAttr), upd, col)
  {
    FoldSnoc(v, a, VeiculoSent(upd, col), SetVeiculoAttr);
    match col
    case Marca =>
      if upd.marca.Set? {
        assert VeiculoSent(upd, col) == [SetMarca(upd.marca.value)];
      } else {
        assert VeiculoSent(upd, col) == [];
      }
    case Modelo =>
      if upd.modelo.Set? {
        assert VeiculoSent(upd, col) == [SetModelo(upd.modelo.value)];
      } else {
        assert VeiculoSent(upd, col) == [];
      }
    case Placa =>
      if upd.placa.Set? {
        assert VeiculoSent(upd, col) == [SetPlaca(upd.placa.value)];
      } else {
        assert VeiculoSent(upd, col) == [];
      }
    case Ano =>
      if upd.ano.Set? {
        assert VeiculoSent(upd, col) == [SetAno(upd.ano.value)];
      } else {
        assert VeiculoSent(upd, col) == [];
      }
    case Motor =>
      if upd.motor.Set? {
        assert VeiculoSent(upd, col) == [SetMotor(upd.motor.value)];
      } else {
        assert VeiculoSent(upd, col) == [];
      }
    case Tipo =>
      if upd.tipo.Set? {
        assert VeiculoSent(upd, col) == [SetTipo(upd.tipo.value)];
      } else {
        assert VeiculoSent(upd, col) == [];
      }
    case VeiculoStatus =>
      if upd.status.Set? {
        assert VeiculoSent(upd, col) == [SetVeiculoStatus(upd.status.value)];
      } else {
        assert VeiculoSent(upd, col) == [];
      }
    case ImagemLink =>
      if upd.imagemLink.Set? {
        assert VeiculoSent(upd, col) == [SetImagemLink(upd.imagemLink.value)];
      } else {
        assert VeiculoSent(upd, col) == [];
      }
  }

  /** The `setattr` loop over the sent fields has the column-by-column effect. */
  lemma VeiculoUpdateLoop(v: Veiculo, upd: VeiculoUpdate)
    ensures Fold(v, VeiculoUpdateData(upd), SetVeiculoAttr) == PatchVeiculo(v, upd)
  {
    var d1 := VeiculoSent(upd, Marca);
    var d2 := d1 + VeiculoSent(upd, Modelo);
    var d3 := d2 + VeiculoSent(upd, Placa);
    var d4 := d3 + VeiculoSent(upd, Ano);
    var d5 := d4 + VeiculoSent(upd, Motor);
    var d6 := d5 + VeiculoSent(upd, Tipo);
    var d7 := d6 + VeiculoSent(upd, VeiculoStatus);
    VeiculoLoopStep(v, [], upd, Marca);
    assert [] + d1 == d1;
    VeiculoLoopStep(v, d1, upd, Modelo);
    VeiculoLoopStep(v, d2, upd, Placa);
    VeiculoLoopStep(v, d3, upd, Ano);
    VeiculoLoopStep(v, d4, upd, Motor);
    VeiculoLoopStep(v, d5, upd, Tipo);
    VeiculoLoopStep(v, d6, upd, VeiculoStatus);
    VeiculoLoopStep(v, d7, upd, ImagemLink);
    VeiculoPatchByColumns(v, upd);
  }

  // ---- ControleUtilizacaoVeiculo ----

  /** One `setattr` of a usage-control column. */
  function SetControleAttr(c: Controle, a: ControleAssign): Controle
  {
    match a
    case SetKmFinal(x) => c.(kmFinal := x)
    case SetDataFim(x) => c.(dataFim := x)
    case SetAssinatura(x) => c.(assinaturaEletronica := x)
    case SetControleStatus(x) => c.(status := x)
  }

  /** Column by column. Driver, vehicle, start time and start odometer are not
      in the update record, so no update changes them. */
  function PatchControle(c: Controle, upd: ControleUpdate): (r: Controle)
    ensures r.motoristaId == c.motoristaId && r.veiculoId == c.veiculoId
    ensures r.dataInicio == c.dataInicio && r.kmInicial == c.kmInicial
  {
    c.(kmFinal := Or(upd.kmFinal, c.kmFinal), dataFim := Or(upd.dataFim, c.dataFim),
       assinaturaEletronica := Or(upd.assinaturaEletronica, c.assinaturaEletronica),
       status := Or(upd.status, c.status))
  }

  /** The effect of the assignment, if any, sent for one column. */
  function PatchControleColumn(w: Controle, upd: ControleUpdate, col: ControleColumn): Controle
  {
    match col
    case KmFinal => w.(kmFinal := Or(upd.kmFinal, w.kmFinal))
    case DataFim => w.(dataFim := Or(upd.dataFim, w.dataFim))
    case Assinatura => w.(assinaturaEletronica := Or(upd.assinaturaEletronica, w.assinaturaEletronica))
    case ControleStatus => w.(status := Or(upd.status, w.status))
  }

  lemma ControlePatchByColumns(c: Controle, upd: ControleUpdate)
    ensures
      var c1 := PatchControleColumn(c, upd, KmFinal);
      var c2 := PatchControleColumn(c1, upd, DataFim);
      var c3 := PatchControleColumn(c2, upd, Assinatura);
      var c4 := PatchControleColumn(c3, upd, ControleStatus);
      c4 == PatchControle(c, upd)
  {
  }

  /** One more iteration of the `setattr` loop, over the pair sent for `col`. */
  lemma ControleLoopStep(c: Controle, a: seq<ControleAssign>, upd: ControleUpdate, col: ControleColumn)
    ensures Fold(c, a + ControleSent(upd, col), SetControleAttr) == PatchControleColumn(Fold(c, a, SetControleAttr), upd, col)
  {
    FoldSnoc(c, a, ControleSent(upd, col), SetControleAttr);
    match col
    case KmFinal =>
      if upd.kmFinal.Set? {
        assert ControleSent(upd, col) == [SetKmFinal(upd.kmFinal.value)];
      } else {
        assert ControleSent(upd, col) == [];
      }
    case DataFim =>
      if upd.dataFim.Set? {
        assert ControleSent(upd, col) == [SetDataFim(upd.dataFim.value)];
      } else {
        assert ControleSent(upd, col) == [];
      }
    case Assinatura =>
      if upd.assinaturaEletronica.Set? {
        assert ControleSent(upd, col) == [SetAssinatura(upd.assinaturaEletronica.value)];
      } else {
        assert ControleSent(upd, col) == [];
      }
    case ControleStatus =>
      if upd.status.Set? {
        assert ControleSent(upd, col) == [SetControleStatus(upd.status.value)];
      } else {
        assert ControleSent(upd, col) == [];
      }
  }

  /** The `setattr` loop over the sent fields has the column-by-column effect. */
  lemma ControleUpdateLoop(c: Controle, upd: ControleUpdate)
    ensures Fold(c, ControleUpdateData(upd), SetControleAttr) == PatchControle(c, upd)
  {
    var d1 := ControleSent(upd, KmFinal);
    var d2 := d1 + ControleSent(upd, DataFim);
    var d3 := d2 + ControleSent(upd, Assinatura);
    ControleLoopStep(c, [], upd, KmFinal);
    assert [] + d1 == d1;
    ControleLoopStep(c, d1, upd, DataFim);
    ControleLoopStep(c, d2, upd, Assinatura);
    ControleLoopStep(c, d3, upd, ControleStatus);
    ControlePatchByColumns(c, upd);
  }

  // ---- Rota ----

  /** One `setattr` of a rota column. */
  function SetRotaAttr(r: Rota, a: RotaAssign): Rota
  {
    match a
    case SetDataHoraSaida(x) => r.(dataHoraSaida := x)
    case SetKmSaida(x) => r.(kmSaida := x)
    case SetLogradouroSaida(x) => r.(logradouroSaida := x)
    case SetLatitudeSaida(x) => r.(latitudeSaida := x)
    case SetLongitudeSaida(x) => r.(longitudeSaida := x)
    case SetDataHoraChegada(x) => r.(dataHoraChegada := x)
    case SetKmChegada(x) => r.(kmChegada := x)
    case SetLogradouroChegada(x) => r.(logradouroChegada := x)
    case SetLatitudeChegada(x) => r.(latitudeChegada := x)
    case SetLongitudeChegada(x) => r.(longitudeChegada := x)
  }

  /** Column by column. The parent control is not in the update record, so
      no update moves a leg to another control. */
  function PatchRota(r: Rota, upd: RotaUpdate): (p: Rota)
    ensures p.controleUtilizacaoId == r.controleUtilizacaoId
  {
    Rota(r.controleUtilizacaoId, Or(upd.dataHoraSaida, r.dataHoraSaida), Or(upd.kmSaida, r.kmSaida),
      Or(upd.logradouroSaida, r.logradouroSaida), Or(upd.latitudeSaida, r.latitudeSaida),
      Or(upd.longitudeSaida, r.longitudeSaida), Or(upd.dataHoraChegada, r.dataHoraChegada),
      Or(upd.kmChegada, r.kmChegada), Or(upd.logradouroChegada, r.logradouroChegada),
      Or(upd.latitudeChegada, r.latitudeChegada), Or(upd.longitudeChegada, r.longitudeChegada))
  }

  /** The effect of the assignment, if any, sent for one column. */
  function PatchRotaColumn(w: Rota, upd: RotaUpdate, col: RotaColumn): Rota
  {
    match col
    case DataHoraSaida => w.(dataHoraSaida := Or(upd.dataHoraSaida, w.dataHoraSaida))
    case KmSaida => w.(kmSaida := Or(upd.kmSaida, w.kmSaida))
    case LogradouroSaida => w.(logradouroSaida := Or(upd.logradouroSaida, w.logradouroSaida))
    case LatitudeSaida => w.(latitudeSaida := Or(upd.latitudeSaida, w.latitudeSaida))
    case LongitudeSaida => w.(longitudeSaida := Or(upd.longitudeSaida, w.longitudeSaida))
    case DataHoraChegada => w.(dataHoraChegada := Or(upd.dataHoraChegada, w.dataHoraChegada))
    case KmChegada => w.(kmChegada := Or(upd.kmChegada, w.kmChegada))
    case LogradouroChegada => w.(logradouroChegada := Or(upd.logradouroChegada, w.logradouroChegada))
    case LatitudeChegada => w.(latitudeChegada := Or(upd.latitudeChegada, w.latitudeChegada))
    case LongitudeChegada => w.(longitudeChegada := Or(upd.longitudeChegada, w.longitudeChegada))
  }

  lemma RotaPatchByColumns(r: Rota, upd: RotaUpdate)
    ensures
      var r1 := PatchRotaColumn(r, upd, DataHoraSaida);
      var r2 := PatchRotaColumn(r1, upd, KmSaida);
      var r3 := PatchRotaColumn(r2, upd, LogradouroSaida);
      var r4 := PatchRotaColumn(r3, upd, LatitudeSaida);
      var r5 := PatchRotaColumn(r4, upd, LongitudeSaida);
      var r6 := PatchRotaColumn(r5, upd, DataHoraChegada);
      var r7 := PatchRotaColumn(r6, upd, KmChegada);
      var r8 := PatchRotaColumn(r7, upd, LogradouroChegada);
      var r9 := PatchRotaColumn(r8, upd, LatitudeChegada);
      var r10 := PatchRotaColumn(r9, upd, LongitudeChegada);
      r10 == PatchRota(r, upd)
  {
  }

  /** One more iteration of the `setattr` loop, over the pair sent for `col`. */
  lemma RotaLoopStep(r: Rota, a: seq<RotaAssign>, upd: RotaUpdate, col: RotaColumn)
    ensures Fold(r, a + RotaSent(upd, col), SetRotaAttr) == PatchRotaColumn(Fold(r, a, SetRotaAttr), upd, col)
  {
    FoldSnoc(r, a, RotaSent(upd, col), SetRotaAttr);
    match col
    case DataHoraSaida =>
      if upd.dataHoraSaida.Set? {
        assert RotaSent(upd, col) == [SetDataHoraSaida(upd.dataHoraSaida.value)];
      } else {
        assert RotaSent(upd, col) == [];
      }
    case KmSaida =>
      if upd.kmSaida.Set? {
        assert RotaSent(upd, col) == [SetKmSaida(upd.kmSaida.value)];
      } else {
        assert RotaSent(upd, col) == [];
      }
    case LogradouroSaida =>
      if upd.logradouroSaida.Set? {
        assert RotaSent(upd, col) == [SetLogradouroSaida(upd.logradouroSaida.value)];
      } else {
        assert RotaSent(upd, col) == [];
      }
    case LatitudeSaida =>
      if upd.latitudeSaida.Set? {
        assert RotaSent(upd, col) == [SetLatitudeSaida(upd.latitudeSaida.value)];
      } else {
        assert RotaSent(upd, col) == [];
      }
    case LongitudeSaida =>
      if upd.longitudeSaida.Set? {
        assert RotaSent(upd, col) == [SetLongitudeSaida(upd.longitudeSaida.value)];
      } else {
        assert RotaSent(upd, col) == [];
      }
    case DataHoraChegada =>
      if upd.dataHoraChegada.Set? {
        assert RotaSent(upd, col) == [SetDataHoraChegada(upd.dataHoraChegada.value)];
      } else {
        assert RotaSent(upd, col) == [];
      }
    case KmChegada =>
      if upd.kmChegada.Set? {
        assert RotaSent(upd, col) == [SetKmChegada(upd.kmChegada.value)];
      } else {
        assert RotaSent(upd, col) == [];
      }
    case LogradouroChegada =>
      if upd.logradouroChegada.Set? {
        assert RotaSent(upd, col) == [SetLogradouroChegada(upd.logradouroChegada.value)];
      } else {
        assert RotaSent(upd, col) == [];
      }
    case LatitudeChegada =>
      if upd.latitudeChegada.Set? {
        assert RotaSent(upd, col) == [SetLatitudeChegada(upd.latitudeChegada.value)];
      } else {
        assert RotaSent(upd, col) == [];
      }
    case LongitudeChegada =>
      if upd.longitudeChegada.Set? {
        assert RotaSent(upd, col) == [SetLongitudeChegada(upd.longitudeChegada.value)];
      } else {
        assert RotaSent(upd, col) == [];
      }
  }

  /** The `setattr` loop over the sent fields has the column-by-column effect. */
  lemma RotaUpdateLoop(r: Rota, upd: RotaUpdate)
    ensures Fold(r, RotaUpdateData(upd), SetRotaAttr) == PatchRota(r, upd)
  {
    var d1 := RotaSent(upd, DataHoraSaida);
    var d2 := d1 + RotaSent(upd, KmSaida);
    var d3 := d2 + RotaSent(upd, LogradouroSaida);
    var d4 := d3 + RotaSent(upd, LatitudeSaida);
    var d5 := d4 + RotaSent(upd, LongitudeSaida);
    var d6 := d5 + RotaSent(upd, DataHoraChegada);
    var d7 := d6 + RotaSent(upd, KmChegada);
    var d8 := d7 + RotaSent(upd, LogradouroChegada);
    var d9 := d8 + RotaSent(upd, LatitudeChegada);
    RotaLoopStep(r, [], upd, DataHoraSaida);
    assert [] + d1 == d1;
    RotaLoopStep(r, d1, upd, KmSaida);
    RotaLoopStep(r, d2, upd, LogradouroSaida);
    RotaLoopStep(r, d3, upd, LatitudeSaida);
    RotaLoopStep(r, d4, upd, LongitudeSaida);
    RotaLoopStep(r, d5, upd, DataHoraChegada);
    RotaLoopStep(r, d6, upd, KmChegada);
    RotaLoopStep(r, d7, upd, LogradouroChegada);
    RotaLoopStep(r, d8, upd, LatitudeChegada);
    RotaLoopStep(r, d9, upd, LongitudeChegada);
    RotaPatchByColumns(r, upd);
  }

  // ---------------------------------------------------------------------
  // The operations as functions of the store
  // ---------------------------------------------------------------------

  /** The row `create_usuario` builds: the create record's columns and the
      hash of its password (`hash` stands for `get_password_hash`). */
  function NewUsuario(u: UsuarioCreate, hash: string -> string): Usuario
  {
    Usuario(u.matricula, u.nome, u.email, u.celular, u.unidade, u.avatarLink, u.status, u.perfil, hash(u.senha))
  }

  /** `create_usuario`: the commit fails (500) when the new row repeats an
      email or matrícula; otherwise the row is stored under a fresh key. */
  function CreateUsuarioOutcome(db: Db, u: UsuarioCreate, hash: string -> string): Outcome<Result<Row<Usuario>>>
  {
    var x := NewUsuario(u, hash);
    if UsuarioClash(db.usuarios, -1, x) then Outcome(Err(ServerError), db)
    else
      var t := Insert(db.usuarios, x);
      Outcome(Ok(t[|t| - 1]), db.(usuarios := t))
  }

  /** `update_usuario`: `Ok(None)` for a missing key; otherwise the sent columns
      are written, and the commit fails (500) on a repeated email or matrícula. */
  function UpdateUsuarioOutcome(db: Db, id: int, upd: UsuarioUpdate): Outcome<Result<Option<Row<Usuario>>>>
  {
    match Find(db.usuarios, id)
    case None => Outcome(Ok(None), db)
    case Some(k) =>
      var x := PatchUsuario(db.usuarios[k].val, upd);
      if UsuarioClash(db.usuarios, k, x) then Outcome(Err(ServerError), db)
      else Outcome(Ok(Some(Row(id, x))), db.(usuarios := SetAt(db.usuarios, k, x)))
  }

  /** `delete_usuario`: `Ok(false)` for a missing key. Deleting a driver that a
      control refers to fails (500): the ORM would null the control's NOT NULL
      driver column. */
  function DeleteUsuarioOutcome(db: Db, id: int): Outcome<Result<bool>>
  {
    match Find(db.usuarios, id)
    case None => Outcome(Ok(false), db)
    case Some(k) =>
      if DriverReferenced(db, id) then Outcome(Err(ServerError), db)
      else Outcome(Ok(true), db.(usuarios := RemoveAt(db.usuarios, k)))
  }

  /** The row `create_veiculo` builds: every column of the create record. */
  function NewVeiculo(v: VeiculoCreate): Veiculo
  {
    Veiculo(v.marca, v.modelo, v.placa, v.ano, v.motor, v.tipo, v.status, v.imagemLink)
  }

  function CreateVeiculoOutcome(db: Db, v: VeiculoCreate): Outcome<Result<Row<Veiculo>>>
  {
    var x := NewVeiculo(v);
    if PlacaClash(db.veiculos, -1, x) then Outcome(Err(ServerError), db)
    else
      var t := Insert(db.veiculos, x);
      Outcome(Ok(t[|t| - 1]), db.(veiculos := t))
  }

  function UpdateVeiculoOutcome(db: Db, id: int, upd: VeiculoUpdate): Outcome<Result<Option<Row<Veiculo>>>>
  {
    match Find(db.veiculos, id)
    case None => Outcome(Ok(None), db)
    case Some(k) =>
      var x := PatchVeiculo(db.veiculos[k].val, upd);
      if PlacaClash(db.veiculos, k, x) then Outcome(Err(ServerError), db)
      else Outcome(Ok(Some(Row(id, x))), db.(veiculos := SetAt(db.veiculos, k, x)))
  }

  function DeleteVeiculoOutcome(db: Db, id: int): Outcome<Result<bool>>
  {
    match Find(db.veiculos, id)
    case None => Outcome(Ok(false), db)
    case Some(k) =>
      if VehicleReferenced(db, id) then Outcome(Err(ServerError), db)
      else Outcome(Ok(true), db.(veiculos := RemoveAt(db.veiculos, k)))
  }

  /** The row `create_controle` builds: the caller as driver and every column
      of the create record, its `status` included. */
  function NewControle(c: ControleCreate, motoristaId: int): Controle
  {
    Controle(motoristaId, c.veiculoId, c.dataInicio, c.kmInicial, c.kmFinal, c.dataFim,
      c.assinaturaEletronica, c.status)
  }

  /** `create_controle`: the control is stored and, in the same commit, its
      vehicle (if the key exists) is marked "em_uso". Foreign keys are not
      enforced, so nothing here can fail. */
  function CreateControleOutcome(db: Db, c: ControleCreate, motoristaId: int): Outcome<Row<Controle>>
  {
    var t := Insert(db.controles, NewControle(c, motoristaId));
    Outcome(t[|t| - 1], db.(controles := t, veiculos := WithVehicleStatus(db.veiculos, c.veiculoId, EmUso)))
  }

  /** The update asks for status "finalizado" (`controle_update.status == "finalizado"`). */
  predicate Finalizes(upd: ControleUpdate)
  {
    upd.status == Set(Finalizado)
  }

  /** `update_controle`: the sent columns are written and, only when the update
      sets the status to "finalizado", the control's vehicle is made "disponivel". */
  function UpdateControleOutcome(db: Db, id: int, upd: ControleUpdate): Outcome<Option<Row<Controle>>>
  {
    match Find(db.controles, id)
    case None => Outcome(None, db)
    case Some(k) =>
      var x := PatchControle(db.controles[k].val, upd);
      var vs := if Finalizes(upd) then WithVehicleStatus(db.veiculos, x.veiculoId, Disponivel) else db.veiculos;
      Outcome(Some(Row(id, x)), db.(controles := SetAt(db.controles, k, x), veiculos := vs))
  }

  /** The row `create_rota` builds: every column of the create record. */
  function NewRota(r: RotaCreate): Rota
  {
    Rota(r.controleUtilizacaoId, r.dataHoraSaida, r.kmSaida, r.logradouroSaida, r.latitudeSaida,
      r.longitudeSaida, r.dataHoraChegada, r.kmChegada, r.logradouroChegada, r.latitudeChegada,
      r.longitudeChegada)
  }

  function CreateRotaOutcome(db: Db, r: RotaCreate): Outcome<Row<Rota>>
  {
    var t := Insert(db.rotas, NewRota(r));
    Outcome(t[|t| - 1], db.(rotas := t))
  }

  function UpdateRotaOutcome(db: Db, id: int, upd: RotaUpdate): Outcome<Option<Row<Rota>>>
  {
    match Find(db.rotas, id)
    case None => Outcome(None, db)
    case Some(k) =>
      var x := PatchRota(db.rotas[k].val, upd);
      Outcome(Some(Row(id, x)), db.(rotas := SetAt(db.rotas, k, x)))
  }

  function DeleteRotaOutcome(db: Db, id: int): Outcome<bool>
  {
    match Find(db.rotas, id)
    case None => Outcome(false, db)
    case Some(k) => Outcome(true, db.(rotas := RemoveAt(db.rotas, k)))
  }

  // ---------------------------------------------------------------------
  // The mutable store and the operations that change it
  // ---------------------------------------------------------------------

  /** The session's view of the database: the four tables, which the
      operations below update in place. */
  class Store {
    var usuarios: Table<Usuario>
    var veiculos: Table<Veiculo>
    var controles: Table<Controle>
    var rotas: Table<Rota>

    /** An empty database. */
    constructor()
      ensures State() == Db([], [], [], [])
    {
      usuarios, veiculos, controles, rotas := [], [], [], [];
    }

    /** The store's current contents as a value. */
    function State(): Db
      reads this
    {
      Db(usuarios, veiculos, controles, rotas)
    }
  }

  method CreateUsuario(db: Store, u: UsuarioCreate, hash: string -> string) returns (r: Result<Row<Usuario>>)
    modifies db
    ensures Outcome(r, db.State()) == CreateUsuarioOutcome(old(db.State()), u, hash)
  {
    var x := NewUsuario(u, hash);
    if UsuarioClash(db.usuarios, -1, x) {
      return Err(ServerError);
    }
    var row := Row(NextId(db.usuarios), x);
    db.usuarios := db.usuarios + [row];
    r := Ok(row);
  }

  method UpdateUsuario(db: Store, id: int, upd: UsuarioUpdate) returns (r: Result<Option<Row<Usuario>>>)
    modifies db
    ensures Outcome(r, db.State()) == UpdateUsuarioOutcome(old(db.State()), id, upd)
  {
    var k := Find(db.usuarios, id);
    if k.None? {
      return Ok(None);
    }
    var orig := db.usuarios[k.value].val;
    var data := UsuarioUpdateData(upd);
    var x := orig;
    var n := 0;
    while n < |data|
      invariant 0 <= n <= |data|
      invariant x == Fold(orig, data[..n], SetUsuarioAttr)
    {
      assert data[..n + 1][..n] == data[..n];
      x := SetUsuarioAttr(x, data[n]);
      n := n + 1;
    }
    assert data[..n] == data;
    UsuarioUpdateLoop(orig, upd);
    if UsuarioClash(db.usuarios, k.value, x) {
      return Err(ServerError);
    }
    db.usuarios := db.usuarios[k.value := Row(id, x)];
    r := Ok(Some(Row(id, x)));
  }

  method DeleteUsuario(db: Store, id: int) returns (r: Result<bool>)
    modifies db
    ensures Outcome(r, db.State()) == DeleteUsuarioOutcome(old(db.State()), id)
  {
    var k := Find(db.usuarios, id);
    if k.None? {
      return Ok(false);
    }
    if DriverReferenced(db.State(), id) {
      return Err(ServerError);
    }
    db.usuarios := db.usuarios[..k.value] + db.usuarios[k.value + 1..];
    r := Ok(true);
  }

  method CreateVeiculo(db: Store, v: VeiculoCreate) returns (r: Result<Row<Veiculo>>)
    modifies db
    ensures Outcome(r, db.State()) == CreateVeiculoOutcome(old(db.State()), v)
  {
    var x := NewVeiculo(v);
    if PlacaClash(db.veiculos, -1, x) {
      return Err(ServerError);
    }
    var row := Row(NextId(db.veiculos), x);
    db.veiculos := db.veiculos + [row];
    r := Ok(row);
  }

  method UpdateVeiculo(db: Store, id: int, upd: VeiculoUpdate) returns (r: Result<Option<Row<Veiculo>>>)
    modifies db
    ensures Outcome(r, db.State()) == UpdateVeiculoOutcome(old(db.State()), id, upd)
  {
    var k := Find(db.veiculos, id);
    if k.None? {
      return Ok(None);
    }
    var orig := db.veiculos[k.value].val;
    var data := VeiculoUpdateData(upd);
    var x := orig;
    var n := 0;
    while n < |data|
      invariant 0 <= n <= |data|
      invariant x == Fold(orig, data[..n], SetVeiculoAttr)
    {
      assert data[..n + 1][..n] == data[..n];
      x := SetVeiculoAttr(x, data[n]);
      n := n + 1;
    }
    assert data[..n] == data;
    VeiculoUpdateLoop(orig, upd);
    if PlacaClash(db.veiculos, k.value, x) {
      return Err(ServerError);
    }
    db.veiculos := db.veiculos[k.value := Row(id, x)];
    r := Ok(Some(Row(id, x)));
  }

  method DeleteVeiculo(db: Store, id: int) returns (r: Result<bool>)
    modifies db
    ensures Outcome(r, db.State()) == DeleteVeiculoOutcome(old(db.State()), id)
  {
    var k := Find(db.veiculos, id);
    if k.None? {
      return Ok(false);
    }
    if VehicleReferenced(db.State(), id) {
      return Err(ServerError);
    }
    db.veiculos := db.veiculos[..k.value] + db.veiculos[k.value + 1..];
    r := Ok(true);
  }

  /** `veiculo.status = s` on the vehicle with key `id`, if there is one. */
  method SetVehicleStatus(db: Store, id: int, s: string)
    modifies db
    ensures db.State() == old(db.State()).(veiculos := WithVehicleStatus(old(db.veiculos), id, s))
  {
    var k := Find(db.veiculos, id);
    if k.Some? {
      db.veiculos := db.veiculos[k.value := Row(id, db.veiculos[k.value].val.(status := s))];
    }
  }

  method CreateControle(db: Store, c: ControleCreate, motoristaId: int) returns (r: Row<Controle>)
    modifies db
    ensures Outcome(r, db.State()) == CreateControleOutcome(old(db.State()), c, motoristaId)
  {
    r := Row(NextId(db.controles), NewControle(c, motoristaId));
    db.controles := db.controles + [r];
    SetVehicleStatus(db, c.veiculoId, EmUso);
  }

  method UpdateControle(db: Store, id: int, upd: ControleUpdate) returns (r: Option<Row<Controle>>)
    modifies db
    ensures Outcome(r, db.State()) == UpdateControleOutcome(old(db.State()), id, upd)
  {
    var k := Find(db.controles, id);
    if k.None? {
      return None;
    }
    var orig := db.controles[k.value].val;
    var data := ControleUpdateData(upd);
    var x := orig;
    var n := 0;
    while n < |data|
      invariant 0 <= n <= |data|
      invariant x == Fold(orig, data[..n], SetControleAttr)
    {
      assert data[..n + 1][..n] == data[..n];
      x := SetControleAttr(x, data[n]);
      n := n + 1;
    }
    assert data[..n] == data;
    ControleUpdateLoop(orig, upd);
    db.controles := db.controles[k.value := Row(id, x)];
    if upd.status == Set(Finalizado) {
      SetVehicleStatus(db, x.veiculoId, Disponivel);
    }
    r := Some(Row(id, x));
  }

  method CreateRota(db: Store, rc: RotaCreate) returns (r: Row<Rota>)
    modifies db
    ensures Outcome(r, db.State()) == CreateRotaOutcome(old(db.State()), rc)
  {
    r := Row(NextId(db.rotas), NewRota(rc));
    db.rotas := db.rotas + [r];
  }

  method UpdateRota(db: Store, id: int, upd: RotaUpdate) returns (r: Option<Row<Rota>>)
    modifies db
    ensures Outcome(r, db.State()) == UpdateRotaOutcome(old(db.State()), id, upd)
  {
    var k := Find(db.rotas, id);
    if k.None? {
      return None;
    }
    var orig := db.rotas[k.value].val;
    var data := RotaUpdateData(upd);
    var x := orig;
    var n := 0;
    while n < |data|
      invariant 0 <= n <= |data|
      invariant x == Fold(orig, data[..n], SetRotaAttr)
    {
      assert data[..n + 1][..n] == data[..n];
      x := SetRotaAttr(x, data[n]);
      n := n + 1;
    }
    assert data[..n] == data;
    RotaUpdateLoop(orig, upd);
    db.rotas := db.rotas[k.value := Row(id, x)];
    r := Some(Row(id, x));
  }

  method DeleteRota(db: Store, id: int) returns (r: bool)
    modifies db
    ensures Outcome(r, db.State()) == DeleteRotaOutcome(old(db.State()), id)
  {
    var k := Find(db.rotas, id);
    if k.None? {
      return false;
    }
    db.rotas := db.rotas[..k.value] + db.rotas[k.value + 1..];
    r := true;
  }
}
