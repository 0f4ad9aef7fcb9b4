/** The user endpoints: authentication of a request, the admin gate,
    registration and login, the permission-filtered reads, the admin-only
    mutations, and the checks in front of the avatar upload and removal.
    Every handler behind `get_current_user` is given the `caller` row that
    `CurrentUser` returned; when that fails, the request is answered 401
    before the handler runs. */
module Users {
  import opened Wrappers
  import opened Tables
  import opened Models
  import opened Schemas
  import opened Crud
  import opened CrudLemmas

  predicate IsAdmin(u: Row<Usuario>) { u.val.perfil == Admin }

  predicate IsAdminOrGestor(u: Row<Usuario>) { u.val.perfil == Admin || u.val.perfil == Gestor }

  /** `get_current_user`. `subject` is what `verify_token` made of the bearer
      token: `None` for an invalid or expired token. An empty subject is
      refused like a missing one. The account status is NOT checked: an
      inactive or pending user with a valid token is let through. */
  function CurrentUser(db: Db, subject: Option<string>): (r: Result<Row<Usuario>>)
    ensures r.Err? ==> r.error == Unauthenticated
    ensures r.Ok? ==> r.value in db.usuarios && subject == Some(r.value.val.email)
    ensures r.Ok? <==> (subject.Some? && subject.value != "" &&
      exists i :: 0 <= i < |db.usuarios| && db.usuarios[i].val.email == subject.value)
  {
    if subject.None? || subject.value == "" then Err(Unauthenticated)
    else match GetUsuarioByEmail(db, subject.value)
      case None => Err(Unauthenticated)
      case Some(u) => Ok(u)
  }

  /** `get_admin_user`: only profile "admin" passes. */
  function AdminUser(caller: Row<Usuario>): (r: Result<Row<Usuario>>)
    ensures r.Ok? <==> caller.val.perfil == Admin
    ensures r.Ok? ==> r.value == caller
    ensures r.Err? ==> r.error == Forbidden
  {
    if caller.val.perfil != Admin then Err(Forbidden) else Ok(caller)
  }

  /** `register_user`: a taken email is refused first, then a taken matrícula. */
  function RegisterOutcome(db: Db, u: UsuarioCreate, hash: string -> string): Outcome<Result<Row<Usuario>>>
  {
    if GetUsuarioByEmail(db, u.email).Some? then Outcome(Err(BadRequest), db)
    else if GetUsuarioByMatricula(db, u.matricula).Some? then Outcome(Err(BadRequest), db)
    else CreateUsuarioOutcome(db, u, hash)
  }

  /** `login_user`. `verify` stands for `verify_password(plain, hash)`. On
      success the result is the token's subject, the user's email. An unknown
      email, a wrong password and an account that is not "ativo" are all 401. */
  function Login(db: Db, email: string, senha: string, verify: (string, string) -> bool): (r: Result<string>)
    ensures r.Err? ==> r.error == Unauthenticated
    ensures r.Ok? ==> (r.value == email &&
      exists i :: 0 <= i < |db.usuarios| && db.usuarios[i].val.email == email &&
        db.usuarios[i].val.status == Ativo && verify(senha, db.usuarios[i].val.senhaHash))
    ensures (forall i :: 0 <= i < |db.usuarios| ==> db.usuarios[i].val.email != email) ==> r.Err?
  {
    match GetUsuarioByEmail(db, email)
    case None => Err(Unauthenticated)
    case Some(u) =>
      if !verify(senha, u.val.senhaHash) then Err(Unauthenticated)
      else if u.val.status != Ativo then Err(Unauthenticated)
      else Ok(u.val.email)
  }

  /** `read_users`: admin and gestor only; a skip/limit page of all users. */
  function ReadUsers(db: Db, caller: Row<Usuario>, skip: nat, limit: nat): (r: Result<Table<Usuario>>)
    ensures r.Ok? <==> IsAdminOrGestor(caller)
    ensures r.Err? ==> r.error == Forbidden
    ensures r.Ok? ==> |r.value| == if skip >= |db.usuarios| then 0 else Min(limit, |db.usuarios| - skip)
    ensures r.Ok? ==> forall i :: 0 <= i < |r.value| ==>
      skip + i < |db.usuarios| && r.value[i] == db.usuarios[skip + i]
  {
    if !IsAdminOrGestor(caller) then Err(Forbidden) else Ok(Page(db.usuarios, skip, limit))
  }

  /** `read_user`: oneself, or anyone for admin and gestor. The permission is
      decided before the lookup, so a refused caller learns nothing about
      whether the key exists. */
  function ReadUser(db: Db, caller: Row<Usuario>, id: int): (r: Result<Row<Usuario>>)
    ensures r == Err(Forbidden) <==> caller.id != id && !IsAdminOrGestor(caller)
    ensures r == Err(NotFound) <==> (caller.id == id || IsAdminOrGestor(caller)) && Get(db.usuarios, id).None?
    ensures r.Ok? ==> r.value in db.usuarios && r.value.id == id
    ensures (caller.id == id || IsAdminOrGestor(caller)) && Get(db.usuarios, id).Some? ==>
              r == Ok(Get(db.usuarios, id).value)
  {
    if caller.id != id && !IsAdminOrGestor(caller) then Err(Forbidden)
    else match Get(db.usuarios, id)
      case None => Err(NotFound)
      case Some(u) => Ok(u)
  }

  /** `update_user`: admin only; a missing key is 404, a failed commit 500. */
  function UpdateUserOutcome(db: Db, caller: Row<Usuario>, id: int, upd: UsuarioUpdate): Outcome<Result<Row<Usuario>>>
  {
    if !IsAdmin(caller) then Outcome(Err(Forbidden), db)
    else
      var o := UpdateUsuarioOutcome(db, id, upd);
      match o.result
      case Err(e) => Outcome(Err(e), o.db)
      case Ok(None) => Outcome(Err(NotFound), o.db)
      case Ok(Some(row)) => Outcome(Ok(row), o.db)
  }

  /** `delete_user`, behind `get_admin_user`: a missing key is 404. */
  function DeleteUserOutcome(db: Db, caller: Row<Usuario>, id: int): Outcome<Result<()>>
  {
    if AdminUser(caller).Err? then Outcome(Err(Forbidden), db)
    else
      var o := DeleteUsuarioOutcome(db, id);
      match o.result
      case Err(e) => Outcome(Err(e), o.db)
      case Ok(false) => Outcome(Err(NotFound), o.db)
      case Ok(true) => Outcome(Ok(()), o.db)
  }

  /** `activate_user` (s = "ativo") and `deactivate_user` (s = "inativo"),
      behind `get_admin_user`: an update that sends only the status. */
  function SetUserStatusOutcome(db: Db, caller: Row<Usuario>, id: int, s: string): Outcome<Result<()>>
  {
    if AdminUser(caller).Err? then Outcome(Err(Forbidden), db)
    else
      var o := UpdateUsuarioOutcome(db, id, UsuarioUpdate(status := Set(s)));
      match o.result
      case Err(e) => Outcome(Err(e), o.db)
      case Ok(None) => Outcome(Err(NotFound), o.db)
      case Ok(Some(_)) => Outcome(Ok(()), o.db)
  }

  /** The content types `upload_avatar` accepts. */
  const AvatarContentTypes: seq<string> := ["image/jpeg", "image/png", "image/gif", "image/bmp", "image/webp"]

  /** The largest accepted avatar: 5 MiB. */
  const MaxAvatarSize: int := 5 * 1024 * 1024

  /** The directory, relative to the project root, the avatar link points into. */
  const AvatarDir: string := "public/avatar/"

  /** `upload_avatar`: the user must exist (checked before the permission),
      the caller must be that user or an admin, the content type one of the
      five accepted and the size at most 5 MiB; then the avatar link is set to
      the stored file's relative path. `fileName` is the generated unique file
      name; writing the file is not modelled. Any failure of the update is 500. */
  function UploadAvatarOutcome(db: Db, caller: Row<Usuario>, id: int, contentType: string, size: int,
                               fileName: string): Outcome<Result<string>>
  {
    if Get(db.usuarios, id).None? then Outcome(Err(NotFound), db)
    else if caller.id != id && !IsAdmin(caller) then Outcome(Err(Forbidden), db)
    else if contentType !in AvatarContentTypes then Outcome(Err(BadRequest), db)
    else if size > MaxAvatarSize then Outcome(Err(BadRequest), db)
    else
      var path := AvatarDir + fileName;
      var o := UpdateUsuarioOutcome(db, id, UsuarioUpdate(avatarLink := Set(Some(path))));
      if o.result.Err? then Outcome(Err(ServerError), o.db) else Outcome(Ok(path), o.db)
  }

  /** `delete_avatar`: the user must exist, then the caller must be that user
      or an admin; the avatar link is cleared. */
  function DeleteAvatarOutcome(db: Db, caller: Row<Usuario>, id: int): Outcome<Result<()>>
  {
    if Get(db.usuarios, id).None? then Outcome(Err(NotFound), db)
    else if caller.id != id && !IsAdmin(caller) then Outcome(Err(Forbidden), db)
    else
      var o := UpdateUsuarioOutcome(db, id, UsuarioUpdate(avatarLink := Set(None)));
      if o.result.Err? then Outcome(Err(ServerError), o.db) else Outcome(Ok(()), o.db)
  }

  // ---------------------------------------------------------------------
  // The handlers on the mutable store
  // ---------------------------------------------------------------------

  method RegisterUser(db: Store, u: UsuarioCreate, hash: string -> string) returns (r: Result<Row<Usuario>>)
    modifies db
    ensures Outcome(r, db.State()) == RegisterOutcome(old(db.State()), u, hash)
  {
    if GetUsuarioByEmail(db.State(), u.email).Some? {
      return Err(BadRequest);
    }
    if GetUsuarioByMatricula(db.State(), u.matricula).Some? {
      return Err(BadRequest);
    }
    r := CreateUsuario(db, u, hash);
  }

  method UpdateUser(db: Store, caller: Row<Usuario>, id: int, upd: UsuarioUpdate) returns (r: Result<Row<Usuario>>)
    modifies db
    ensures Outcome(r, db.State()) == UpdateUserOutcome(old(db.State()), caller, id, upd)
  {
    if !IsAdmin(caller) {
      return Err(Forbidden);
    }
    var u := UpdateUsuario(db, id, upd);
    match u
    case Err(e) => r := Err(e);
    case Ok(None) => r := Err(NotFound);
    case Ok(Some(row)) => r := Ok(row);
  }

  method DeleteUser(db: Store, caller: Row<Usuario>, id: int) returns (r: Result<()>)
    modifies db
    ensures Outcome(r, db.State()) == DeleteUserOutcome(old(db.State()), caller, id)
  {
    if AdminUser(caller).Err? {
      return Err(Forbidden);
    }
    var ok := DeleteUsuario(db, id);
    match ok
    case Err(e) => r := Err(e);
    case Ok(false) => r := Err(NotFound);
    case Ok(true) => r := Ok(());
  }

  method SetUserStatus(db: Store, caller: Row<Usuario>, id: int, s: string) returns (r: Result<()>)
    modifies db
    ensures Outcome(r, db.State()) == SetUserStatusOutcome(old(db.State()), caller, id, s)
  {
    if AdminUser(caller).Err? {
      return Err(Forbidden);
    }
    var u := UpdateUsuario(db, id, UsuarioUpdate(status := Set(s)));
    match u
    case Err(e) => r := Err(e);
    case Ok(None) => r := Err(NotFound);
    case Ok(Some(_)) => r := Ok(());
  }

  method ActivateUser(db: Store, caller: Row<Usuario>, id: int) returns (r: Result<()>)
    modifies db
    ensures Outcome(r, db.State()) == SetUserStatusOutcome(old(db.State()), caller, id, Ativo)
  {
    r := SetUserStatus(db, caller, id, Ativo);
  }

  method DeactivateUser(db: Store, caller: Row<Usuario>, id: int) returns (r: Result<()>)
    modifies db
    ensures Outcome(r, db.State()) == SetUserStatusOutcome(old(db.State()), caller, id, Inativo)
  {
    r := SetUserStatus(db, caller, id, Inativo);
  }

  method UploadAvatar(db: Store, caller: Row<Usuario>, id: int, contentType: string, size: int, fileName: string)
    returns (r: Result<string>)
    modifies db
    ensures Outcome(r, db.State()) == UploadAvatarOutcome(old(db.State()), caller, id, contentType, size, fileName)
  {
    if Get(db.usuarios, id).None? {
      return Err(NotFound);
    }
    if caller.id != id && !IsAdmin(caller) {
      return Err(Forbidden);
    }
    if contentType !in AvatarContentTypes {
      return Err(BadRequest);
    }
    if size > MaxAvatarSize {
      return Err(BadRequest);
    }
    var path := AvatarDir + fileName;
    var u := UpdateUsuario(db, id, UsuarioUpdate(avatarLink := Set(Some(path))));
    r := if u.Err? then Err(ServerError) else Ok(path);
  }

  method DeleteAvatar(db: Store, caller: Row<Usuario>, id: int) returns (r: Result<()>)
    modifies db
    ensures Outcome(r, db.State()) == DeleteAvatarOutcome(old(db.State()), caller, id)
  {
    if Get(db.usuarios, id).None? {
      return Err(NotFound);
    }
    if caller.id != id && !IsAdmin(caller) {
      return Err(Forbidden);
    }
    var u := UpdateUsuario(db, id, UsuarioUpdate(avatarLink := Set(None)));
    r := if u.Err? then Err(ServerError) else Ok(());
  }

  // ---------------------------------------------------------------------
  // Properties
  // ---------------------------------------------------------------------

  /** Registration refuses a taken email before a taken matrícula, never
      reaches a failing commit, and keeps both columns unique. */
  lemma RegisterSpec(db: Db, u: UsuarioCreate, hash: string -> string)
    ensures var o := RegisterOutcome(db, u, hash);
      && ((exists i :: 0 <= i < |db.usuarios| && db.usuarios[i].val.email == u.email) ==>
            o == Outcome(Err(BadRequest), db))
      && ((forall i :: 0 <= i < |db.usuarios| ==> db.usuarios[i].val.email != u.email) &&
          (exists i :: 0 <= i < |db.usuarios| && db.usuarios[i].val.matricula == u.matricula) ==>
            o == Outcome(Err(BadRequest), db))
      && ((forall i :: 0 <= i < |db.usuarios| ==>
            db.usuarios[i].val.email != u.email && db.usuarios[i].val.matricula != u.matricula) ==>
            && o.result.Ok?
            && o.result.value.val == NewUsuario(u, hash)
            && o.db == db.(usuarios := db.usuarios + [o.result.value]))
      && o.result != Err(ServerError)
      && (Valid(db) ==> Valid(o.db))
  {
    CreateUsuarioSpec(db, u, hash);
  }

  /** A user registered with the schema's defaults is a pending driver and
      cannot log in, whatever the password, until an admin activates the
      account. */
  lemma RegisteredUserCannotLogIn(db: Db, matricula: string, nome: string, email: string, senha: string,
                                  hash: string -> string, verify: (string, string) -> bool)
    requires Valid(db)
    ensures var o := RegisterOutcome(db, UsuarioCreate(matricula, nome, email, senha), hash);
      o.result.Ok? ==>
        && o.result.value.val.status == Pendente && o.result.value.val.perfil == Motorista
        && Login(o.db, email, senha, verify) == Err(Unauthenticated)
  {
    var u := UsuarioCreate(matricula, nome, email, senha);
    var o := RegisterOutcome(db, u, hash);
    RegisterSpec(db, u, hash);
    if o.result.Ok? {
      var t := o.db.usuarios;
      assert t[|t| - 1] == o.result.value;
      assert forall i :: 0 <= i < |t| - 1 ==> t[i] == db.usuarios[i];
      assert GetUsuarioByEmail(o.db, email) == Some(o.result.value);
    }
  }

  /** Registration stores the status and profile the client sends: an
      anonymous caller can register an active admin, who logs in at once
      and passes the admin check. */
  lemma SelfRegisteredActiveAdmin(db: Db, matricula: string, nome: string, email: string, senha: string,
                                  hash: string -> string, verify: (string, string) -> bool)
    requires Valid(db) && email != "" && verify(senha, hash(senha))
    requires forall i :: 0 <= i < |db.usuarios| ==>
      db.usuarios[i].val.email != email && db.usuarios[i].val.matricula != matricula
    ensures var o := RegisterOutcome(db, UsuarioCreate(matricula, nome, email, senha, status := Ativo, perfil := Admin), hash);
      && o.result.Ok?
      && Login(o.db, email, senha, verify) == Ok(email)
      && CurrentUser(o.db, Some(email)) == Ok(o.result.value)
      && AdminUser(o.result.value) == Ok(o.result.value)
  {
    var u := UsuarioCreate(matricula, nome, email, senha, status := Ativo, perfil := Admin);
    var o := RegisterOutcome(db, u, hash);
    RegisterSpec(db, u, hash);
    var t := o.db.usuarios;
    assert t[|t| - 1] == o.result.value;
    assert forall i :: 0 <= i < |t| - 1 ==> t[i] == db.usuarios[i];
    assert GetUsuarioByEmail(o.db, email) == Some(o.result.value);
  }

  /** The login gate opens for every stored `ativo` user who gives a password
      matching the stored hash: the token's subject is that user's e-mail. */
  lemma LoginSucceeds(db: Db, k: nat, senha: string, verify: (string, string) -> bool)
    requires Valid(db) && k < |db.usuarios|
    requires db.usuarios[k].val.status == Ativo && verify(senha, db.usuarios[k].val.senhaHash)
    ensures Login(db, db.usuarios[k].val.email, senha, verify) == Ok(db.usuarios[k].val.email)
  {
    EmailLookup(db, k);
  }

  /** Under unique emails, the user found by email is the one holding it. */
  lemma EmailLookup(db: Db, k: nat)
    requires UniqueUsuarioKeys(db.usuarios) && k < |db.usuarios|
    ensures GetUsuarioByEmail(db, db.usuarios[k].val.email) == Some(db.usuarios[k])
  {
    var r := GetUsuarioByEmail(db, db.usuarios[k].val.email);
    var j :| 0 <= j < |db.usuarios| && db.usuarios[j] == r.value;
    assert j == k;
  }

  /** The token a login issues authenticates the same, active, user; except
      that a user whose email is empty can log in but the token's empty
      subject is then refused on every request. */
  lemma LoginAuthenticates(db: Db, email: string, senha: string, verify: (string, string) -> bool)
    ensures Login(db, email, senha, verify).Ok? ==>
      var c := CurrentUser(db, Some(email));
      && (email != "" ==> (c.Ok? && c.value.val.email == email && c.value.val.status == Ativo &&
            verify(senha, c.value.val.senhaHash)))
      && (email == "" ==> c == Err(Unauthenticated))
  {
  }

  /** A write that leaves email and matrícula as they were cannot break their
      uniqueness, so its commit succeeds. */
  lemma UpdateKeepingKeys(db: Db, id: int, upd: UsuarioUpdate)
    requires Valid(db) && Get(db.usuarios, id).Some?
    requires upd.email.Unset? && upd.matricula.Unset?
    ensures var o := UpdateUsuarioOutcome(db, id, upd);
      var row := Row(id, PatchUsuario(Get(db.usuarios, id).value.val, upd));
      && o.result == Ok(Some(row))
      && Get(o.db.usuarios, id) == Some(row)
      && |o.db.usuarios| == |db.usuarios|
      && (forall i :: 0 <= i < |db.usuarios| && db.usuarios[i].id != id ==> o.db.usuarios[i] == db.usuarios[i])
      && o.db == db.(usuarios := o.db.usuarios)
      && Valid(o.db)
  {
    var k := Find(db.usuarios, id).value;
    var t := db.usuarios;
    var x := PatchUsuario(t[k].val, upd);
    forall j | 0 <= j < |t| && j != k
      ensures t[j].val.email != x.email && t[j].val.matricula != x.matricula
    {
      if j < k {
        assert t[j].val.email != t[k].val.email;
      } else {
        assert t[k].val.email != t[j].val.email;
      }
    }
    assert !UsuarioClash(t, k, x);
    UpdateUsuarioSpec(db, id, upd);
  }

  /** A user other than the one with key `id` holds `x`'s e-mail or matrícula. */
  predicate UsuarioTaken(db: Db, id: int, x: Usuario)
  {
    exists j :: 0 <= j < |db.usuarios| && db.usuarios[j].id != id &&
                (db.usuarios[j].val.email == x.email || db.usuarios[j].val.matricula == x.matricula)
  }

  /** `update_user`: a non-admin is refused first, then a missing key; the
      row gets exactly the sent columns; only a failed commit is 500, and it
      changes nothing, and it happens exactly when the patched e-mail or
      matrícula belongs to another user. */
  lemma UpdateUserSpec(db: Db, caller: Row<Usuario>, id: int, upd: UsuarioUpdate)
    ensures var o := UpdateUserOutcome(db, caller, id, upd);
      && (!IsAdmin(caller) ==> o == Outcome(Err(Forbidden), db))
      && (IsAdmin(caller) && Get(db.usuarios, id).None? ==> o == Outcome(Err(NotFound), db))
      && (o.result.Ok? ==> o.result.value == Row(id, PatchUsuario(Get(db.usuarios, id).value.val, upd)))
      && (o.result.Ok? ==>
            && |o.db.usuarios| == |db.usuarios|
            && (forall i :: 0 <= i < |db.usuarios| && db.usuarios[i].id != id ==> o.db.usuarios[i] == db.usuarios[i])
            && (Ascending(db.usuarios) ==> Get(o.db.usuarios, id) == Some(o.result.value))
            && o.db == db.(usuarios := o.db.usuarios))
      && (o.result.Err? ==> o.db == db)
      && (Valid(db) ==> Valid(o.db))
      && (Valid(db) && upd.email.Unset? && upd.matricula.Unset? && IsAdmin(caller) && Get(db.usuarios, id).Some? ==>
            o.result.Ok?)
      && (IsAdmin(caller) && Ascending(db.usuarios) && Get(db.usuarios, id).Some? ==>
            var x := PatchUsuario(Get(db.usuarios, id).value.val, upd);
            && (o.result == Err(ServerError) <==> UsuarioTaken(db, id, x))
            && (o.result.Ok? <==> !UsuarioTaken(db, id, x)))
  {
    UpdateUsuarioSpec(db, id, upd);
    if Valid(db) && upd.email.Unset? && upd.matricula.Unset? && IsAdmin(caller) && Get(db.usuarios, id).Some? {
      UpdateKeepingKeys(db, id, upd);
    }
  }

  /** `delete_user`: a non-admin is refused first, then a missing key; a
      driver referred to by a control cannot be deleted (500); otherwise the
      row is gone and nothing else changes. */
  lemma DeleteUserSpec(db: Db, caller: Row<Usuario>, id: int)
    ensures var o := DeleteUserOutcome(db, caller, id);
      && (!IsAdmin(caller) ==> o == Outcome(Err(Forbidden), db))
      && (IsAdmin(caller) && Get(db.usuarios, id).None? ==> o == Outcome(Err(NotFound), db))
      && (IsAdmin(caller) && Get(db.usuarios, id).Some? ==>
            (o.result == Err(ServerError) <==> DriverReferenced(db, id)))
      && (IsAdmin(caller) && Get(db.usuarios, id).Some? && !DriverReferenced(db, id) ==> o.result == Ok(()))
      && (o.result.Err? ==> o.db == db)
      && (o.result.Ok? ==>
            && o.db == db.(usuarios := o.db.usuarios)
            && |o.db.usuarios| == |db.usuarios| - 1
            && (forall i :: 0 <= i < |o.db.usuarios| ==> o.db.usuarios[i] in db.usuarios)
            && (forall i :: 0 <= i < |db.usuarios| && db.usuarios[i].id != id ==> db.usuarios[i] in o.db.usuarios)
            && (Ascending(db.usuarios) ==> Get(o.db.usuarios, id).None?))
      && (Valid(db) ==> Valid(o.db))
  {
    DeleteUsuarioSpec(db, id);
  }

  /** Activation and deactivation are admin-only, 404 on a missing key, and
      otherwise change the user's status and nothing else. */
  lemma SetUserStatusSpec(db: Db, caller: Row<Usuario>, id: int, s: string)
    requires Valid(db)
    ensures var o := SetUserStatusOutcome(db, caller, id, s);
      && (!IsAdmin(caller) ==> o == Outcome(Err(Forbidden), db))
      && (IsAdmin(caller) && Get(db.usuarios, id).None? ==> o == Outcome(Err(NotFound), db))
      && (IsAdmin(caller) && Get(db.usuarios, id).Some? ==>
            && o.result == Ok(())
            && Get(o.db.usuarios, id) == Some(Row(id, Get(db.usuarios, id).value.val.(status := s)))
            && (forall i :: 0 <= i < |db.usuarios| && db.usuarios[i].id != id ==> o.db.usuarios[i] == db.usuarios[i])
            && o.db == db.(usuarios := o.db.usuarios))
      && Valid(o.db)
  {
    if IsAdmin(caller) {
      UpdateUsuarioSpec(db, id, UsuarioUpdate(status := Set(s)));
      if Get(db.usuarios, id).Some? {
        UpdateKeepingKeys(db, id, UsuarioUpdate(status := Set(s)));
      }
    }
  }

  /** After an admin activates an account, its owner can log in with the
      right password. */
  lemma ActivateEnablesLogin(db: Db, caller: Row<Usuario>, id: int, senha: string, verify: (string, string) -> bool)
    requires Valid(db) && IsAdmin(caller) && Get(db.usuarios, id).Some?
    requires verify(senha, Get(db.usuarios, id).value.val.senhaHash)
    ensures var u := Get(db.usuarios, id).value.val;
      Login(SetUserStatusOutcome(db, caller, id, Ativo).db, u.email, senha, verify) == Ok(u.email)
  {
    var o := SetUserStatusOutcome(db, caller, id, Ativo);
    SetUserStatusSpec(db, caller, id, Ativo);
    var k := Find(o.db.usuarios, id).value;
    EmailLookup(o.db, k);
  }

  /** After an admin deactivates an account, its owner can no longer log in;
      but a token issued before still authenticates, since the current-user
      check does not look at the status. */
  lemma DeactivateBlocksLogin(db: Db, caller: Row<Usuario>, id: int, senha: string, verify: (string, string) -> bool)
    requires Valid(db) && IsAdmin(caller) && Get(db.usuarios, id).Some?
    ensures var u := Get(db.usuarios, id).value.val;
      var after := SetUserStatusOutcome(db, caller, id, Inativo).db;
      && Login(after, u.email, senha, verify) == Err(Unauthenticated)
      && (u.email != "" ==> CurrentUser(after, Some(u.email)) == Ok(Row(id, u.(status := Inativo))))
  {
    var o := SetUserStatusOutcome(db, caller, id, Inativo);
    SetUserStatusSpec(db, caller, id, Inativo);
    var k := Find(o.db.usuarios, id).value;
    EmailLookup(o.db, k);
  }

  /** The avatar upload: 404 before 403 before the two 400s (type, then size);
      a refusal changes nothing; otherwise only the user's avatar link changes,
      to the stored file's path, which is returned. */
  lemma UploadAvatarSpec(db: Db, caller: Row<Usuario>, id: int, contentType: string, size: int, fileName: string)
    requires Valid(db)
    ensures var o := UploadAvatarOutcome(db, caller, id, contentType, size, fileName);
      && (Get(db.usuarios, id).None? ==> o.result == Err(NotFound))
      && (Get(db.usuarios, id).Some? && caller.id != id && !IsAdmin(caller) ==> o.result == Err(Forbidden))
      && (Get(db.usuarios, id).Some? && (caller.id == id || IsAdmin(caller)) ==>
            (contentType !in AvatarContentTypes || size > MaxAvatarSize ==> o.result == Err(BadRequest)))
      && (o.result.Err? ==> o.db == db)
      && (o.result.Ok? <==> (Get(db.usuarios, id).Some? && (caller.id == id || IsAdmin(caller)) &&
            contentType in AvatarContentTypes && size <= MaxAvatarSize))
      && (o.result.Ok? ==>
            && o.result.value == AvatarDir + fileName
            && Get(o.db.usuarios, id) == Some(Row(id, Get(db.usuarios, id).value.val.(avatarLink := Some(AvatarDir + fileName))))
            && |o.db.usuarios| == |db.usuarios|
            && (forall i :: 0 <= i < |db.usuarios| && db.usuarios[i].id != id ==> o.db.usuarios[i] == db.usuarios[i])
            && o.db == db.(usuarios := o.db.usuarios)
            && Valid(o.db))
  {
    if Get(db.usuarios, id).Some? {
      UpdateKeepingKeys(db, id, UsuarioUpdate(avatarLink := Set(Some(AvatarDir + fileName))));
    }
  }

  /** The avatar removal: 404 before 403; otherwise only the avatar link is
      cleared. */
  lemma DeleteAvatarSpec(db: Db, caller: Row<Usuario>, id: int)
    requires Valid(db)
    ensures var o := DeleteAvatarOutcome(db, caller, id);
      && (Get(db.usuarios, id).None? ==> o == Outcome(Err(NotFound), db))
      && (Get(db.usuarios, id).Some? && caller.id != id && !IsAdmin(caller) ==> o == Outcome(Err(Forbidden), db))
      && (Get(db.usuarios, id).Some? && (caller.id == id || IsAdmin(caller)) ==>
            && o.result == Ok(())
            && Get(o.db.usuarios, id) == Some(Row(id, Get(db.usuarios, id).value.val.(avatarLink := None)))
            && |o.db.usuarios| == |db.usuarios|
            && (forall i :: 0 <= i < |db.usuarios| && db.usuarios[i].id != id ==> o.db.usuarios[i] == db.usuarios[i])
            && o.db == db.(usuarios := o.db.usuarios)
            && Valid(o.db))
  {
    if Get(db.usuarios, id).Some? {
      UpdateKeepingKeys(db, id, UsuarioUpdate(avatarLink := Set(None)));
    }
  }
}
