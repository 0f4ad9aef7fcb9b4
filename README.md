# Vehicle-usage control: a Dafny model of the server core

The system is a fleet-usage service. Users register and log in. An admin activates their
accounts and manages the vehicle register. A driver (`motorista`) checks a vehicle out by
opening a *usage control* (`ControleUtilizacaoVeiculo`), records route legs (`Rota`)
under it, optionally geocodes the coordinates of a leg, and finally closes the control by
finalizing it (with the final odometer) or cancelling it.

The model covers the server side of that lifecycle:

- `models.dfy` (`Models`): the four persisted records, with their columns, nullability, defaults and status/profile values.
- `schemas.dfy` (`Schemas`): the request records. An update record is a list of the (column, value) pairs the client actually sent.
- `tables.dfy` (`Tables`): tables as sequences of rows in rowid order, with the ORM's query shapes (`filter().first()`, `filter().all()`, `offset().limit()`, `add`, `delete`).
- `crud.dfy` (`Crud`):
  - the CRUD layer as pure outcome functions over a database value `Db`;
  - the uniqueness constraints that make a commit fail;
  - the `setattr` loop of each partial update, proved equal to a column-by-column patch;
  - the mutable `Store` class, whose methods perform each CRUD operation in place and are proved to produce exactly the outcome function's result and new state.
- `crud_lemmas.dfy` (`CrudLemmas`): what each CRUD operation does. It covers error cases, contents, frames ("nothing else changes"), column defaults, and preservation of the store invariant `Valid` (ascending keys, unique e-mail/matrícula/plate).
- `users.dfy` (`Users`): authentication, registration, login, the user administration handlers, and the permission and validation steps of the avatar handlers.
- `vehicles.dfy` (`Vehicles`): the vehicle register handlers.
- `usage_control.dfy` (`UsageControl`):
  - the usage-control handlers (open, list, read, finalize, cancel);
  - the consistency invariant "a vehicle is `em_uso` exactly when it has an open control, with at most one open control per driver and per vehicle";
  - terminality of closed controls.
- `routes.dfy` (`Routes`): the route handlers, including the geocode handlers.

Each handler has two forms:

- a pure function `XOutcome(db, …)` that returns `Outcome(result, newDb)`;
- a method on a `Store` whose `ensures` ties its result and new state to that function.

The lemmas then state what the function promises. Handler errors are the `Err` values `NotFound` (404), `Forbidden` (403), `BadRequest` (400), `Unauthenticated` (401) and `ServerError` (500, a failed commit).

Inputs the model treats as parameters:

- Password hashing is the parameter `hash`, and password checking is `verify`.
- A bearer token is represented by the e-mail subject it decodes to (an `Option<string>`).
- The current time is a string parameter `now`.
- The reverse geocoder's answer is an `Option<string>` parameter.
- The stored avatar file name is a parameter.

Where the code departs from the intended behaviour, the model follows the code:

- **Opening a control.** Any authenticated user may open one; the profile is not checked (`app/api/usage_control.py:11-33`).
- **The control's status on create.** The status the client sends is stored as given (`app/crud.py:114-118`). `UsageControl.ClientStatusBreaksConsistency` shows that a non-`aberto` status leaves the vehicle `em_uso` with no open control.
- **Finalizing.** Only the owning driver may finalize, so an admin gets 403. The electronic signature is not required.
- **Error codes.** A closed control, a missing or zero final odometer, and a final odometer not above the start all give 400. The code has no distinct conflict code.
- **Cancelling.** A cancel does not release the vehicle (see Findings).
- **Registration.** Registration stores the status and profile the client sends (`app/schemas.py:13-14`, `app/crud.py:33-34`). An anonymous caller can therefore register an active admin who logs in at once (`Users.SelfRegisteredActiveAdmin`).
- **Account status.** `get_current_user` does not check it: a pending or inactive user with a valid token is served. Login refuses any status other than `ativo`.
- **Commit failures.** A user update or vehicle update that clashes with a unique column fails its commit, giving 500. Registration and vehicle creation check for the clash first and give 400.
- **Empty e-mail.** A user whose e-mail is the empty string can log in, but the token's empty subject is then refused (`Users.LoginAuthenticates`).
- **Geocoding.** It checks only that the caller owns the leg's control, not that the control is open.
- **Viewing.** Every profile other than `motorista` sees all controls and routes, not only admin, gestor and operador.

## Model

| member | source | states |
|---|---|---|
| Tables.FindFirst | app/crud.py:15-16 | the index returned is of the first row satisfying the filter; none is returned exactly when no row satisfies it |
| Tables.Find | app/crud.py:12-13 | the index returned holds the key; none is returned exactly when no row has the key |
| Tables.Get | app/crud.py:99-100 | the row returned is in the table and has the key; none is returned exactly when the key is absent |
| Tables.Filter | app/crud.py:151-152 | the result holds exactly the table's rows that satisfy the filter, keeps rowid order, and is empty when nothing matches |
| Tables.Page | app/crud.py:102-103 | offset/limit: the exact length min(limit, n - skip), or 0 past the end; row i of the page is row skip+i of the table |
| Tables.MaxId | app/models.py:11-62 | the largest key: every key is at most it and some row has it |
| Tables.NextId | app/models.py:11-62 | the integer primary keys of all four tables (lines 11, 28, 44, 62): the new key exceeds every existing key, and is 1 in an empty table |
| Tables.Insert | app/crud.py:154-159 | `add`: the old rows are unchanged, the new row is last under a key not present before, and key order is kept |
| Tables.SetAt | app/crud.py:165-166 | writing a row's columns keeps its key and every other row, and keeps key order |
| Tables.SameKeySameIndex | app/crud.py:99-100 | in rowid order the row found by key is the only row with that key, so "another row" and "another key" coincide |
| Tables.RemoveAt | app/crud.py:171-177 | `delete`: exactly that row is removed; the other rows keep their order; the key is gone afterwards |
| Crud.GetUsuarioByEmail | app/crud.py:15-16 | the user returned has that e-mail; none is returned exactly when no user has it |
| Crud.GetUsuarioByMatricula | app/crud.py:18-19 | the user returned has that matrícula; none is returned exactly when no user has it |
| Crud.GetVeiculoByPlaca | app/crud.py:64-65 | the vehicle returned has that plate; none is returned exactly when no vehicle has it |
| Crud.GetVeiculosDisponiveis | app/crud.py:70-71 | exactly the vehicles whose status is `disponivel`, in rowid order |
| Crud.GetControlesByMotorista | app/crud.py:105-106 | exactly the controls of that driver, in rowid order |
| Crud.GetControlesAbertos | app/crud.py:108-112 | exactly the `aberto` controls of that driver, in rowid order, and the empty list when the driver key is NULL |
| Crud.GetRotasByControle | app/crud.py:151-152 | exactly the routes of that control, in rowid order |
| Crud.WithVehicleStatus | app/crud.py:122-124 | the status write touches only the vehicle with that key, changes nothing else, is a no-op when the key is absent, and keeps keys and plate uniqueness |
| Crud.FoldSnoc | app/crud.py:134-135 | running the loop over one more pair is one more assignment after the loop |
| Crud.PatchUsuario | app/crud.py:42-50 | a user update never changes the password hash |
| Crud.UsuarioPatchByColumns | app/schemas.py:19-27 | patching column by column in declaration order is the whole patch |
| Crud.UsuarioLoopStep | app/crud.py:45-47 | the `setattr` loop over a column's sent pair performs that column's patch |
| Crud.UsuarioUpdateLoop | app/crud.py:45-47 | the `setattr` loop over the sent fields of a user update sets exactly the sent columns to the sent values |
| Crud.VeiculoPatchByColumns | app/schemas.py:49-57 | patching column by column in declaration order is the whole patch |
| Crud.VeiculoLoopStep | app/crud.py:83-85 | the `setattr` loop over a column's sent pair performs that column's patch |
| Crud.VeiculoUpdateLoop | app/crud.py:83-85 | the `setattr` loop of a vehicle update sets exactly the sent columns |
| Crud.PatchControle | app/schemas.py:113-117 | a control update never changes driver, vehicle, start time or start odometer |
| Crud.ControlePatchByColumns | app/schemas.py:113-117 | patching column by column in declaration order is the whole patch |
| Crud.ControleLoopStep | app/crud.py:133-135 | the `setattr` loop over a column's sent pair performs that column's patch |
| Crud.ControleUpdateLoop | app/crud.py:133-135 | the `setattr` loop of a control update sets exactly the sent columns |
| Crud.PatchRota | app/schemas.py:81-91 | a route update never moves the leg to another control |
| Crud.RotaPatchByColumns | app/schemas.py:81-91 | patching column by column in declaration order is the whole patch |
| Crud.RotaLoopStep | app/crud.py:164-166 | the `setattr` loop over a column's sent pair performs that column's patch |
| Crud.RotaUpdateLoop | app/crud.py:164-166 | the `setattr` loop of a route update sets exactly the sent columns |
| Crud.Store.constructor | app/models.py:8-76 | a fresh database has four empty tables |
| Crud.CreateUsuario | app/crud.py:24-40 | performs `create_usuario` in place, with the result and new state of `CreateUsuarioOutcome` (see `CrudLemmas.CreateUsuarioSpec`) |
| Crud.UpdateUsuario | app/crud.py:42-50 | runs the `setattr` loop on the stored row, and ends with the result and state of `UpdateUsuarioOutcome` |
| Crud.DeleteUsuario | app/crud.py:52-58 | performs `delete_usuario` in place, matching `DeleteUsuarioOutcome` |
| Crud.CreateVeiculo | app/crud.py:73-78 | performs `create_veiculo` in place, matching `CreateVeiculoOutcome` |
| Crud.UpdateVeiculo | app/crud.py:80-88 | runs the `setattr` loop on the stored vehicle, matching `UpdateVeiculoOutcome` |
| Crud.DeleteVeiculo | app/crud.py:90-96 | performs `delete_veiculo` in place, matching `DeleteVeiculoOutcome` |
| Crud.SetVehicleStatus | app/crud.py:122-124 | the only state change is the vehicle table becoming `WithVehicleStatus` of the old one |
| Crud.CreateControle | app/crud.py:114-128 | adds the control and marks its vehicle `em_uso`, matching `CreateControleOutcome` |
| Crud.UpdateControle | app/crud.py:130-145 | runs the `setattr` loop and then releases the vehicle when the update sets `finalizado`, matching `UpdateControleOutcome` |
| Crud.CreateRota | app/crud.py:154-159 | performs `create_rota` in place, matching `CreateRotaOutcome` |
| Crud.UpdateRota | app/crud.py:161-169 | runs the `setattr` loop on the stored route, matching `UpdateRotaOutcome` |
| Crud.DeleteRota | app/crud.py:171-177 | performs `delete_rota` in place, matching `DeleteRotaOutcome` |
| CrudLemmas.CreateUsuarioSpec | app/crud.py:24-40 | the commit fails (500, store unchanged) exactly when the e-mail or matrícula is taken; otherwise the new row holds the sent columns and `hash(senha)`, under a fresh key, appended; `Valid` is kept |
| CrudLemmas.UpdateUsuarioSpec | app/crud.py:42-50 | a missing key leaves the store unchanged; the commit fails (500, store unchanged) exactly when another user holds the patched e-mail or matrícula; otherwise the row becomes the patch of the old row, the hash is kept, other rows are unchanged, and `Valid` is kept |
| CrudLemmas.DeleteUsuarioSpec | app/crud.py:52-58 | false exactly when the key is absent; the commit fails exactly when a control references the user; on success only that row is removed; `Valid` is kept |
| CrudLemmas.CreateVeiculoSpec | app/crud.py:73-78 | the commit fails exactly on a taken plate; otherwise the row holds the sent columns under a fresh key, appended; `Valid` is kept |
| CrudLemmas.UpdateVeiculoSpec | app/crud.py:80-88 | a missing key gives None; a failed commit is 500 with the store unchanged; otherwise only that row becomes its patch; `Valid` is kept |
| CrudLemmas.DeleteVeiculoSpec | app/crud.py:90-96 | false exactly when the key is absent; the commit fails exactly when a control references the vehicle; on success only that row is removed |
| CrudLemmas.CreateControleSpec | app/crud.py:114-128 | the new control holds the sent columns (status included) and the caller as driver, under a fresh key; its vehicle, if it exists, becomes `em_uso`; no other vehicle or table changes |
| CrudLemmas.UpdateControleSpec | app/crud.py:130-145 | a missing key gives None and no change; otherwise the row becomes its patch with driver, vehicle, start time and start odometer kept, and other rows are unchanged; the vehicle becomes `disponivel` exactly when the update sets `finalizado`, and vehicles are otherwise unchanged |
| CrudLemmas.VehicleStatusSet | app/crud.py:139-141 | after the status write, looking the vehicle up yields it with the new status and its other columns intact |
| CrudLemmas.CreateRotaSpec | app/crud.py:154-159 | the new leg holds the sent columns, in its sent control, under a fresh key, appended; nothing else changes |
| CrudLemmas.UpdateRotaSpec | app/crud.py:161-169 | a missing key gives None and no change; otherwise the leg becomes its patch, keeps its control, and other legs are unchanged |
| CrudLemmas.DeleteRotaSpec | app/crud.py:171-177 | true exactly when the key exists; then only that leg is removed; otherwise nothing changes |
| CrudLemmas.UsuarioDefaults | app/schemas.py:13-14 | a user created without status or profile is `pendente` and `motorista`, both in their domains, with NULL optional columns |
| CrudLemmas.VeiculoDefaults | app/schemas.py:36-44 | a vehicle created without status is `disponivel`, with NULL optional columns |
| CrudLemmas.RotaDefaults | app/schemas.py:66-79 | a leg created with only the required columns has every optional column NULL |
| Users.CurrentUser | app/api/users.py:17-33 | 401 unless the token's subject is a non-empty e-mail that some user has; the user returned has that e-mail; the status is not consulted |
| Users.AdminUser | app/api/users.py:36-42 | passes the caller through exactly when the profile is `admin`; otherwise 403 |
| Users.Login | app/api/users.py:58-78 | success only for a user with that e-mail, a matching password and status `ativo`, and the token subject is the e-mail; an unknown e-mail is 401; every failure is 401 |
| Users.ReadUsers | app/api/users.py:84-97 | admin and gestor get the offset/limit page of the users: length min(limit, n - skip), or 0 past the end, and row i of it is user skip+i; everyone else gets 403 |
| Users.ReadUser | app/api/users.py:99-115 | 403 exactly for a caller who is neither that user nor admin/gestor, decided before the lookup; otherwise 404 exactly when the key is absent, and the stored user when it is present |
| Users.RegisterUser | app/api/users.py:44-56 | performs registration on the store, matching `RegisterOutcome` |
| Users.UpdateUser | app/api/users.py:117-134 | performs the admin update on the store, matching `UpdateUserOutcome` |
| Users.DeleteUser | app/api/users.py:136-145 | performs the admin delete on the store, matching `DeleteUserOutcome` |
| Users.SetUserStatus | app/api/users.py:147-169 | performs a status change on the store, matching `SetUserStatusOutcome` |
| Users.ActivateUser | app/api/users.py:147-157 | activation is the status change to `ativo` |
| Users.DeactivateUser | app/api/users.py:159-169 | deactivation is the status change to `inativo` |
| Users.UploadAvatar | app/api/users.py:171-241 | performs the avatar upload's store update, matching `UploadAvatarOutcome` |
| Users.DeleteAvatar | app/api/users.py:243-282 | performs the avatar removal's store update, matching `DeleteAvatarOutcome` |
| Users.RegisterSpec | app/api/users.py:44-56 | a taken e-mail is 400, then a taken matrícula is 400, both with the store unchanged; otherwise the user is created as sent; never 500; `Valid` is kept |
| Users.RegisteredUserCannotLogIn | app/api/users.py:44-78 | a user registered with the schema's default status and profile is `pendente` `motorista` and cannot log in until activated |
| Users.SelfRegisteredActiveAdmin | app/api/users.py:44-78 | a registration that sends status `ativo` and profile `admin` succeeds on free keys; the new user logs in at once, is served as the current user, and passes the admin check |
| Users.LoginSucceeds | app/api/users.py:58-78 | in a valid store, every stored `ativo` user who gives a password matching the stored hash logs in, with their e-mail as the token subject |
| Users.EmailLookup | app/crud.py:15-16 | with unique e-mails, looking up a stored user's e-mail finds exactly that user |
| Users.LoginAuthenticates | app/api/users.py:17-78 | a successful login's token authenticates its user, who is `ativo` with a matching password, except that an empty e-mail's token is refused |
| Users.UpdateKeepingKeys | app/crud.py:42-50 | an update that sends neither e-mail nor matrícula always commits, changing only that row to its patch |
| Users.UpdateUserSpec | app/api/users.py:117-134 | non-admin 403, then a missing key 404, both with the store unchanged; then 500 exactly when another user holds the patched e-mail or matrícula, success exactly otherwise; success returns and stores the patched row, keeps every other user row and every other table; errors change nothing; `Valid` is kept |
| Users.DeleteUserSpec | app/api/users.py:136-145 | non-admin 403, then a missing key 404; 500 exactly when the user is referenced by a control; success exactly otherwise, after which the user is gone, every other user row survives, no row is added, and the other tables are unchanged |
| Users.SetUserStatusSpec | app/api/users.py:147-169 | non-admin 403, then a missing key 404; otherwise only that user's status changes, to the given value |
| Users.ActivateEnablesLogin | app/api/users.py:147-157 | after activation, the user logs in with a matching password |
| Users.DeactivateBlocksLogin | app/api/users.py:159-169 | after deactivation, login fails, yet an existing token still authenticates the now inactive user |
| Users.UploadAvatarSpec | app/api/users.py:178-230 | 404, then 403 for another non-admin user, then 400 for an unsupported type or more than 5 MiB; success exactly otherwise; on success the link `public/avatar/<name>` is stored in that user's row, and every other user row and every other table stays as it was |
| Users.DeleteAvatarSpec | app/api/users.py:249-274 | 404, then 403 for another non-admin user; otherwise the user's avatar link becomes NULL, and every other column, every other user row and every other table stays as it was |
| Vehicles.ReadVehicles | app/api/vehicles.py:30-37 | the offset/limit page of the vehicles: length min(limit, n - skip), or 0 past the end, and row i of it is vehicle skip+i |
| Vehicles.ReadAvailableVehicles | app/api/vehicles.py:39-44 | exactly the `disponivel` vehicles, in rowid order |
| Vehicles.ReadVehicle | app/api/vehicles.py:46-55 | the vehicle with that key, or 404 exactly when it is absent |
| Vehicles.CreateVehicle | app/api/vehicles.py:10-28 | performs vehicle creation on the store, matching `CreateVehicleOutcome` |
| Vehicles.UpdateVehicle | app/api/vehicles.py:57-74 | performs the vehicle update on the store, matching `UpdateVehicleOutcome` |
| Vehicles.DeleteVehicle | app/api/vehicles.py:76-92 | performs the vehicle delete on the store, matching `DeleteVehicleOutcome` |
| Vehicles.NonAdminCannotChangeVehicles | app/api/vehicles.py:10-92 | create, update and delete are 403 with the store unchanged for every non-admin |
| Vehicles.CreateVehicleSpec | app/api/vehicles.py:10-28 | for an admin: a taken plate is 400 with no change; otherwise the vehicle is created as sent; never 500 |
| Vehicles.UpdateVehicleSpec | app/api/vehicles.py:57-74 | for an admin: a missing key is 404; 500 exactly when the patched plate belongs to another vehicle, success exactly otherwise; on success only that vehicle changes, to its patch |
| Vehicles.MissingVehicle | app/api/vehicles.py:57-92 | update and delete of an absent key are 404 with the store unchanged |
| Vehicles.AdminSetsAnyVehicleStatus | app/api/vehicles.py:57-74 | an admin can set a vehicle's status to any string, with the controls untouched |
| Vehicles.DeleteVehicleSpec | app/api/vehicles.py:76-92 | for an admin: 404 for an absent key; 500 exactly when a control references the vehicle; success exactly otherwise, after which the vehicle is gone, every other vehicle row survives, no row is added, and the other tables are unchanged |
| UsageControl.ReadUsageControls | app/api/usage_control.py:35-47 | a driver gets exactly their own controls in rowid order, with no paging; other profiles get the offset/limit page of all controls, of length min(limit, n - skip) or 0 past the end |
| UsageControl.ReadMyUsageControls | app/api/usage_control.py:49-54 | exactly the caller's controls, in rowid order |
| UsageControl.ReadOpenUsageControls | app/api/usage_control.py:56-67 | a driver gets exactly their open controls, in rowid order; any other profile gets the empty list |
| UsageControl.ReadOpenUsageControlsIntended | app/api/usage_control.py:65-67 | the intended staff listing is exactly the open controls of every driver; it agrees with the as-written listing for drivers |
| UsageControl.ReadUsageControl | app/api/usage_control.py:69-86 | 404 exactly when absent; 403 exactly for a driver asking for another driver's control; the stored control for every other caller |
| UsageControl.Finalization | app/api/usage_control.py:116-121 | the finalization update sets `finalizado`, keeps the sent odometer and signature, and fills the end time with `now` when none was sent |
| UsageControl.CreateUsageControl | app/api/usage_control.py:11-33 | performs opening on the store, matching `CreateUsageControlOutcome` |
| UsageControl.FinalizeUsageControl | app/api/usage_control.py:88-123 | performs finalization on the store, matching `FinalizeOutcome` |
| UsageControl.CancelUsageControl | app/api/usage_control.py:125-149 | performs cancellation on the store, matching `CancelOutcome` |
| UsageControl.OpenAfterInsert | app/crud.py:114-119 | after adding a control, a vehicle has an open control exactly when it had one or the new control is open on it |
| UsageControl.OnlyOpenOnItsVehicle | app/crud.py:114-128 | under one-open-per-vehicle, no other control on that vehicle is open |
| UsageControl.OnlyOpenOfItsDriver | app/api/usage_control.py:25-31 | under one-open-per-driver, no other control of that driver is open |
| UsageControl.ClosedLeavesNoOpen | app/crud.py:134-135 | closing a vehicle's one open control leaves it with none |
| UsageControl.CloseAndRelease | app/crud.py:130-145 | closing an open control and releasing its vehicle keeps the consistency invariant |
| UsageControl.ClosingKeepsOneOpenPerDriver | app/crud.py:133-135 | writing a closed status into one control keeps "no driver has two open controls" |
| UsageControl.CreateKeepsOneOpenPerDriver | app/api/usage_control.py:25-33 | in any store with at most one open control per driver, a create keeps that, whatever status the client sends and whatever state the vehicles are in |
| UsageControl.CloseKeepsOneOpenPerDriver | app/api/usage_control.py:88-149 | finalize and cancel keep at most one open control per driver, in any store |
| UsageControl.CreatePreservesConsistency | app/api/usage_control.py:11-33 | opening a control with status `aberto` keeps the invariant: a vehicle is `em_uso` iff it has an open control, with one open control per driver and per vehicle |
| UsageControl.CreateUsageControlSpec | app/api/usage_control.py:11-33 | an absent vehicle is 404, then an unavailable vehicle is 400, then a caller with an open control is 400, all with no change; success exactly otherwise; the new control is the caller's, holds the sent columns, and its vehicle becomes `em_uso` |
| UsageControl.SecondOpenRefused | app/api/usage_control.py:25-31 | after one successful open, the same driver's next open fails and changes nothing |
| UsageControl.ClientStatusBreaksConsistency | app/crud.py:114-118 | opening with a client-sent status other than `aberto` succeeds and breaks the invariant: the vehicle is `em_uso` with no open control |
| UsageControl.FinalizeSpec | app/api/usage_control.py:88-123 | 404, then 403 for anyone but the owner (admin included), then 400 when not open, without a non-zero final odometer, or with one not above the start; success exactly otherwise; the row becomes `finalizado` with the sent odometer, the sent or current end time and the signature, and the vehicle becomes `disponivel`; other rows are unchanged; never 500 |
| UsageControl.FinalizePreservesConsistency | app/api/usage_control.py:88-123 | finalizing keeps the invariant, and afterwards the driver has no open control |
| UsageControl.CancelSpec | app/api/usage_control.py:125-149 | 404, then 403 for a non-owner non-admin, then 400 when not open; success exactly otherwise; only that row changes, to `cancelado`; vehicles are unchanged |
| UsageControl.CancelLeavesVehicleInUse | app/api/usage_control.py:145-147 | cancelling an open control succeeds, leaves its vehicle `em_uso` with no open control, and breaks the invariant |
| UsageControl.CancelStrandsVehicle | app/api/usage_control.py:17-23 | after such a cancel, every attempt to open a control on that vehicle is 400, until an admin resets its status |
| UsageControl.CancelReleasingPreservesConsistency | app/api/usage_control.py:125-149 | cancellation that also releases the vehicle keeps the invariant |
| UsageControl.ClosedControlIsTerminal | app/api/usage_control.py:106-143 | finalize and cancel of a closed control fail with the store unchanged |
| UsageControl.FinalizedIsTerminal | app/api/usage_control.py:106-107 | a finalized control stays `finalizado`: every later finalize or cancel fails and changes nothing |
| UsageControl.CancelledIsTerminal | app/api/usage_control.py:142-143 | a cancelled control stays `cancelado`: every later finalize or cancel fails and changes nothing |
| UsageControl.StaffOpenListAlwaysEmpty | app/api/usage_control.py:65-67 | when open controls exist, the staff listing is empty although the intended listing contains them |
| UsageControl.ControleDefaults | app/schemas.py:101-108 | a control opened with only the required fields is `aberto` with NULL closing fields |
| UsageControl.CreateKeepsStatusDomain | app/models.py:52 | opening keeps control statuses in {aberto, finalizado, cancelado} exactly when the sent status is in it |
| UsageControl.CloseKeepsStatusDomain | app/api/usage_control.py:121-146 | finalize and cancel keep control statuses in their domain |
| Routes.ReadRoutesByControl | app/api/routes.py:35-53 | 404 exactly when the control is absent; 403 exactly for a driver who does not own it; success exactly otherwise, with exactly its legs, in rowid order |
| Routes.ReadRoute | app/api/routes.py:55-73 | 404 exactly when absent; non-drivers always get the leg; for a driver, 403 exactly when another driver owns the leg's control, 500 exactly when that control is missing, and the leg when the driver owns it |
| Routes.CreateRoute | app/api/routes.py:12-33 | performs leg creation on the store, matching `CreateRouteOutcome` |
| Routes.UpdateRoute | app/api/routes.py:75-97 | performs the leg update on the store, matching `UpdateRouteOutcome` |
| Routes.DeleteRoute | app/api/routes.py:99-123 | performs the leg delete on the store, matching `DeleteRouteOutcome` |
| Routes.Geocode | app/api/routes.py:125-215 | performs geocoding on the store, matching `GeocodeOutcome` |
| Routes.CreateRouteSpec | app/api/routes.py:12-33 | an absent control is 404, then a non-owner 403, then a closed control 400, with no change; success exactly otherwise, adding the leg as sent |
| Routes.UpdateRouteSpec | app/api/routes.py:75-97 | 404, then 500 for an orphan leg, then 403 for a non-owner, then 400 for a closed control; success exactly otherwise; only that leg changes, to its patch, staying in its control |
| Routes.DeleteRouteSpec | app/api/routes.py:99-123 | 404, then 500 for an orphan leg; success exactly for an admin at any time or the owner of an open control; on success only that leg is removed |
| Routes.GeocodeSpec | app/api/routes.py:125-215 | 404, then 500 for an orphan leg, then 403 for a non-owner; with an address found, the leg's latitude, longitude and address for that side are overwritten and echoed; with none, a failure reply and no change |
| Routes.NoServerErrorWithIntegrity | app/api/routes.py:55-215 | while every leg's control exists, reading, updating, deleting and geocoding a leg never give 500 |
| Routes.OrphanRouteRead | app/api/routes.py:66-67 | a leg whose control is missing is 500 for a driver and readable by everyone else |

## Left out

- Hashing and JWT: passwords are hashed and checked by the parameters `hash` and `verify`. A token is its decoded subject. Expiry, signing and the token format are not modelled.
- `read_current_user` (`/me`) only returns the authenticated caller, so it needs no model of its own beyond `Users.CurrentUser`.
- A missing bearer header is rejected by the HTTP security layer before any handler runs. The model starts from the decoded subject.
- Avatar files:
  - the directory creation, the removal of the old file and the write of the new one are not modelled;
  - an I/O failure there (a 500) is not modelled;
  - the unique file name (user id, a UUID, the extension) is a parameter.
- Google Maps: `get_address_from_coordinates` is an `Option<string>` parameter; the HTTP call and the API key are not modelled.
- `datetime.now()`: a parameter `now`; its string format is not modelled.
- Database setup, the application startup, `check_db.py` and the Flet client are not part of this model.
- Concurrency: each request is one atomic step on the store. Interleaved requests, such as two opens racing past the open-control check, are not modelled.
- Request validation by the web framework (422 for a missing or ill-typed field) is not modelled. An update may send an explicit null for a NOT NULL column; the resulting commit failure is not modelled.
- Response serialisation: a failure while building the response record (e.g. a control whose user or vehicle row is gone) is not modelled.
- Floating point: odometer and coordinate columns are reals and are only compared or copied. Rounding is not modelled.
- `skip` and `limit` are natural numbers; negative values, which SQLite would treat specially, are not modelled.
- Foreign keys: SQLite does not enforce them by default, so a leg can name a missing control. The model keeps that possibility. Deleting a referenced user or vehicle is a failed commit: the relationship's attempt to NULL the NOT NULL column.
- Commit failures other than the unique constraints and the referenced deletes above are not modelled.

## Findings

| source | as written | input that shows it | evidently intended | confidence | as-written member | corrected member |
|---|---|---|---|---|---|---|
| app/api/usage_control.py:65-67 | the staff listing filters on a NULL driver key; `motorista_id` is NOT NULL, so no row ever matches | any store with an open control, listed by an admin, gestor or operador | every open control is listed, as the comment beside the call says | not executed | UsageControl.StaffOpenListAlwaysEmpty | UsageControl.ReadOpenUsageControlsIntended |
| app/api/usage_control.py:145-147 | cancelling sets only `cancelado`; `update_control` releases the vehicle only on `finalizado` (`app/crud.py:138-141`) | a driver opens a control on a `disponivel` vehicle and cancels it: the vehicle stays `em_uso` and cannot be opened again until an admin resets its status | the vehicle is released, as on finalization | not executed | UsageControl.CancelLeavesVehicleInUse | UsageControl.CancelReleasingPreservesConsistency |

The cancel handler, `UsageControl.CancelUsageControl`, follows the code as written. The
corrected cancellation, `UsageControl.CancelReleasingOutcome`, stands beside it, with the
consistency invariant proved for it.
