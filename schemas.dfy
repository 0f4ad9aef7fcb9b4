/** The request records: what a create may supply (with the schema's
    defaults) and what a partial update may touch. `UpdateData` is the
    `dict(exclude_unset=True)` of an update record: the list of
    (column, value) pairs the client actually sent, in declaration order. */
module Schemas {
  import opened Wrappers
  import opened Models

  // ---- Usuario ----

  datatype UsuarioCreate = UsuarioCreate(
    matricula: string,
    nome: string,
    email: string,
    senha: string,
    celular: Option<string> := None,
    unidade: Option<string> := None,
    avatarLink: Option<string> := None,
    status: string := Pendente,
    perfil: string := Motorista)

  /** The user update: every column except the password hash may be sent. */
  datatype UsuarioUpdate = UsuarioUpdate(
    matricula: Field<string> := Unset,
    nome: Field<string> := Unset,
    email: Field<string> := Unset,
    celular: Field<Option<string>> := Unset,
    unidade: Field<Option<string>> := Unset,
    avatarLink: Field<Option<string>> := Unset,
    status: Field<string> := Unset,
    perfil: Field<string> := Unset)

  datatype UsuarioAssign =
    | SetMatricula(matricula: string)
    | SetNome(nome: string)
    | SetEmail(email: string)
    | SetCelular(celular: Option<string>)
    | SetUnidade(unidade: Option<string>)
    | SetAvatarLink(avatarLink: Option<string>)
    | SetUsuarioStatus(status: string)
    | SetPerfil(perfil: string)

  /** The columns of the usuario update record, in declaration order. */
  datatype UsuarioColumn = Matricula | Nome | Email | Celular | Unidade | AvatarLink | UsuarioStatus | Perfil

  /** The (column, value) pair for column `c`, when the client sent it. */
  function UsuarioSent(u: UsuarioUpdate, c: UsuarioColumn): seq<UsuarioAssign>
  {
    match c
    case Matricula => if u.matricula.Set? then [SetMatricula(u.matricula.value)] else []
    case Nome => if u.nome.Set? then [SetNome(u.nome.value)] else []
    case Email => if u.email.Set? then [SetEmail(u.email.value)] else []
    case Celular => if u.celular.Set? then [SetCelular(u.celular.value)] else []
    case Unidade => if u.unidade.Set? then [SetUnidade(u.unidade.value)] else []
    case AvatarLink => if u.avatarLink.Set? then [SetAvatarLink(u.avatarLink.value)] else []
    case UsuarioStatus => if u.status.Set? then [SetUsuarioStatus(u.status.value)] else []
    case Perfil => if u.perfil.Set? then [SetPerfil(u.perfil.value)] else []
  }

  function UsuarioUpdateData(u: UsuarioUpdate): seq<UsuarioAssign>
  {
    UsuarioSent(u, Matricula) + UsuarioSent(u, Nome) + UsuarioSent(u, Email) + UsuarioSent(u, Celular) +
    UsuarioSent(u, Unidade) + UsuarioSent(u, AvatarLink) + UsuarioSent(u, UsuarioStatus) + UsuarioSent(u, Perfil)
  }

  // ---- Veiculo ----

  datatype VeiculoCreate = VeiculoCreate(
    marca: string,
    modelo: string,
    placa: string,
    ano: Option<int> := None,
    motor: Option<string> := None,
    tipo: Option<string> := None,
    status: string := Disponivel,
    imagemLink: Option<string> := None)

  /** The vehicle update: every column may be sent, `status` included. */
  datatype VeiculoUpdate = VeiculoUpdate(
    marca: Field<string> := Unset,
    modelo: Field<string> := Unset,
    placa: Field<string> := Unset,
    ano: Field<Option<int>> := Unset,
    motor: Field<Option<string>> := Unset,
    tipo: Field<Option<string>> := Unset,
    status: Field<string> := Unset,
    imagemLink: Field<Option<string>> := Unset)

  datatype VeiculoAssign =
    | SetMarca(marca: string)
    | SetModelo(modelo: string)
    | SetPlaca(placa: string)
    | SetAno(ano: Option<int>)
    | SetMotor(motor: Option<string>)
    | SetTipo(tipo: Option<string>)
    | SetVeiculoStatus(status: string)
    | SetImagemLink(imagemLink: Option<string>)

  /** The columns of the veiculo update record, in declaration order. */
  datatype VeiculoColumn = Marca | Modelo | Placa | Ano | Motor | Tipo | VeiculoStatus | ImagemLink

  /** The (column, value) pair for column `c`, when the client sent it. */
  function VeiculoSent(u: VeiculoUpdate, c: VeiculoColumn): seq<VeiculoAssign>
  {
    match c
    case Marca => if u.marca.Set? then [SetMarca(u.marca.value)] else []
    case Modelo => if u.modelo.Set? then [SetModelo(u.modelo.value)] else []
    case Placa => if u.placa.Set? then [SetPlaca(u.placa.value)] else []
    case Ano => if u.ano.Set? then [SetAno(u.ano.value)] else []
    case Motor => if u.motor.Set? then [SetMotor(u.motor.value)] else []
    case Tipo => if u.tipo.Set? then [SetTipo(u.tipo.value)] else []
    case VeiculoStatus => if u.status.Set? then [SetVeiculoStatus(u.status.value)] else []
    case ImagemLink => if u.imagemLink.Set? then [SetImagemLink(u.imagemLink.value)] else []
  }

  function VeiculoUpdateData(u: VeiculoUpdate): seq<VeiculoAssign>
  {
    VeiculoSent(u, Marca) + VeiculoSent(u, Modelo) + VeiculoSent(u, Placa) + VeiculoSent(u, Ano) +
    VeiculoSent(u, Motor) + VeiculoSent(u, Tipo) + VeiculoSent(u, VeiculoStatus) + VeiculoSent(u, ImagemLink)
  }

  // ---- ControleUtilizacaoVeiculo ----

  /** The control create: `status` defaults to "aberto", but the client may
      send any status and any of the closing fields. */
  datatype ControleCreate = ControleCreate(
    veiculoId: int,
    dataInicio: string,
    kmInicial: real,
    kmFinal: Option<real> := None,
    dataFim: Option<string> := None,
    assinaturaEletronica: Option<string> := None,
    status: string := Aberto)

  /** The control update has only the four closing columns: driver, vehicle,
      start time and start odometer cannot be sent. */
  datatype ControleUpdate = ControleUpdate(
    kmFinal: Field<Option<real>> := Unset,
    dataFim: Field<Option<string>> := Unset,
    assinaturaEletronica: Field<Option<string>> := Unset,
    status: Field<string> := Unset)

  datatype ControleAssign =
    | SetKmFinal(kmFinal: Option<real>)
    | SetDataFim(dataFim: Option<string>)
    | SetAssinatura(assinatura: Option<string>)
    | SetControleStatus(status: string)

  /** The columns of the controle update record, in declaration order. */
  datatype ControleColumn = KmFinal | DataFim | Assinatura | ControleStatus

  /** The (column, value) pair for column `c`, when the client sent it. */
  function ControleSent(u: ControleUpdate, c: ControleColumn): seq<ControleAssign>
  {
    match c
    case KmFinal => if u.kmFinal.Set? then [SetKmFinal(u.kmFinal.value)] else []
    case DataFim => if u.dataFim.Set? then [SetDataFim(u.dataFim.value)] else []
    case Assinatura => if u.assinaturaEletronica.Set? then [SetAssinatura(u.assinaturaEletronica.value)] else []
    case ControleStatus => if u.status.Set? then [SetControleStatus(u.status.value)] else []
  }

  function ControleUpdateData(u: ControleUpdate): seq<ControleAssign>
  {
    ControleSent(u, KmFinal) + ControleSent(u, DataFim) + ControleSent(u, Assinatura) + ControleSent(u, ControleStatus)
  }

  // ---- Rota ----

  /** The route create: parent control, departure time and departure
      odometer are required; every other column is optional. */
  datatype RotaCreate = RotaCreate(
    controleUtilizacaoId: int,
    dataHoraSaida: string,
    kmSaida: real,
    logradouroSaida: Option<string> := None,
    latitudeSaida: Option<real> := None,
    longitudeSaida: Option<real> := None,
    dataHoraChegada: Option<string> := None,
    kmChegada: Option<real> := None,
    logradouroChegada: Option<string> := None,
    latitudeChegada: Option<real> := None,
    longitudeChegada: Option<real> := None)

  /** The route update has no parent-control column: a leg cannot be moved to
      another control. */
  datatype RotaUpdate = RotaUpdate(
    dataHoraSaida: Field<string> := Unset,
    kmSaida: Field<real> := Unset,
    logradouroSaida: Field<Option<string>> := Unset,
    latitudeSaida: Field<Option<real>> := Unset,
    longitudeSaida: Field<Option<real>> := Unset,
    dataHoraChegada: Field<Option<string>> := Unset,
    kmChegada: Field<Option<real>> := Unset,
    logradouroChegada: Field<Option<string>> := Unset,
    latitudeChegada: Field<Option<real>> := Unset,
    longitudeChegada: Field<Option<real>> := Unset)

  datatype RotaAssign =
    | SetDataHoraSaida(dataHoraSaida: string)
    | SetKmSaida(kmSaida: real)
    | SetLogradouroSaida(logradouroSaida: Option<string>)
    | SetLatitudeSaida(latitudeSaida: Option<real>)
    | SetLongitudeSaida(longitudeSaida: Option<real>)
    | SetDataHoraChegada(dataHoraChegada: Option<string>)
    | SetKmChegada(kmChegada: Option<real>)
    | SetLogradouroChegada(logradouroChegada: Option<string>)
    | SetLatitudeChegada(latitudeChegada: Option<real>)
    | SetLongitudeChegada(longitudeChegada: Option<real>)

  /** The columns of the rota update record, in declaration order. */
  datatype RotaColumn = DataHoraSaida | KmSaida | LogradouroSaida | LatitudeSaida | LongitudeSaida | DataHoraChegada | KmChegada | LogradouroChegada | LatitudeChegada | LongitudeChegada

  /** The (column, value) pair for column `c`, when the client sent it. */
  function RotaSent(u: RotaUpdate, c: RotaColumn): seq<RotaAssign>
  {
    match c
    case DataHoraSaida => if u.dataHoraSaida.Set? then [SetDataHoraSaida(u.dataHoraSaida.value)] else []
    case KmSaida => if u.kmSaida.Set? then [SetKmSaida(u.kmSaida.value)] else []
    case LogradouroSaida => if u.logradouroSaida.Set? then [SetLogradouroSaida(u.logradouroSaida.value)] else []
    case LatitudeSaida => if u.latitudeSaida.Set? then [SetLatitudeSaida(u.latitudeSaida.value)] else []
    case LongitudeSaida => if u.longitudeSaida.Set? then [SetLongitudeSaida(u.longitudeSaida.value)] else []
    case DataHoraChegada => if u.dataHoraChegada.Set? then [SetDataHoraChegada(u.dataHoraChegada.value)] else []
    case KmChegada => if u.kmChegada.Set? then [SetKmChegada(u.kmChegada.value)] else []
    case LogradouroChegada => if u.logradouroChegada.Set? then [SetLogradouroChegada(u.logradouroChegada.value)] else []
    case LatitudeChegada => if u.latitudeChegada.Set? then [SetLatitudeChegada(u.latitudeChegada.value)] else []
    case LongitudeChegada => if u.longitudeChegada.Set? then [SetLongitudeChegada(u.longitudeChegada.value)] else []
  }

  function RotaUpdateData(u: RotaUpdate): seq<RotaAssign>
  {
    RotaSent(u, DataHoraSaida) + RotaSent(u, KmSaida) + RotaSent(u, LogradouroSaida) + RotaSent(u, LatitudeSaida) +
    RotaSent(u, LongitudeSaida) + RotaSent(u, DataHoraChegada) + RotaSent(u, KmChegada) + RotaSent(u, LogradouroChegada) +
    RotaSent(u, LatitudeChegada) + RotaSent(u, LongitudeChegada)
  }

}
