/** The four persisted record shapes of the fleet-usage system, their column
    nullability, and the status and profile values the columns are meant to
    hold. The primary key of each record is the `id` of its `Tables.Row`.
    Status and profile columns are plain strings: nothing in the schema rejects
    a value outside the documented domain. */
module Models {
  import opened Wrappers

  // Account status of a user (Usuario.status).
  const Pendente := "pendente"
  const Ativo := "ativo"
  const Inativo := "inativo"

  // Profiles (Usuario.perfil).
  const Admin := "admin"
  const Gestor := "gestor"
  const Operador := "operador"
  const Motorista := "motorista"

  // Availability of a vehicle (Veiculo.status).
  const Disponivel := "disponivel"
  const EmUso := "em_uso"
  const Manutencao := "manutencao"
  // The vehicle value "inativo" is the same string as the user value `Inativo`.

  // Status of a usage control (ControleUtilizacaoVeiculo.status).
  const Aberto := "aberto"
  const Finalizado := "finalizado"
  const Cancelado := "cancelado"

  // Column defaults of the ORM models.
  const DefaultUsuarioStatus := Pendente
  const DefaultPerfil := Motorista
  const DefaultVeiculoStatus := Disponivel
  const DefaultControleStatus := Aberto

  predicate IsUsuarioStatus(s: string) { s == Pendente || s == Ativo || s == Inativo }
  predicate IsPerfil(s: string) { s == Admin || s == Gestor || s == Operador || s == Motorista }
  predicate IsVeiculoStatus(s: string) { s == Disponivel || s == EmUso || s == Manutencao || s == Inativo }
  predicate IsControleStatus(s: string) { s == Aberto || s == Finalizado || s == Cancelado }

  /** A user. `matricula` and `email` are unique and, like `nome`, `status`,
      `perfil` and `senhaHash`, NOT NULL; the other columns are nullable. */
  datatype Usuario = Usuario(
    matricula: string,
    nome: string,
    email: string,
    celular: Option<string>,
    unidade: Option<string>,
    avatarLink: Option<string>,
    status: string,
    perfil: string,
    senhaHash: string)

  /** A vehicle. `placa` is unique and NOT NULL. */
  datatype Veiculo = Veiculo(
    marca: string,
    modelo: string,
    placa: string,
    ano: Option<int>,
    motor: Option<string>,
    tipo: Option<string>,
    status: string,
    imagemLink: Option<string>)

  /** A usage control (one driver's checkout of one vehicle). Driver, vehicle,
      start time and start odometer are NOT NULL; the closing fields are
      nullable. Odometer readings are only ever compared, so they are reals. */
  datatype Controle = Controle(
    motoristaId: int,
    veiculoId: int,
    dataInicio: string,
    kmInicial: real,
    kmFinal: Option<real>,
    dataFim: Option<string>,
    assinaturaEletronica: Option<string>,
    status: string)

  /** A route leg within a usage control. The parent control, the departure
      time and the departure odometer are NOT NULL; everything else is
      nullable. */
  datatype Rota = Rota(
    controleUtilizacaoId: int,
    dataHoraSaida: string,
    kmSaida: real,
    logradouroSaida: Option<string>,
    latitudeSaida: Option<real>,
    longitudeSaida: Option<real>,
    dataHoraChegada: Option<string>,
    kmChegada: Option<real>,
    logradouroChegada: Option<string>,
    latitudeChegada: Option<real>,
    longitudeChegada: Option<real>)
}
