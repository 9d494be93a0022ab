/**
 The persisted records (users, ecopontos, utilizacoes, store items), the
 whole store as one value, and the reward ledger that approvals apply.
 */
module Entities {
  import opened Common

  /** The counters of a user that approvals credit; identity and credentials are not modelled. */
  datatype User = User(pontos: int, moedas: int, ecopontosRegistados: int, numUsoEcopontos: int)

  /** A drop-off point submitted by `userId`; it starts unreviewed and unapproved. */
  datatype Ecoponto = Ecoponto(
    userId: Id,
    morada: Option<string>,
    coordenadas: Coords,
    dataCriacao: Timestamp,
    foto: Url,
    vistoAdmin: bool,
    ecopontoAprovado: bool,
    utilizacoes: int)

  /** A proof-of-use event at ecoponto `idEcoponto`, claimed for user `idUser`. */
  datatype Utilizacao = Utilizacao(
    idUser: Option<Id>,
    idEcoponto: Id,
    foto: Option<Url>,
    data: Timestamp,
    vistoAdmin: bool,
    utilizacaoAprovada: bool)

  /** A catalogue record of the store; its schema is not part of the model. */
  datatype Item = Item(fields: map<string, string>)

  /** The whole database. `nextId` stands for the ObjectId the database will hand out next. */
  datatype State = State(
    users: map<Id, User>,
    ecopontos: map<Id, Ecoponto>,
    utilizacoes: map<Id, Utilizacao>,
    items: map<Id, Item>,
    nextId: Id)

  /** Every submission id already handed out lies below `nextId`, so `nextId` is fresh. */
  ghost predicate Valid(s: State)
  {
    && (forall id :: id in s.ecopontos ==> id < s.nextId)
    && (forall id :: id in s.utilizacoes ==> id < s.nextId)
  }

  /** The store after a handler ran, and what the handler answered. */
  datatype Step<T> = Step(state: State, response: Response<T>)

  // The fixed amounts of the reward ledger.
  const ECOPONTO_PONTOS: int := 500
  const ECOPONTO_MOEDAS: int := 2000
  const UTILIZACAO_PONTOS: int := 300
  const UTILIZACAO_MOEDAS: int := 1000

  /** The reward for an approved ecoponto, credited to its owner. */
  function CreditEcopontoReward(u: User): (v: User)
    ensures v.pontos == u.pontos + 500 && v.moedas == u.moedas + 2000
    ensures v.ecopontosRegistados == u.ecopontosRegistados + 1 && v.numUsoEcopontos == u.numUsoEcopontos
  {
    u.(pontos := u.pontos + ECOPONTO_PONTOS,
       moedas := u.moedas + ECOPONTO_MOEDAS,
       ecopontosRegistados := u.ecopontosRegistados + 1)
  }

  /** The reward for an approved utilizacao, credited to the user it names. */
  function CreditUtilizacaoReward(u: User): (v: User)
    ensures v.pontos == u.pontos + 300 && v.moedas == u.moedas + 1000
    ensures v.numUsoEcopontos == u.numUsoEcopontos + 1 && v.ecopontosRegistados == u.ecopontosRegistados
  {
    u.(pontos := u.pontos + UTILIZACAO_PONTOS,
       moedas := u.moedas + UTILIZACAO_MOEDAS,
       numUsoEcopontos := u.numUsoEcopontos + 1)
  }

  /** An approved utilizacao also counts one more use of the ecoponto it references. */
  function CountUtilizacao(e: Ecoponto): (f: Ecoponto)
    ensures f.utilizacoes == e.utilizacoes + 1
    ensures f == e.(utilizacoes := f.utilizacoes)
  {
    e.(utilizacoes := e.utilizacoes + 1)
  }

  /**
   No user disappears and no counter of any user ever goes down: the ledger
   only credits, it has no undo.
   */
  ghost predicate RewardsOnlyGrow(before: map<Id, User>, after: map<Id, User>)
  {
    && after.Keys == before.Keys
    && forall id :: id in before ==>
         && before[id].pontos <= after[id].pontos
         && before[id].moedas <= after[id].moedas
         && before[id].ecopontosRegistados <= after[id].ecopontosRegistados
         && before[id].numUsoEcopontos <= after[id].numUsoEcopontos
  }
}
