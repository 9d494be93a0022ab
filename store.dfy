/**
 The database as one mutable object. Each state-changing handler is a method
 that updates the collections in place, step by step as the controller does,
 and is proved to leave the store and answer exactly as the handler's
 function in Ecopontos, Utilizacoes or Items says. The read-only handlers are
 those functions applied to `Snapshot()`.
 */
module Backend {
  import opened Common
  import opened Entities
  import Ecopontos
  import Utilizacoes
  import Items

  class Store {
    var users: map<Id, User>
    var ecopontos: map<Id, Ecoponto>
    var utilizacoes: map<Id, Utilizacao>
    var items: map<Id, Item>
    var nextId: Id

    /** The collections as one value. */
    function Snapshot(): State
      reads this
    {
      State(users, ecopontos, utilizacoes, items, nextId)
    }

    ghost predicate Valid()
      reads this
    {
      Entities.Valid(Snapshot())
    }

    constructor (s: State)
      requires Entities.Valid(s)
      ensures Valid() && Snapshot() == s
    {
      users, ecopontos, utilizacoes, items, nextId := s.users, s.ecopontos, s.utilizacoes, s.items, s.nextId;
    }

    /** `createEcoponto` (see Ecopontos.CreateEcoponto). */
    method CreateEcoponto(caller: Caller, morada: Option<string>, coordenadas: Option<Coords>,
                          upload: Ecopontos.Upload, now: Timestamp) returns (r: Response<()>)
      requires Valid()
      modifies this`ecopontos, this`nextId
      ensures Valid()
      ensures var step := Ecopontos.CreateEcoponto(old(Snapshot()), caller, morada, coordenadas, upload, now);
        Snapshot() == step.state && r == step.response
    {
      if Ecopontos.MoradaTaken(ecopontos, morada) {
        return Failure(BAD_REQUEST);
      }
      if upload.UploadFailed? {
        return Failure(INTERNAL_ERROR);
      }
      if coordenadas.None? {
        return Failure(BAD_REQUEST);
      }
      if upload.NoFile? {
        return Failure(INTERNAL_ERROR);
      }
      var e := Ecopontos.NewEcoponto(caller.id, morada, coordenadas.value, now, upload.secureUrl);
      ecopontos := ecopontos[nextId := e];
      nextId := nextId + 1;
      return Success(());
    }

    /** `validarEcoponto` (see Ecopontos.ValidarEcoponto). */
    method ValidarEcoponto(caller: Caller, id: Option<Id>, aprovado: Option<bool>) returns (r: Response<()>)
      requires Valid()
      modifies this`ecopontos, this`users
      ensures Valid()
      ensures var step := Ecopontos.ValidarEcoponto(old(Snapshot()), caller, id, aprovado);
        Snapshot() == step.state && r == step.response
    {
      if !IsAdmin(caller) {
        return Failure(UNAUTHORIZED);
      }
      if id.None? {
        return Failure(BAD_REQUEST);
      }
      var key := id.value;
      if !Truthy(aprovado) {
        ecopontos := ecopontos - {key};
        return Success(());
      }
      if key !in ecopontos {
        return Failure(NOT_FOUND);
      }
      var e := ecopontos[key];
      e := e.(vistoAdmin := true, ecopontoAprovado := true);
      ecopontos := ecopontos[key := e];
      if e.userId in users {
        var u := users[e.userId];
        u := u.(pontos := u.pontos + ECOPONTO_PONTOS);
        u := u.(moedas := u.moedas + ECOPONTO_MOEDAS);
        u := u.(ecopontosRegistados := u.ecopontosRegistados + 1);
        users := users[e.userId := u];
      }
      return Success(());
    }

    /** `registarUtilizacao` (see Utilizacoes.RegistarUtilizacao). */
    method RegistarUtilizacao(caller: Caller, idEcoponto: Option<Id>, hasFile: bool, idUser: Option<Id>,
                              now: Timestamp) returns (r: Response<()>)
      requires Valid()
      modifies this`utilizacoes, this`nextId
      ensures Valid()
      ensures var step := Utilizacoes.RegistarUtilizacao(old(Snapshot()), caller, idEcoponto, hasFile, idUser, now);
        Snapshot() == step.state && r == step.response
    {
      if idEcoponto.None? {
        return Failure(BAD_REQUEST);
      }
      if !hasFile {
        return Failure(BAD_REQUEST);
      }
      var imageUrl := Utilizacoes.UploadToCloudinary();
      var u := Utilizacoes.NewUtilizacao(idUser, idEcoponto.value, imageUrl, now);
      utilizacoes := utilizacoes[nextId := u];
      nextId := nextId + 1;
      return Success(());
    }

    /** `validarUtilizacao` (see Utilizacoes.ValidarUtilizacao). */
    method ValidarUtilizacao(caller: Caller, id: Option<Id>, vistoAdmin: Option<bool>, aprovada: Option<bool>)
      returns (r: Response<()>)
      requires Valid()
      modifies this`utilizacoes, this`users, this`ecopontos
      ensures Valid()
      ensures var step := Utilizacoes.ValidarUtilizacao(old(Snapshot()), caller, id, vistoAdmin, aprovada);
        Snapshot() == step.state && r == step.response
    {
      if !IsAdmin(caller) {
        return Failure(UNAUTHORIZED);
      }
      if vistoAdmin == Some(true) {
        return Failure(BAD_REQUEST);
      }
      if id.None? {
        return Failure(BAD_REQUEST);
      }
      var key := id.value;
      if !Truthy(aprovada) {
        utilizacoes := utilizacoes - {key};
        return Success(());
      }
      if key !in utilizacoes {
        return Failure(NOT_FOUND);
      }
      var u := utilizacoes[key];
      u := u.(vistoAdmin := true, utilizacaoAprovada := true);
      utilizacoes := utilizacoes[key := u];
      if u.idUser.Some? && u.idUser.value in users && u.idEcoponto in ecopontos {
        var user := users[u.idUser.value];
        var e := ecopontos[u.idEcoponto];
        user := user.(pontos := user.pontos + UTILIZACAO_PONTOS);
        user := user.(moedas := user.moedas + UTILIZACAO_MOEDAS);
        user := user.(numUsoEcopontos := user.numUsoEcopontos + 1);
        e := e.(utilizacoes := e.utilizacoes + 1);
        users := users[u.idUser.value := user];
        ecopontos := ecopontos[u.idEcoponto := e];
      }
      return Success(());
    }

    /** `deleteItem` (see Items.DeleteItem). */
    method DeleteItem(caller: Caller, id: Id) returns (r: Response<Item>)
      requires Valid()
      modifies this`items
      ensures Valid()
      ensures var step := Items.DeleteItem(old(Snapshot()), caller, id);
        Snapshot() == step.state && r == step.response
    {
      if !IsAdmin(caller) {
        return Failure(FORBIDDEN);
      }
      if id !in items {
        return Failure(NOT_FOUND);
      }
      var item := items[id];
      items := items - {id};
      return Success(item);
    }
  }
}
