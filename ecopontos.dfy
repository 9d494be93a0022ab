/**
 The ecoponto handlers (controllers/ecopontos.controller.js) as functions from
 the store before the request to the store after it and the response, with
 the properties of the moderation workflow proved about them.
 */
module Ecopontos {
  import opened Common
  import opened Entities

  /** The public view of an ecoponto: its id (the map key), `morada` and `coordenadas`. */
  datatype Summary = Summary(morada: Option<string>, coordenadas: Coords)

  /** `findAll`: every approved ecoponto, projected to id, morada and coordenadas. */
  function FindAll(s: State): (r: Response<map<Id, Summary>>)
    ensures r.Success?
    ensures forall id :: id in r.body <==> id in s.ecopontos && s.ecopontos[id].ecopontoAprovado
    ensures forall id :: id in r.body ==>
              r.body[id] == Summary(s.ecopontos[id].morada, s.ecopontos[id].coordenadas)
  {
    Success(map id | id in s.ecopontos && s.ecopontos[id].ecopontoAprovado ::
              Summary(s.ecopontos[id].morada, s.ecopontos[id].coordenadas))
  }

  /** `getEcoponto`: the record under `id`, whatever its moderation state. */
  function GetEcoponto(s: State, id: Id): (r: Response<Ecoponto>)
    ensures r.Failure? <==> id !in s.ecopontos
    ensures r.Failure? ==> r.code == NOT_FOUND
    ensures r.Success? ==> id in s.ecopontos && r.body == s.ecopontos[id]
  {
    if id in s.ecopontos then Success(s.ecopontos[id]) else Failure(NOT_FOUND)
  }

  /** The duplicate check of `createEcoponto`: some stored ecoponto has this `morada`. */
  predicate MoradaTaken(m: map<Id, Ecoponto>, morada: Option<string>)
  {
    exists id :: id in m && m[id].morada == morada
  }

  /** A new ecoponto as `createEcoponto` builds it: unreviewed, unapproved, no uses. */
  function NewEcoponto(owner: Id, morada: Option<string>, coordenadas: Coords, now: Timestamp, foto: Url): Ecoponto
  {
    Ecoponto(owner, morada, coordenadas, now, foto, false, false, 0)
  }

  /**
   What became of the request's file: there was none (the upload result stays
   null), the image store returned its secure URL, or the upload threw.
   */
  datatype Upload = NoFile | Uploaded(secureUrl: Url) | UploadFailed

  /**
   `createEcoponto`. The file is uploaded after the duplicate check and before
   the coordenadas check, so a failing upload answers 500 even when the
   coordenadas are missing. Without a file the handler dereferences the null
   upload result when it builds the record and answers 500.
   */
  function CreateEcoponto(s: State, caller: Caller, morada: Option<string>, coordenadas: Option<Coords>,
                          upload: Upload, now: Timestamp): (r: Step<()>)
    ensures Valid(s) ==> Valid(r.state)
    ensures r.state.users == s.users && r.state.utilizacoes == s.utilizacoes && r.state.items == s.items
    ensures r.response.Failure? ==> r.state == s
    ensures Valid(s) && r.response.Success? ==> |r.state.ecopontos| == |s.ecopontos| + 1
  {
    if MoradaTaken(s.ecopontos, morada) then Step(s, Failure(BAD_REQUEST))
    else if upload.UploadFailed? then Step(s, Failure(INTERNAL_ERROR))
    else if coordenadas.None? then Step(s, Failure(BAD_REQUEST))
    else if upload.NoFile? then Step(s, Failure(INTERNAL_ERROR))
    else
      var e := NewEcoponto(caller.id, morada, coordenadas.value, now, upload.secureUrl);
      Step(s.(ecopontos := s.ecopontos[s.nextId := e], nextId := s.nextId + 1), Success(()))
  }

  /**
   `validarEcoponto`. `aprovado` is the request body's `ecopontoAprovado`.
   A falsy decision deletes the record without looking it up; an approval
   marks it reviewed and approved and credits its owner when the owner exists.
   */
  function ValidarEcoponto(s: State, caller: Caller, id: Option<Id>, aprovado: Option<bool>): (r: Step<()>)
    ensures Valid(s) ==> Valid(r.state)
    ensures r.state.utilizacoes == s.utilizacoes && r.state.items == s.items && r.state.nextId == s.nextId
    ensures r.state.ecopontos.Keys <= s.ecopontos.Keys
    ensures RewardsOnlyGrow(s.users, r.state.users)
    ensures r.response.Failure? ==> r.state == s
  {
    if !IsAdmin(caller) then Step(s, Failure(UNAUTHORIZED))
    else if id.None? then Step(s, Failure(BAD_REQUEST))
    else if !Truthy(aprovado) then Step(s.(ecopontos := s.ecopontos - {id.value}), Success(()))
    else if id.value !in s.ecopontos then Step(s, Failure(NOT_FOUND))
    else
      var e := s.ecopontos[id.value].(vistoAdmin := true, ecopontoAprovado := true);
      var users := if e.userId in s.users then s.users[e.userId := CreditEcopontoReward(s.users[e.userId])]
                   else s.users;
      Step(s.(ecopontos := s.ecopontos[id.value := e], users := users), Success(()))
  }

  /** The ecopontos no admin has reviewed yet. */
  function Unreviewed(m: map<Id, Ecoponto>): (p: map<Id, Ecoponto>)
    ensures forall id :: id in p <==> id in m && !m[id].vistoAdmin
  {
    map id | id in m && !m[id].vistoAdmin :: m[id]
  }

  /** `getEcopontosPorValidar`: admin only; an empty result is reported as 404. */
  function GetEcopontosPorValidar(s: State, caller: Caller): (r: Response<map<Id, Ecoponto>>)
    ensures r == Failure(UNAUTHORIZED) <==> !IsAdmin(caller)
    ensures IsAdmin(caller) ==>
              (r == Failure(NOT_FOUND) <==> forall id :: id in s.ecopontos ==> s.ecopontos[id].vistoAdmin)
    ensures IsAdmin(caller) && (exists id :: id in s.ecopontos && !s.ecopontos[id].vistoAdmin) ==> r.Success?
    ensures r.Success? ==> forall id :: id in r.body <==> id in s.ecopontos && !s.ecopontos[id].vistoAdmin
    ensures r.Success? ==> forall id :: id in r.body ==> r.body[id] == s.ecopontos[id]
  {
    if !IsAdmin(caller) then Failure(UNAUTHORIZED)
    else
      var pending := Unreviewed(s.ecopontos);
      if pending == map[] then Failure(NOT_FOUND) else Success(pending)
  }

  // ---------------------------------------------------------------------------
  // Properties of the moderation workflow

  /** A caller who is not an admin is refused with 401 and the store is left alone. */
  lemma ValidarEcopontoNonAdmin(s: State, caller: Caller, id: Option<Id>, aprovado: Option<bool>)
    requires !IsAdmin(caller)
    ensures ValidarEcoponto(s, caller, id, aprovado).state == s
    ensures ValidarEcoponto(s, caller, id, aprovado).response.Status() == UNAUTHORIZED
  {
  }

  /**
   A falsy decision removes the ecoponto and answers 200 whether or not it
   existed; no user is touched and every other ecoponto stays as it was.
   */
  lemma ValidarEcopontoReject(s: State, admin: Caller, id: Id, aprovado: Option<bool>)
    requires IsAdmin(admin) && !Truthy(aprovado)
    ensures var r := ValidarEcoponto(s, admin, Some(id), aprovado);
      && id !in r.state.ecopontos
      && r.response.Status() == OK
      && r.state.users == s.users
      && forall k :: k in s.ecopontos && k != id ==> k in r.state.ecopontos && r.state.ecopontos[k] == s.ecopontos[k]
  {
  }

  /** Approving an id that is not in the store answers 404 and changes nothing. */
  lemma ValidarEcopontoApproveMissing(s: State, admin: Caller, id: Id, aprovado: Option<bool>)
    requires IsAdmin(admin) && Truthy(aprovado) && id !in s.ecopontos
    ensures ValidarEcoponto(s, admin, Some(id), aprovado) == Step(s, Failure(NOT_FOUND))
  {
  }

  /**
   Approving a stored ecoponto marks it reviewed and approved, credits its
   owner with 500 pontos, 2000 moedas and one more registered ecoponto when the
   owner exists (and credits nobody otherwise), and leaves every other record alone.
   */
  lemma ValidarEcopontoApprove(s: State, admin: Caller, id: Id, aprovado: Option<bool>)
    requires IsAdmin(admin) && Truthy(aprovado) && id in s.ecopontos
    ensures var r := ValidarEcoponto(s, admin, Some(id), aprovado);
      var e := s.ecopontos[id];
      var owner := e.userId;
      && r.response.Status() == OK
      && r.state.ecopontos == s.ecopontos[id := e.(vistoAdmin := true, ecopontoAprovado := true)]
      && (owner in s.users ==>
            var u := s.users[owner];
            r.state.users == s.users[owner := u.(pontos := u.pontos + 500,
                                                 moedas := u.moedas + 2000,
                                                 ecopontosRegistados := u.ecopontosRegistados + 1)])
      && (owner !in s.users ==> r.state.users == s.users)
  {
  }

  /** The store after an admin approves ecoponto `id` in `n` successive requests. */
  function ApprovedRepeatedly(s: State, admin: Caller, id: Id, n: nat): State
    decreases n
  {
    if n == 0 then s
    else ApprovedRepeatedly(ValidarEcoponto(s, admin, Some(id), Some(true)).state, admin, id, n - 1)
  }

  /**
   Nothing stops an ecoponto from being approved again: each of `n` approvals
   of the same ecoponto credits its owner once more.
   */
  lemma {:induction false} RepeatedApprovalRewardsEachTime(s: State, admin: Caller, id: Id, n: nat)
    requires IsAdmin(admin) && id in s.ecopontos && s.ecopontos[id].userId in s.users
    ensures var owner := s.ecopontos[id].userId;
      var u := s.users[owner];
      var t := ApprovedRepeatedly(s, admin, id, n);
      && id in t.ecopontos && t.ecopontos[id].userId == owner
      && owner in t.users
      && t.users[owner] == u.(pontos := u.pontos + n * ECOPONTO_PONTOS,
                              moedas := u.moedas + n * ECOPONTO_MOEDAS,
                              ecopontosRegistados := u.ecopontosRegistados + n)
    decreases n
  {
    if n > 0 {
      var s1 := ValidarEcoponto(s, admin, Some(id), Some(true)).state;
      ValidarEcopontoApprove(s, admin, id, Some(true));
      RepeatedApprovalRewardsEachTime(s1, admin, id, n - 1);
    }
  }

  /**
   The checks of `createEcoponto` in their order: a taken morada is refused
   first, then a failed upload answers 500, then missing coordinates are
   refused, then a request without a file fails with 500; none of them stores
   anything.
   */
  lemma CreateEcopontoCheckOrder(s: State, caller: Caller, morada: Option<string>, coordenadas: Option<Coords>,
                                 upload: Upload, now: Timestamp)
    ensures var r := CreateEcoponto(s, caller, morada, coordenadas, upload, now);
      var free := !MoradaTaken(s.ecopontos, morada);
      && (!free ==> r == Step(s, Failure(BAD_REQUEST)))
      && (free && upload.UploadFailed? ==> r == Step(s, Failure(INTERNAL_ERROR)))
      && (free && !upload.UploadFailed? && coordenadas.None? ==> r == Step(s, Failure(BAD_REQUEST)))
      && (free && upload.NoFile? && coordenadas.Some? ==> r == Step(s, Failure(INTERNAL_ERROR)))
  {
  }

  /**
   A request that passes every check adds exactly one ecoponto, under a fresh
   id, owned by the caller, with the given morada and coordenadas and the
   upload's URL as its photo, pending review.
   */
  lemma CreateEcopontoSuccess(s: State, caller: Caller, morada: Option<string>, coords: Coords,
                              url: Url, now: Timestamp)
    requires Valid(s) && !MoradaTaken(s.ecopontos, morada)
    ensures var r := CreateEcoponto(s, caller, morada, Some(coords), Uploaded(url), now);
      var id := s.nextId;
      && r.response.Status() == OK
      && id !in s.ecopontos
      && r.state.ecopontos.Keys == s.ecopontos.Keys + {id}
      && (forall k :: k in s.ecopontos ==> r.state.ecopontos[k] == s.ecopontos[k])
      && r.state.ecopontos[id].userId == caller.id
      && r.state.ecopontos[id].morada == morada
      && r.state.ecopontos[id].coordenadas == coords
      && r.state.ecopontos[id].foto == url
      && !r.state.ecopontos[id].vistoAdmin && !r.state.ecopontos[id].ecopontoAprovado
  {
  }

  /** After a successful creation the morada is taken, so repeating the request is refused. */
  lemma CreateEcopontoTwice(s: State, caller: Caller, morada: Option<string>, coords: Coords,
                            url: Url, now: Timestamp, now': Timestamp)
    requires Valid(s)
    ensures var r := CreateEcoponto(s, caller, morada, Some(coords), Uploaded(url), now);
      CreateEcoponto(r.state, caller, morada, Some(coords), Uploaded(url), now').response == Failure(BAD_REQUEST)
  {
    var r := CreateEcoponto(s, caller, morada, Some(coords), Uploaded(url), now);
    if !MoradaTaken(s.ecopontos, morada) {
      assert r.state.ecopontos[s.nextId].morada == morada;
    }
  }

  /** The public listing never shows an ecoponto that is not approved. */
  lemma FindAllOnlyApproved(s: State, id: Id)
    requires id in s.ecopontos && !s.ecopontos[id].ecopontoAprovado
    ensures id !in FindAll(s).body
  {
  }
}
