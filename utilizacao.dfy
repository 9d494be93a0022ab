/**
 The utilizacao handlers (controllers/utilizacao.controller.js) as functions
 from the store before the request to the store after it and the response,
 with the properties of the moderation workflow proved about them.
 */
module Utilizacoes {
  import opened Common
  import opened Entities

  /**
   `uploadToCloudinary`: the image is sent to the image store, but the helper
   neither returns the store's answer nor rethrows its errors, so every caller
   receives `undefined`.
   */
  function UploadToCloudinary(): Option<Url>
  {
    None
  }

  /** A new utilizacao as `registarUtilizacao` builds it: unreviewed and unapproved. */
  function NewUtilizacao(idUser: Option<Id>, idEcoponto: Id, foto: Option<Url>, now: Timestamp): Utilizacao
  {
    Utilizacao(idUser, idEcoponto, foto, now, false, false)
  }

  /**
   `registarUtilizacao`. `idEcoponto` is the route's id, `hasFile` says whether
   the request carries a file, `idUser` is the request body's `idUser`. The
   caller's own identity plays no part, and the ecoponto is not looked up.
   */
  function RegistarUtilizacao(s: State, caller: Caller, idEcoponto: Option<Id>, hasFile: bool,
                              idUser: Option<Id>, now: Timestamp): (r: Step<()>)
    ensures Valid(s) ==> Valid(r.state)
    ensures r.state.users == s.users && r.state.ecopontos == s.ecopontos && r.state.items == s.items
    ensures r.response.Failure? ==> r.state == s
    ensures Valid(s) && r.response.Success? ==> |r.state.utilizacoes| == |s.utilizacoes| + 1
  {
    if idEcoponto.None? then Step(s, Failure(BAD_REQUEST))
    else if !hasFile then Step(s, Failure(BAD_REQUEST))
    else
      var u := NewUtilizacao(idUser, idEcoponto.value, UploadToCloudinary(), now);
      Step(s.(utilizacoes := s.utilizacoes[s.nextId := u], nextId := s.nextId + 1), Success(()))
  }

  /** The reward step of an approval: it runs only when both the user and the ecoponto exist. */
  predicate CanReward(s: State, u: Utilizacao)
  {
    u.idUser.Some? && u.idUser.value in s.users && u.idEcoponto in s.ecopontos
  }

  /**
   `validarUtilizacao`. `vistoAdmin` and `aprovada` are the request body's
   `vistoAdmin` and `utilizacaoAprovada`. The "already validated" refusal
   looks at the request body only, never at the stored record.
   */
  function ValidarUtilizacao(s: State, caller: Caller, id: Option<Id>, vistoAdmin: Option<bool>,
                             aprovada: Option<bool>): (r: Step<()>)
    ensures Valid(s) ==> Valid(r.state)
    ensures r.state.items == s.items && r.state.nextId == s.nextId
    ensures r.state.utilizacoes.Keys <= s.utilizacoes.Keys
    ensures r.state.ecopontos.Keys == s.ecopontos.Keys
    ensures RewardsOnlyGrow(s.users, r.state.users)
    ensures r.response.Failure? ==> r.state == s
  {
    if !IsAdmin(caller) then Step(s, Failure(UNAUTHORIZED))
    else if vistoAdmin == Some(true) then Step(s, Failure(BAD_REQUEST))
    else if id.None? then Step(s, Failure(BAD_REQUEST))
    else if !Truthy(aprovada) then Step(s.(utilizacoes := s.utilizacoes - {id.value}), Success(()))
    else if id.value !in s.utilizacoes then Step(s, Failure(NOT_FOUND))
    else
      var u := s.utilizacoes[id.value].(vistoAdmin := true, utilizacaoAprovada := true);
      var s1 := s.(utilizacoes := s.utilizacoes[id.value := u]);
      if CanReward(s, u) then
        var user := u.idUser.value;
        Step(s1.(users := s.users[user := CreditUtilizacaoReward(s.users[user])],
                 ecopontos := s.ecopontos[u.idEcoponto := CountUtilizacao(s.ecopontos[u.idEcoponto])]),
             Success(()))
      else Step(s1, Success(()))
  }

  /** The utilizacoes no admin has reviewed yet. */
  function Unreviewed(m: map<Id, Utilizacao>): (p: map<Id, Utilizacao>)
    ensures forall id :: id in p <==> id in m && !m[id].vistoAdmin
  {
    map id | id in m && !m[id].vistoAdmin :: m[id]
  }

  /** `getUtilizacoesPendentes`: admin only; an empty result is reported as 404. */
  function GetUtilizacoesPendentes(s: State, caller: Caller): (r: Response<map<Id, Utilizacao>>)
    ensures r == Failure(UNAUTHORIZED) <==> !IsAdmin(caller)
    ensures IsAdmin(caller) ==>
              (r == Failure(NOT_FOUND) <==> forall id :: id in s.utilizacoes ==> s.utilizacoes[id].vistoAdmin)
    ensures IsAdmin(caller) && (exists id :: id in s.utilizacoes && !s.utilizacoes[id].vistoAdmin) ==> r.Success?
    ensures r.Success? ==> forall id :: id in r.body <==> id in s.utilizacoes && !s.utilizacoes[id].vistoAdmin
    ensures r.Success? ==> forall id :: id in r.body ==> r.body[id] == s.utilizacoes[id]
  {
    if !IsAdmin(caller) then Failure(UNAUTHORIZED)
    else
      var pending := Unreviewed(s.utilizacoes);
      if pending == map[] then Failure(NOT_FOUND) else Success(pending)
  }

  /**
   The value `getUtilizaçoesByUser` filters `idUser` by: the user record found
   under the route's id, which is null when there is none, and a null filter
   matches the utilizacoes that name no user.
   */
  function OwnerKey(s: State, idUser: Id): Option<Id>
  {
    if idUser in s.users then Some(idUser) else None
  }

  /** A utilizacao of `key` that an admin has reviewed and approved. */
  predicate ApprovedFor(u: Utilizacao, key: Option<Id>)
  {
    u.idUser == key && u.vistoAdmin && u.utilizacaoAprovada
  }

  /** The ids below `n` of the approved utilizacoes of `key`, in ascending (insertion) order. */
  function MatchingIds(m: map<Id, Utilizacao>, key: Option<Id>, n: nat): (ids: seq<Id>)
    ensures forall i :: 0 <= i < |ids| ==> ids[i] < n && ids[i] in m && ApprovedFor(m[ids[i]], key)
    ensures forall i, j :: 0 <= i < j < |ids| ==> ids[i] < ids[j]
    ensures forall id :: id < n && id in m && ApprovedFor(m[id], key) ==> id in ids
    decreases n
  {
    if n == 0 then []
    else
      var earlier := MatchingIds(m, key, n - 1);
      if n - 1 in m && ApprovedFor(m[n - 1], key) then earlier + [n - 1] else earlier
  }

  /** The `foto` of each listed utilizacao, in the same order. */
  function Fotos(m: map<Id, Utilizacao>, ids: seq<Id>): seq<Option<Url>>
    requires forall i :: 0 <= i < |ids| ==> ids[i] in m
  {
    seq(|ids|, i requires 0 <= i < |ids| => m[ids[i]].foto)
  }

  /**
   `getUtilizaçoesByUser`: only the user named in the route may ask, admins
   included; the answer is the photo of each of that user's approved
   utilizacoes, and 404 when there is none.
   */
  function GetUtilizacoesByUser(s: State, caller: Caller, idUser: Id): (r: Response<seq<Option<Url>>>)
    ensures r == Failure(FORBIDDEN) <==> caller.id != idUser
    ensures r.Success? ==> |r.body| > 0
    ensures r.Success? ==>
              var ids := MatchingIds(s.utilizacoes, OwnerKey(s, idUser), s.nextId);
              && |r.body| == |ids|
              && forall i :: 0 <= i < |ids| ==> r.body[i] == s.utilizacoes[ids[i]].foto
    ensures Valid(s) && caller.id == idUser ==>
              (r == Failure(NOT_FOUND) <==>
                 forall id :: id in s.utilizacoes ==> !ApprovedFor(s.utilizacoes[id], OwnerKey(s, idUser)))
  {
    var ids := MatchingIds(s.utilizacoes, OwnerKey(s, idUser), s.nextId);
    var fotos := Fotos(s.utilizacoes, ids);
    if caller.id != idUser then Failure(FORBIDDEN)
    else if |fotos| == 0 then Failure(NOT_FOUND)
    else
      assert ids[0] in s.utilizacoes && ApprovedFor(s.utilizacoes[ids[0]], OwnerKey(s, idUser));
      Success(fotos)
  }

  // ---------------------------------------------------------------------------
  // Properties of the moderation workflow

  /** A caller who is not an admin is refused with 401 and the store is left alone. */
  lemma ValidarUtilizacaoNonAdmin(s: State, caller: Caller, id: Option<Id>, vistoAdmin: Option<bool>,
                                  aprovada: Option<bool>)
    requires !IsAdmin(caller)
    ensures ValidarUtilizacao(s, caller, id, vistoAdmin, aprovada).state == s
    ensures ValidarUtilizacao(s, caller, id, vistoAdmin, aprovada).response.Status() == UNAUTHORIZED
  {
  }

  /**
   An admin request whose body says `vistoAdmin: true` is refused with 400 and
   changes nothing, for every store and every id, whatever the stored record says.
   */
  lemma ValidarUtilizacaoBodyGuard(s: State, admin: Caller, id: Option<Id>, aprovada: Option<bool>)
    requires IsAdmin(admin)
    ensures ValidarUtilizacao(s, admin, id, Some(true), aprovada) == Step(s, Failure(BAD_REQUEST))
  {
  }

  /**
   A falsy decision removes the utilizacao and answers 200 whether or not it
   existed; no user and no ecoponto is touched.
   */
  lemma ValidarUtilizacaoReject(s: State, admin: Caller, id: Id, vistoAdmin: Option<bool>, aprovada: Option<bool>)
    requires IsAdmin(admin) && vistoAdmin != Some(true) && !Truthy(aprovada)
    ensures var r := ValidarUtilizacao(s, admin, Some(id), vistoAdmin, aprovada);
      && id !in r.state.utilizacoes
      && r.response.Status() == OK
      && r.state.users == s.users && r.state.ecopontos == s.ecopontos
      && forall k :: k in s.utilizacoes && k != id ==>
           k in r.state.utilizacoes && r.state.utilizacoes[k] == s.utilizacoes[k]
  {
  }

  /** Approving an id that is not in the store answers 404 and changes nothing. */
  lemma ValidarUtilizacaoApproveMissing(s: State, admin: Caller, id: Id, vistoAdmin: Option<bool>,
                                        aprovada: Option<bool>)
    requires IsAdmin(admin) && vistoAdmin != Some(true) && Truthy(aprovada) && id !in s.utilizacoes
    ensures ValidarUtilizacao(s, admin, Some(id), vistoAdmin, aprovada) == Step(s, Failure(NOT_FOUND))
  {
  }

  /**
   Approving a stored utilizacao marks it reviewed and approved. When both the
   user and the ecoponto it names exist, the user gains 300 pontos, 1000 moedas
   and one more use, and the ecoponto one more use; when either is missing,
   neither changes.
   */
  lemma ValidarUtilizacaoApprove(s: State, admin: Caller, id: Id, vistoAdmin: Option<bool>, aprovada: Option<bool>)
    requires IsAdmin(admin) && vistoAdmin != Some(true) && Truthy(aprovada) && id in s.utilizacoes
    ensures var r := ValidarUtilizacao(s, admin, Some(id), vistoAdmin, aprovada);
      var u := s.utilizacoes[id];
      && r.response.Status() == OK
      && r.state.utilizacoes == s.utilizacoes[id := u.(vistoAdmin := true, utilizacaoAprovada := true)]
      && (CanReward(s, u) ==>
            var user := s.users[u.idUser.value];
            var e := s.ecopontos[u.idEcoponto];
            && r.state.users == s.users[u.idUser.value := user.(pontos := user.pontos + 300,
                                                               moedas := user.moedas + 1000,
                                                               numUsoEcopontos := user.numUsoEcopontos + 1)]
            && r.state.ecopontos == s.ecopontos[u.idEcoponto := e.(utilizacoes := e.utilizacoes + 1)])
      && (!CanReward(s, u) ==> r.state.users == s.users && r.state.ecopontos == s.ecopontos)
  {
  }

  /** The store after an admin approves utilizacao `id` in `n` successive requests without a body `vistoAdmin`. */
  function ApprovedRepeatedly(s: State, admin: Caller, id: Id, n: nat): State
    decreases n
  {
    if n == 0 then s
    else ApprovedRepeatedly(ValidarUtilizacao(s, admin, Some(id), None, Some(true)).state, admin, id, n - 1)
  }

  /**
   Since the refusal depends on the request body alone, a utilizacao already
   approved in the store is approved and rewarded again: `n` approvals credit
   the user `n` times and count `n` uses of the ecoponto.
   */
  lemma {:induction false} RepeatedApprovalRewardsEachTime(s: State, admin: Caller, id: Id, n: nat)
    requires IsAdmin(admin) && id in s.utilizacoes && CanReward(s, s.utilizacoes[id])
    ensures var u := s.utilizacoes[id];
      var owner := u.idUser.value;
      var user := s.users[owner];
      var e := s.ecopontos[u.idEcoponto];
      var t := ApprovedRepeatedly(s, admin, id, n);
      && id in t.utilizacoes && t.utilizacoes[id].idUser == u.idUser
      && t.utilizacoes[id].idEcoponto == u.idEcoponto
      && owner in t.users && u.idEcoponto in t.ecopontos
      && t.users[owner] == user.(pontos := user.pontos + n * UTILIZACAO_PONTOS,
                                 moedas := user.moedas + n * UTILIZACAO_MOEDAS,
                                 numUsoEcopontos := user.numUsoEcopontos + n)
      && t.ecopontos[u.idEcoponto] == e.(utilizacoes := e.utilizacoes + n)
    decreases n
  {
    if n > 0 {
      var s1 := ValidarUtilizacao(s, admin, Some(id), None, Some(true)).state;
      ValidarUtilizacaoApprove(s, admin, id, None, Some(true));
      RepeatedApprovalRewardsEachTime(s1, admin, id, n - 1);
    }
  }

  /**
   The checks of `registarUtilizacao` in their order: a missing ecoponto id is
   refused first, then a missing file; neither stores anything.
   */
  lemma RegistarUtilizacaoCheckOrder(s: State, caller: Caller, idEcoponto: Option<Id>, hasFile: bool,
                                     idUser: Option<Id>, now: Timestamp)
    ensures var r := RegistarUtilizacao(s, caller, idEcoponto, hasFile, idUser, now);
      && (idEcoponto.None? ==> r == Step(s, Failure(BAD_REQUEST)))
      && (idEcoponto.Some? && !hasFile ==> r == Step(s, Failure(BAD_REQUEST)))
  {
  }

  /**
   A request with an ecoponto id and a file adds exactly one utilizacao, under
   a fresh id, for the body's `idUser` (not the caller), at the given ecoponto
   (existing or not), without a photo URL, pending review.
   */
  lemma RegistarUtilizacaoSuccess(s: State, caller: Caller, idEcoponto: Id, idUser: Option<Id>, now: Timestamp)
    requires Valid(s)
    ensures var r := RegistarUtilizacao(s, caller, Some(idEcoponto), true, idUser, now);
      var id := s.nextId;
      && r.response.Status() == OK
      && id !in s.utilizacoes
      && r.state.utilizacoes.Keys == s.utilizacoes.Keys + {id}
      && (forall k :: k in s.utilizacoes ==> r.state.utilizacoes[k] == s.utilizacoes[k])
      && r.state.utilizacoes[id].idUser == idUser
      && r.state.utilizacoes[id].idEcoponto == idEcoponto
      && r.state.utilizacoes[id].foto == None
      && !r.state.utilizacoes[id].vistoAdmin && !r.state.utilizacoes[id].utilizacaoAprovada
  {
  }

  /**
   The user history lists a photo exactly for the approved utilizacoes that
   match the route's user, and is read only: it returns a response, no store.
   */
  lemma GetUtilizacoesByUserExactly(s: State, caller: Caller, idUser: Id)
    requires Valid(s) && caller.id == idUser
    ensures var r := GetUtilizacoesByUser(s, caller, idUser);
      var key := OwnerKey(s, idUser);
      && (r.Success? <==> exists id :: id in s.utilizacoes && ApprovedFor(s.utilizacoes[id], key))
      && (r.Success? ==> forall f :: f in r.body <==>
            exists id :: id in s.utilizacoes && ApprovedFor(s.utilizacoes[id], key) && s.utilizacoes[id].foto == f)
  {
  }

  /**
   When the user named in the route has no record, the history lists the
   approved utilizacoes that name no user at all.
   */
  lemma GetUtilizacoesByUserMissingUser(s: State, caller: Caller, idUser: Id, id: Id)
    requires Valid(s) && caller.id == idUser && idUser !in s.users
    requires id in s.utilizacoes && ApprovedFor(s.utilizacoes[id], None)
    ensures GetUtilizacoesByUser(s, caller, idUser).Success?
    ensures s.utilizacoes[id].foto in GetUtilizacoesByUser(s, caller, idUser).body
  {
    GetUtilizacoesByUserExactly(s, caller, idUser);
  }
}
