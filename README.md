# GeoRecycle backend: moderation and reward workflow

A Dafny model of the moderation-and-reward core of the GeoRecycle backend.
Users register recycling drop-off points (ecopontos) and log uses of them
(utilizacoes). An admin moderates both. Approving one credits the submitting
user with pontos, moedas and counters. An admin-only item store sits beside them.

The database is one value, `Entities.State`. It holds four maps `id -> record`
(users, ecopontos, utilizacoes, items) and `nextId`, the id the database will
hand out next. `Entities.Valid` says every submission id already handed out
lies below `nextId`.

Each HTTP handler is modelled as a function in the module for its controller
(`Ecopontos`, `Utilizacoes`, `Items`). A handler that writes takes the store,
the caller and the request fields, and returns the new store with the
response (`Step`). A read-only handler takes the store and its request fields
(the caller too, except for `findAll` and `getEcoponto`) and returns only the
response. Each response is a `Success` (200) or a `Failure` with its status.
The caller is `(loggedUserId, loggedUserType)` as the authentication
middleware resolves it. Optional request fields are `Option` values.

The handlers that write (`createEcoponto`, `validarEcoponto`,
`registarUtilizacao`, `validarUtilizacao`, `deleteItem`) are also methods of
the class `Backend.Store`. The class holds the four maps as fields, and each
method updates them in place, step by step, as the controller does. Each method
modifies only the fields its handler writes. Each is proved to end in exactly
the store and response its handler function gives. The read-only handlers
are the functions applied to `Store.Snapshot()`.

Modelling choices:
- ObjectIds are naturals. A new record gets `nextId`. The user's photo
  history (`getUtilizaçoesByUser`) is a sequence in ascending id order, which
  is insertion order. The other listings are maps from id to record.
- New records start with `vistoAdmin = false` and approved `false`. A new
  ecoponto starts with `utilizacoes = 0`. (The schema files are not part of this model.)
- Falsy request flags are modelled as `None` or `Some(false)`; truthy is `Some(true)`.
- Upload results and timestamps are inputs. The ecoponto upload is the
  `secure_url` the image store returns, `NoFile` when the request has no
  file, or `UploadFailed` when the image store throws.
- A create request with no `morada` looks up `morada: null`. This matches a
  stored ecoponto that also has no `morada` (`Option` equality).
- `getUtilizaçoesByUser` filters `idUser` by the user document found under the
  route's id. When that user does not exist, the filter is `null`, and it
  matches the utilizacoes that name no user (`Utilizacoes.OwnerKey`).

The code behaves as follows where a reader might expect otherwise:
- Rejection answers 200 even for an id that does not exist; it never answers 404.
- A stored, already approved utilizacao is approved and rewarded again. Only
  a request whose body says `vistoAdmin: true` is refused.
- A utilizacao is stored without a photo URL, because the upload helper returns nothing.
- `getEcoponto` returns a record whether or not it is approved.
- An ecoponto created without a file is not stored with an unresolved photo.
  The request fails with 500 and nothing is stored.

## Model

| member | source | states |
|---|---|---|
| Entities.CreditEcopontoReward | controllers/ecopontos.controller.js:139-141 | the owner gains exactly 500 pontos, 2000 moedas and one registered ecoponto; the use count is untouched |
| Entities.CreditUtilizacaoReward | controllers/utilizacao.controller.js:115-117 | the user gains exactly 300 pontos, 1000 moedas and one use; the registered-ecoponto count is untouched |
| Entities.CountUtilizacao | controllers/utilizacao.controller.js:118 | the ecoponto's use count grows by one and nothing else about it changes |
| Ecopontos.NewEcoponto | controllers/ecopontos.controller.js:81-87 | the record a creation stores: the caller as owner, the request's morada and coordenadas, the timestamp and the upload URL, unreviewed, unapproved and with no uses |
| Ecopontos.Unreviewed | controllers/ecopontos.controller.js:167 | the query `vistoAdmin: false`: exactly the stored ecopontos no admin has reviewed, with their records |
| Ecopontos.MoradaTaken | controllers/ecopontos.controller.js:50 | the duplicate check: some stored ecoponto has the requested morada |
| Utilizacoes.UploadToCloudinary | controllers/utilizacao.controller.js:15-23 | the helper yields no URL, so every new utilizacao is stored without one |
| Utilizacoes.NewUtilizacao | controllers/utilizacao.controller.js:46-51 | the record a registration stores: the body's idUser, the route's ecoponto, the upload result and the timestamp, unreviewed and unapproved |
| Utilizacoes.CanReward | controllers/utilizacao.controller.js:112-114 | the reward runs only when the utilizacao names a user, that user exists and its ecoponto exists |
| Utilizacoes.Unreviewed | controllers/utilizacao.controller.js:143 | the query `vistoAdmin: false`: exactly the stored utilizacoes no admin has reviewed, with their records |
| Utilizacoes.ApprovedFor | controllers/utilizacao.controller.js:166-171 | the history filter: the utilizacao names the filter key (possibly null), is reviewed and is approved |
| Utilizacoes.Fotos | controllers/utilizacao.controller.js:172 | the projection `{ foto: 1, _id: 0 }`: the photo of each listed utilizacao, in the same order |
| Utilizacoes.OwnerKey | controllers/utilizacao.controller.js:165-168 | the history filter is the route's user id when that user exists, and null otherwise |
| Ecopontos.FindAll | controllers/ecopontos.controller.js:14-23 | the listing holds exactly the approved ecopontos, each projected to id, morada and coordenadas |
| Ecopontos.FindAllOnlyApproved | controllers/ecopontos.controller.js:16 | an ecoponto that is not approved never appears in the public listing |
| Ecopontos.GetEcoponto | controllers/ecopontos.controller.js:26-44 | 404 if and only if the id is absent, otherwise the stored record |
| Ecopontos.CreateEcoponto | controllers/ecopontos.controller.js:47-96 | only the ecoponto map and nextId can change; every refusal leaves the store unchanged; with Valid, success adds exactly one record and Valid is kept |
| Ecopontos.CreateEcopontoCheckOrder | controllers/ecopontos.controller.js:50-86 | a taken morada gives 400, else a failed upload gives 500, else missing coordenadas give 400, else a request without a file gives 500; each time the store is unchanged |
| Ecopontos.CreateEcopontoSuccess | controllers/ecopontos.controller.js:81-89 | a request that passes the checks adds one ecoponto under a fresh id, owned by the caller, with the given morada, coordenadas and the upload URL, pending; older records are unchanged |
| Ecopontos.CreateEcopontoTwice | controllers/ecopontos.controller.js:50-56 | after a successful creation, the same morada is refused with 400 |
| Ecopontos.ValidarEcoponto | controllers/ecopontos.controller.js:99-155 | Valid is kept; utilizacoes, items and nextId never change; ecopontos are only removed or updated; no user counter ever decreases; every failure leaves the store unchanged |
| Ecopontos.ValidarEcopontoNonAdmin | controllers/ecopontos.controller.js:101-105 | a non-admin caller gets 401 and the store is unchanged |
| Ecopontos.ValidarEcopontoReject | controllers/ecopontos.controller.js:115-122 | a falsy decision removes the id and answers 200 whether or not it existed; users and other ecopontos are unchanged |
| Ecopontos.ValidarEcopontoApproveMissing | controllers/ecopontos.controller.js:124-130 | approving an absent id gives 404 and changes nothing |
| Ecopontos.ValidarEcopontoApprove | controllers/ecopontos.controller.js:132-144 | the record becomes reviewed and approved; an existing owner gains 500 pontos, 2000 moedas and one registered ecoponto; a missing owner means no user changes |
| Ecopontos.RepeatedApprovalRewardsEachTime | controllers/ecopontos.controller.js:124-144 | with no re-entrancy guard, n approvals of the same ecoponto credit its owner n times |
| Ecopontos.GetEcopontosPorValidar | controllers/ecopontos.controller.js:159-186 | 401 if and only if the caller is not an admin; for an admin, 404 if and only if nothing is unreviewed, and otherwise a 200 holding exactly the unreviewed ecopontos |
| Utilizacoes.RegistarUtilizacao | controllers/utilizacao.controller.js:26-64 | only the utilizacao map and nextId can change; every refusal leaves the store unchanged; with Valid, success adds exactly one record and Valid is kept |
| Utilizacoes.RegistarUtilizacaoCheckOrder | controllers/utilizacao.controller.js:28-41 | a missing ecoponto id gives 400, else a missing file gives 400, with the store unchanged |
| Utilizacoes.RegistarUtilizacaoSuccess | controllers/utilizacao.controller.js:15-52 | one utilizacao is added under a fresh id, for the body's idUser, at the given ecoponto, with no photo URL (the upload helper returns nothing), pending |
| Utilizacoes.ValidarUtilizacao | controllers/utilizacao.controller.js:67-133 | Valid is kept; items and nextId never change; no ecoponto is added or removed; no user counter ever decreases; every failure leaves the store unchanged |
| Utilizacoes.ValidarUtilizacaoNonAdmin | controllers/utilizacao.controller.js:69-73 | a non-admin caller gets 401 and the store is unchanged |
| Utilizacoes.ValidarUtilizacaoBodyGuard | controllers/utilizacao.controller.js:75-80 | an admin request whose body says vistoAdmin true gets 400 with no change, for every store and id, whatever is stored |
| Utilizacoes.ValidarUtilizacaoReject | controllers/utilizacao.controller.js:90-97 | a falsy decision removes the id and answers 200 whether or not it existed; users and ecopontos are unchanged |
| Utilizacoes.ValidarUtilizacaoApproveMissing | controllers/utilizacao.controller.js:99-105 | approving an absent id gives 404 and changes nothing |
| Utilizacoes.ValidarUtilizacaoApprove | controllers/utilizacao.controller.js:107-122 | the record becomes reviewed and approved; when both user and ecoponto exist the user gains 300 pontos, 1000 moedas, one use and the ecoponto one use; otherwise neither changes |
| Utilizacoes.RepeatedApprovalRewardsEachTime | controllers/utilizacao.controller.js:75-122 | because the guard reads only the body, n approvals of one stored utilizacao credit the user and the ecoponto n times |
| Utilizacoes.GetUtilizacoesPendentes | controllers/utilizacao.controller.js:136-161 | 401 if and only if the caller is not an admin; for an admin, 404 if and only if nothing is unreviewed, and otherwise a 200 holding exactly the unreviewed utilizacoes |
| Utilizacoes.MatchingIds | controllers/utilizacao.controller.js:165-173 | the ids below the bound of exactly the reviewed and approved utilizacoes of the filter key, strictly ascending |
| Utilizacoes.GetUtilizacoesByUser | controllers/utilizacao.controller.js:163-196 | 403 if and only if the caller is not the route's user (admins included); a success holds one photo per matching utilizacao, in order; with Valid, 404 if and only if none matches |
| Utilizacoes.GetUtilizacoesByUserExactly | controllers/utilizacao.controller.js:165-189 | for the owner, success if and only if an approved utilizacao matches, and a photo is listed if and only if such a utilizacao has it |
| Utilizacoes.GetUtilizacoesByUserMissingUser | controllers/utilizacao.controller.js:165-173 | when the route's user has no record, the approved utilizacoes that name no user are listed |
| Items.GetStoreItems | controllers/items.controller.js:6-26 | a non-admin gets 403 (not 401); an admin gets every item with its record |
| Items.DeleteItem | controllers/items.controller.js:30-53 | only the item map can change, and only by removal; a failure leaves the store unchanged; a success returns the record stored under the id |
| Items.DeleteItemNonAdmin | controllers/items.controller.js:32-36 | a non-admin gets 403 and nothing changes |
| Items.DeleteItemExisting | controllers/items.controller.js:37-47 | the id is removed, every other item is unchanged, and the answer is the removed record |
| Items.DeleteItemMissing | controllers/items.controller.js:37-42 | an absent id gives 404 and nothing changes |
| Backend.Store.CreateEcoponto | controllers/ecopontos.controller.js:47-96 | writes only the ecoponto map and nextId, keeps Valid, and ends in the store and response of Ecopontos.CreateEcoponto |
| Backend.Store.ValidarEcoponto | controllers/ecopontos.controller.js:99-155 | writes only the ecoponto and user maps, crediting the owner in place, and ends as Ecopontos.ValidarEcoponto says |
| Backend.Store.RegistarUtilizacao | controllers/utilizacao.controller.js:26-64 | writes only the utilizacao map and nextId, keeps Valid, and ends as Utilizacoes.RegistarUtilizacao says |
| Backend.Store.ValidarUtilizacao | controllers/utilizacao.controller.js:67-133 | writes only the utilizacao, user and ecoponto maps, applying the rewards in place, and ends as Utilizacoes.ValidarUtilizacao says |
| Backend.Store.DeleteItem | controllers/items.controller.js:30-53 | writes only the item map and ends as Items.DeleteItem says, returning the removed record |
| Scenarios.EcopontoScenario | controllers/ecopontos.controller.js:47-155 | create at "Rua X", a duplicate refused with 400, approval crediting 500 pontos and 2000 moedas, rejection of an absent id answering 200 |
| Scenarios.UtilizacaoRegistered | controllers/utilizacao.controller.js:26-52 | a registered utilizacao is stored pending, without a photo URL, and is listed as pending |
| Scenarios.UtilizacaoApproved | controllers/utilizacao.controller.js:67-196 | an approval credits user and ecoponto; nothing is left pending; the owner's history lists one undefined photo; another caller gets 403 |
| Scenarios.UtilizacaoApprovedAgain | controllers/utilizacao.controller.js:75-122 | a second approval credits again; only a body vistoAdmin true is refused |

## Left out

- Persistence and its failures: every store operation succeeds, and the `catch` paths that answer 500 on a database error are not modelled. The only 500s kept are in `createEcoponto`: a failed upload and the null dereference of the missing upload result.
- Concurrency: each handler is one atomic step. The races between concurrent reviews and the separate saves of user and ecoponto are not modelled.
- Image uploads are foreign calls. `createEcoponto` takes the upload's outcome as an input (its URL, no file, or a failure; a failure answers 500 before the coordinates are checked). The upload itself, which happens even when the request is then refused, is an external side effect and is not modelled. `uploadToCloudinary` is modelled as returning nothing, and its call to the image store is not modelled.
- Timestamps (`Date.now()`) are inputs, and the logging is left out.
- The order of the listings other than the user's photo history (`findAll`, `getEcopontosPorValidar`, `getUtilizacoesPendentes`, `getStoreItems`) is not modelled: they are maps from id to record, which have no order.
- Response messages and `success` fields are left out; only the status and the returned data are kept.
- JavaScript loose equality and truthiness are left out. Request flags are optional booleans. An empty string `coordenadas` is not treated as falsy. A non-boolean approval value is not cast to a stored boolean.
- Ids are naturals, so a malformed ObjectId in a route, which the database rejects with 500, is not modelled.
- The user record has only the four counters that rewards change. Names, credentials and roles are not modelled. The role comes from the caller.
- Item records are an opaque field map, because their schema is not part of this model.
- The schema files, the database configuration and the user controller exercised by the tests are not part of this model.
