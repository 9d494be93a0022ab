/**
 Two concrete request sequences through the handlers, with the store and the
 answers they end in: one for the ecoponto workflow, one for utilizacoes.
 */
module Scenarios {
  import opened Common
  import opened Entities
  import opened Ecopontos
  import opened Utilizacoes

  const MEMBER: Caller := Caller(7, "user")
  const ADMIN: Caller := Caller(1, "admin")
  const START: State := State(map[7 := User(0, 0, 0, 0)], map[], map[], map[], 0)

  /**
   A member registers an ecoponto at "Rua X"; registering the same morada
   again is refused; an admin approves the first, which credits the member
   with 500 pontos and 2000 moedas; rejecting an id that does not exist still
   answers 200.
   */
  lemma EcopontoScenario()
    ensures var r1 := CreateEcoponto(START, MEMBER, Some("Rua X"), Some("41.1,-8.6"), Uploaded("https://img/a"), 100);
      var r2 := CreateEcoponto(r1.state, MEMBER, Some("Rua X"), Some("41.1,-8.6"), Uploaded("https://img/b"), 101);
      var r3 := ValidarEcoponto(r2.state, ADMIN, Some(0), Some(true));
      var r4 := ValidarEcoponto(r3.state, ADMIN, Some(1), None);
      && r1.response == Success(())
      && r2.response == Failure(BAD_REQUEST) && r2.state == r1.state
      && r3.response == Success(())
      && r3.state.users[7] == User(500, 2000, 1, 0)
      && r4.response == Success(()) && r4.state == r3.state
      && FindAll(r4.state).body == map[0 := Summary(Some("Rua X"), "41.1,-8.6")]
  {
    var r1 := CreateEcoponto(START, MEMBER, Some("Rua X"), Some("41.1,-8.6"), Uploaded("https://img/a"), 100);
    assert r1.state.ecopontos[0].morada == Some("Rua X");
  }

  // The utilizacao scenario, one request at a time: an approved ecoponto 0
  // owned by the member, then utilizacao 1 registered, approved, re-approved.
  const POINT: Ecoponto := Ecoponto(7, Some("Rua X"), "41.1,-8.6", 100, "https://img/a", true, true, 0)
  const PENDING: Utilizacao := Utilizacao(Some(7), 0, None, 102, false, false)
  const APPROVED: Utilizacao := PENDING.(vistoAdmin := true, utilizacaoAprovada := true)
  const U0: State := START.(ecopontos := map[0 := POINT], nextId := 1)
  const U1: State := U0.(utilizacoes := map[1 := PENDING], nextId := 2)
  const U2: State := U1.(users := map[7 := User(300, 1000, 0, 1)], ecopontos := map[0 := POINT.(utilizacoes := 1)],
                         utilizacoes := map[1 := APPROVED])
  const U3: State := U2.(users := map[7 := User(600, 2000, 0, 2)], ecopontos := map[0 := POINT.(utilizacoes := 2)])

  /** The member registers a utilizacao at ecoponto 0; it is stored as id 1, pending and without a photo URL. */
  lemma UtilizacaoRegistered()
    ensures RegistarUtilizacao(U0, MEMBER, Some(0), true, Some(7), 102) == Step(U1, Success(()))
    ensures GetUtilizacoesPendentes(U1, ADMIN) == Success(map[1 := PENDING])
  {
    assert U1.utilizacoes[1] == PENDING;
    assert Utilizacoes.Unreviewed(U1.utilizacoes) == map[1 := PENDING];
  }

  /**
   The admin approves it: the member gains 300 pontos, 1000 moedas and one
   use, the ecoponto one use; nothing is pending any more and the member's
   history holds the (undefined) photo of that one utilizacao.
   */
  lemma UtilizacaoApproved()
    ensures ValidarUtilizacao(U1, ADMIN, Some(1), None, Some(true)) == Step(U2, Success(()))
    ensures GetUtilizacoesPendentes(U2, ADMIN) == Failure(NOT_FOUND)
    ensures GetUtilizacoesByUser(U2, MEMBER, 7) == Success([None])
    ensures GetUtilizacoesByUser(U2, ADMIN, 7) == Failure(FORBIDDEN)
  {
    assert Utilizacoes.Unreviewed(U2.utilizacoes) == map[];
    assert MatchingIds(U2.utilizacoes, Some(7), 1) == [];
    assert MatchingIds(U2.utilizacoes, Some(7), 2) == [1];
    assert OwnerKey(U2, 7) == Some(7);
    assert Fotos(U2.utilizacoes, [1]) == [None];
  }

  /**
   Approving it again without a body `vistoAdmin` credits both again; only a
   request whose body says `vistoAdmin: true` is refused.
   */
  lemma UtilizacaoApprovedAgain()
    ensures ValidarUtilizacao(U2, ADMIN, Some(1), None, Some(true)) == Step(U3, Success(()))
    ensures ValidarUtilizacao(U3, ADMIN, Some(1), Some(true), Some(true)) == Step(U3, Failure(BAD_REQUEST))
  {
  }
}
