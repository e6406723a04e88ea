/** Requests against the seeded store, answered from the contracts of the routes alone. */
module Scenarios {
  import opened Wrappers
  import opened Records
  import opened Auth
  import opened App

  method SeedScenarios(token: string)
    requires ' ' !in token
  {
    var store := new Store();
    var auth := Some("Bearer " + token);
    BearerAccepted(token);
    var newId := "9b2e4c6a-1d3f-4a5b-8c7d-0e1f2a3b4c5d";

    // A request without credentials is refused and changes nothing.
    var r := store.Serve(Some(token), None, GetAllCards, newId);
    assert r == UNAUTHORIZED && store.cards == SEED_CARDS && store.lists == SEED_LISTS;

    // GET /cards/1 finds the first seed card.
    r := store.Serve(Some(token), auth, GetCardById("1"), newId);
    LookupUnique(SEED_CARDS, 0);
    assert r == Response(200, None, CardJson(Card("1", "Task One", "This is card one")));

    // GET /cards/999 misses.
    r := store.Serve(Some(token), auth, GetCardById("999"), newId);
    assert r == NOT_FOUND;

    // POST /lists naming an unknown card is refused and the lists stay as they were.
    assert !HasCard(store.cards, "999");
    assert ["999"][0] == "999";
    r := store.Serve(Some(token), auth, PostList(Some("Bad"), Some(["999"])), newId);
    assert r == INVALID_DATA && store.lists == SEED_LISTS;

    // POST /lists naming cards 1 and 2 appends one list and answers with its id only.
    assert store.cards[0].id == "1" && store.cards[1].id == "2";
    r := store.Serve(Some(token), auth, PostList(Some("New List"), Some(["1", "2"])), newId);
    assert r == Response(201, Some(LIST_LOCATION + newId), IdJson(newId));
    assert store.lists == SEED_LISTS + [List(newId, "New List", ["1", "2"])];
  }
}
