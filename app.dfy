/** The cards-and-lists store and its six routes, behind the bearer-token gate. */
module App {
  import opened Wrappers
  import opened Records
  import opened Auth

  const SEED_CARDS: seq<Card> := [
    Card("1", "Task One", "This is card one"),
    Card("2", "Task Two", "This is card two"),
    Card("3", "Task Three", "This is card three")
  ]

  const SEED_LISTS: seq<List> := [List("1", "List One", ["1"])]

  const CARD_LOCATION := "http://localhost:8000/card/"
  const LIST_LOCATION := "http://localhost:8000/list/"

  /** No two cards share an id. */
  ghost predicate UniqueCardIds(cards: seq<Card>) {
    forall i, j :: 0 <= i < j < |cards| ==> cards[i].id != cards[j].id
  }

  /** No two lists share an id. */
  ghost predicate UniqueListIds(lists: seq<List>) {
    forall i, j :: 0 <= i < j < |lists| ==> lists[i].id != lists[j].id
  }

  /** Every card id named by a list belongs to a card of the table. */
  ghost predicate ListsReferToCards(cards: seq<Card>, lists: seq<List>) {
    forall i :: 0 <= i < |lists| ==> AllCardsExist(cards, lists[i].cardIds)
  }

  /** With unique ids, looking up a card's own id finds exactly that card. */
  lemma LookupUnique(cards: seq<Card>, i: nat)
    requires UniqueCardIds(cards) && i < |cards|
    ensures FindCard(cards, cards[i].id) == Some(cards[i])
  {
    FindCardFirst(cards, cards[i].id, i);
  }

  /** Cards only ever grow, so references that resolved keep resolving. */
  lemma ReferencesSurviveNewCard(cards: seq<Card>, lists: seq<List>, c: Card)
    requires ListsReferToCards(cards, lists)
    ensures ListsReferToCards(cards + [c], lists)
  {
    var all := cards + [c];
    forall i, k | 0 <= i < |lists| && 0 <= k < |lists[i].cardIds|
      ensures HasCard(all, lists[i].cardIds[k])
    {
      var j :| 0 <= j < |cards| && cards[j].id == lists[i].cardIds[k];
      assert all[j] == cards[j];
    }
  }

  /** The card ids the `POST /lists` check logs as not found, in the order it visits them. */
  function MissingCardIds(cards: seq<Card>, ids: seq<Id>): seq<Id> {
    if |ids| == 0 then []
    else
      var last := ids[|ids| - 1];
      MissingCardIds(cards, ids[..|ids| - 1]) + (if HasCard(cards, last) then [] else [last])
  }

  /** Each id occurs among the missing ones exactly as often as in the request when it names
      no card, and not at all when it does. */
  lemma {:induction false} MissingCardIdsCount(cards: seq<Card>, ids: seq<Id>, x: Id)
    ensures multiset(MissingCardIds(cards, ids))[x] == if HasCard(cards, x) then 0 else multiset(ids)[x]
  {
    if |ids| > 0 {
      var init, last := ids[..|ids| - 1], ids[|ids| - 1];
      MissingCardIdsCount(cards, init, x);
      assert ids == init + [last];
      assert multiset(ids) == multiset(init) + multiset{last};
    }
  }

  /** The ids reported missing do not depend on the order the request lists them in. */
  lemma MissingCardIdsPermutation(cards: seq<Card>, a: seq<Id>, b: seq<Id>)
    requires multiset(a) == multiset(b)
    ensures multiset(MissingCardIds(cards, a)) == multiset(MissingCardIds(cards, b))
  {
    forall x ensures multiset(MissingCardIds(cards, a))[x] == multiset(MissingCardIds(cards, b))[x] {
      MissingCardIdsCount(cards, a, x);
      MissingCardIdsCount(cards, b, x);
    }
  }

  /** Nothing is missing exactly when every id names a card. */
  lemma {:induction false} MissingNoneIffAllExist(cards: seq<Card>, ids: seq<Id>)
    ensures MissingCardIds(cards, ids) == [] <==> AllCardsExist(cards, ids)
  {
    if MissingCardIds(cards, ids) == [] {
      forall k | 0 <= k < |ids| ensures HasCard(cards, ids[k]) {
        MissingCardIdsCount(cards, ids, ids[k]);
      }
    } else {
      var x := MissingCardIds(cards, ids)[0];
      MissingCardIdsCount(cards, ids, x);
      assert x in ids;
    }
  }

  /** Which of the two `POST /cards` checks fails first, if either does: title, then content. */
  datatype CardRejection = TitleRequired | ContentRequired

  function CheckCard(title: Option<string>, content: Option<string>): (r: Option<CardRejection>)
    ensures r == None <==> Present(title) && Present(content)
    ensures r == Some(TitleRequired) <==> !Present(title)
    ensures r == Some(ContentRequired) <==> Present(title) && !Present(content)
  {
    if !Present(title) then Some(TitleRequired)
    else if !Present(content) then Some(ContentRequired)
    else None
  }

  /** The requests the routes serve; bodies are restricted to strings and arrays of ids. */
  datatype Request =
    | GetAllCards
    | GetAllLists
    | GetCardById(id: Id)
    | GetListById(id: Id)
    | PostCard(title: Option<string>, content: Option<string>)
    | PostList(header: Option<string>, cardIds: Option<seq<Id>>)

  /** The two module-level arrays, seeded at start and appended to by the POST routes. */
  class Store {
    var cards: seq<Card>
    var lists: seq<List>

    ghost predicate Valid()
      reads this
    {
      UniqueCardIds(cards) && UniqueListIds(lists) && ListsReferToCards(cards, lists)
    }

    constructor ()
      ensures Valid()
      ensures cards == SEED_CARDS && lists == SEED_LISTS
    {
      cards := SEED_CARDS;
      lists := SEED_LISTS;
      assert SEED_CARDS[0].id == "1";
    }

    /** `GET /cards`: every card, in insertion order. */
    function GetCards(): (resp: Response)
      reads this
      ensures resp.status == 200 && resp.body == CardsJson(cards)
    {
      Response(200, None, CardsJson(cards))
    }

    /** `GET /lists`: every list, in insertion order. */
    function GetLists(): (resp: Response)
      reads this
      ensures resp.status == 200 && resp.body == ListsJson(lists)
    {
      Response(200, None, ListsJson(lists))
    }

    /** `GET /cards/:id`. */
    function GetCard(id: Id): (resp: Response)
      reads this
      ensures resp.status == 200 <==> HasCard(cards, id)
      ensures !HasCard(cards, id) ==> resp == NOT_FOUND
      ensures HasCard(cards, id) ==>
        resp.body.CardJson? && resp.body.card.id == id && resp.body.card in cards
      ensures forall i :: FirstCardAt(cards, id, i) ==> resp == Response(200, None, CardJson(cards[i]))
    {
      assert forall i :: FirstCardAt(cards, id, i) ==> FindCard(cards, id) == Some(cards[i]) by {
        forall i | FirstCardAt(cards, id, i) ensures FindCard(cards, id) == Some(cards[i]) {
          FindCardFirst(cards, id, i);
        }
      }
      match FindCard(cards, id)
      case None => NOT_FOUND
      case Some(c) => Response(200, None, CardJson(c))
    }

    /** `GET /lists/:id`; a miss answers with the card wording too. */
    function GetList(id: Id): (resp: Response)
      reads this
      ensures resp.status == 200 <==> HasList(lists, id)
      ensures !HasList(lists, id) ==> resp == NOT_FOUND
      ensures HasList(lists, id) ==>
        resp.body.ListJson? && resp.body.list.id == id && resp.body.list in lists
      ensures forall i :: FirstListAt(lists, id, i) ==> resp == Response(200, None, ListJson(lists[i]))
    {
      assert forall i :: FirstListAt(lists, id, i) ==> FindList(lists, id) == Some(lists[i]) by {
        forall i | FirstListAt(lists, id, i) ensures FindList(lists, id) == Some(lists[i]) {
          FindListFirst(lists, id, i);
        }
      }
      match FindList(lists, id)
      case None => NOT_FOUND
      case Some(l) => Response(200, None, ListJson(l))
    }

    /** The `forEach` over the requested card ids: visits all of them, clears `valid` on
        each miss and never stops early; `missing` collects the ids it logs. */
    method CheckCardIds(cardIds: seq<Id>) returns (valid: bool, missing: seq<Id>)
      ensures missing == MissingCardIds(cards, cardIds)
      ensures valid <==> AllCardsExist(cards, cardIds)
      ensures valid <==> missing == []
    {
      valid := true;
      missing := [];
      var i := 0;
      while i < |cardIds|
        invariant 0 <= i <= |cardIds|
        invariant missing == MissingCardIds(cards, cardIds[..i])
        invariant valid <==> missing == []
      {
        var card := FindCard(cards, cardIds[i]);
        if card.None? {
          missing := missing + [cardIds[i]];
          valid := false;
        }
        assert cardIds[..i + 1][..i] == cardIds[..i];
        i := i + 1;
      }
      assert cardIds[..i] == cardIds;
      MissingNoneIffAllExist(cards, cardIds);
    }

    /** `POST /cards`. */
    method CreateCard(title: Option<string>, content: Option<string>, freshId: Id)
      returns (resp: Response)
      requires Valid()
      requires !HasCard(cards, freshId)
      modifies this
      ensures Valid()
      ensures lists == old(lists)
      ensures CheckCard(title, content).Some? ==> cards == old(cards) && resp == INVALID_DATA
      ensures CheckCard(title, content).None? ==>
        var card := Card(freshId, title.value, content.value);
        cards == old(cards) + [card] &&
        resp == Response(201, Some(CARD_LOCATION + freshId), CardJson(card)) &&
        GetCard(freshId) == Response(200, None, CardJson(card))
      ensures forall id :: id != freshId ==> GetCard(id) == old(GetCard(id))
    {
      if CheckCard(title, content).Some? {
        resp := INVALID_DATA;
        return;
      }
      var card := Card(freshId, title.value, content.value);
      ReferencesSurviveNewCard(cards, lists, card);
      FindCardAppended(cards, card);
      forall id | id != freshId ensures FindCard(cards + [card], id) == FindCard(cards, id) {
        FindCardAppendOther(cards, card, id);
      }
      cards := cards + [card];
      resp := Response(201, Some(CARD_LOCATION + freshId), CardJson(card));
    }

    /** `POST /lists`; an absent `cardIds` means the empty sequence. */
    method CreateList(header: Option<string>, cardIds: Option<seq<Id>>, freshId: Id)
      returns (resp: Response)
      requires Valid()
      requires !HasList(lists, freshId)
      modifies this
      ensures Valid()
      ensures cards == old(cards)
      ensures !Present(header) || !AllCardsExist(cards, cardIds.GetOr([])) ==>
        lists == old(lists) && resp == INVALID_DATA
      ensures Present(header) && AllCardsExist(cards, cardIds.GetOr([])) ==>
        lists == old(lists) + [List(freshId, header.value, cardIds.GetOr([]))] &&
        resp == Response(201, Some(LIST_LOCATION + freshId), IdJson(freshId)) &&
        GetList(freshId) == Response(200, None, ListJson(List(freshId, header.value, cardIds.GetOr([]))))
      ensures forall id :: id != freshId ==> GetList(id) == old(GetList(id))
    {
      if !Present(header) {
        resp := INVALID_DATA;
        return;
      }
      var ids := cardIds.GetOr([]);
      if |ids| > 0 {
        var valid, missing := CheckCardIds(ids);
        if !valid {
          resp := INVALID_DATA;
          return;
        }
      }
      var list := List(freshId, header.value, ids);
      FindListAppended(lists, list);
      forall id | id != freshId ensures FindList(lists + [list], id) == FindList(lists, id) {
        FindListAppendOther(lists, list, id);
      }
      lists := lists + [list];
      resp := Response(201, Some(LIST_LOCATION + freshId), IdJson(freshId));
    }

    /** One request through the chain: the gate first, then the matching route. */
    method Serve(apiToken: Option<string>, authorization: Option<string>, req: Request, freshId: Id)
      returns (resp: Response)
      requires Valid()
      requires !HasCard(cards, freshId) && !HasList(lists, freshId)
      modifies this
      ensures Valid()
      ensures ValidateBearerToken(apiToken, authorization).Halt? ==> resp == UNAUTHORIZED
      ensures resp.status != 201 ==> cards == old(cards) && lists == old(lists)
      ensures resp.status == 201 ==>
        (req.PostCard? && Present(req.title) && Present(req.content) && lists == old(lists) &&
         cards == old(cards) + [Card(freshId, req.title.value, req.content.value)]) ||
        (req.PostList? && Present(req.header) && AllCardsExist(cards, req.cardIds.GetOr([])) &&
         cards == old(cards) &&
         lists == old(lists) + [List(freshId, req.header.value, req.cardIds.GetOr([]))])
      ensures ValidateBearerToken(apiToken, authorization).Next? ==>
        (req.GetAllCards? ==> resp == GetCards()) &&
        (req.GetAllLists? ==> resp == GetLists()) &&
        (req.GetCardById? ==> resp == GetCard(req.id)) &&
        (req.GetListById? ==> resp == GetList(req.id)) &&
        (req.PostCard? ==> (resp.status == 201 <==> Present(req.title) && Present(req.content))) &&
        (req.PostList? ==>
          (resp.status == 201 <==> Present(req.header) && AllCardsExist(cards, req.cardIds.GetOr([])))) &&
        (resp.status != 201 && (req.PostCard? || req.PostList?) ==> resp == INVALID_DATA)
      ensures req.PostCard? && resp.status == 201 ==>
        resp == Response(201, Some(CARD_LOCATION + freshId),
                         CardJson(Card(freshId, req.title.value, req.content.value)))
      ensures req.PostList? && resp.status == 201 ==>
        resp == Response(201, Some(LIST_LOCATION + freshId), IdJson(freshId))
    {
      if ValidateBearerToken(apiToken, authorization).Halt? {
        resp := UNAUTHORIZED;
        return;
      }
      match req
      case GetAllCards => resp := GetCards();
      case GetAllLists => resp := GetLists();
      case GetCardById(id) => resp := GetCard(id);
      case GetListById(id) => resp := GetList(id);
      case PostCard(title, content) => resp := CreateCard(title, content, freshId);
      case PostList(header, cardIds) => resp := CreateList(header, cardIds, freshId);
    }
  }
}
