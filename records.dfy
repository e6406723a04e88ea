/** The two record kinds held in memory, the responses a route sends, and the
    `Array.find` lookups over the two tables. */
module Records {
  import opened Wrappers

  /** Identifiers of cards and lists. Generated ids are uuid strings; the numeric ids
      of the seed records are written as their decimal strings. Ids are compared exactly. */
  type Id = string

  datatype Card = Card(id: Id, title: string, content: string)

  datatype List = List(id: Id, header: string, cardIds: seq<Id>)

  /** What a route hands to the response object: a JSON value or a plain-text body. */
  datatype Body =
    | CardsJson(cards: seq<Card>)
    | ListsJson(lists: seq<List>)
    | CardJson(card: Card)
    | ListJson(list: List)
    | IdJson(id: Id)
    | ErrorJson(error: string)
    | Text(text: string)

  datatype Response = Response(status: nat, location: Option<string>, body: Body)

  /** The 400 response shared by every validation failure. */
  const INVALID_DATA := Response(400, None, Text("Invalid data"))

  /** The 404 response of both lookup routes (lists reuse the card wording). */
  const NOT_FOUND := Response(404, None, Text("Card not found"))

  /** A request body field counts as given when it is a non-empty string (JavaScript truthiness
      restricted to strings and `undefined`). */
  predicate Present(field: Option<string>) {
    field.Some? && field.value != ""
  }

  /** Some card in the table carries this id. */
  predicate HasCard(cards: seq<Card>, id: Id) {
    exists i :: 0 <= i < |cards| && cards[i].id == id
  }

  /** Some list in the table carries this id. */
  predicate HasList(lists: seq<List>, id: Id) {
    exists i :: 0 <= i < |lists| && lists[i].id == id
  }

  /** Every id in `ids` names a card of the table. */
  predicate AllCardsExist(cards: seq<Card>, ids: seq<Id>) {
    forall k :: 0 <= k < |ids| ==> HasCard(cards, ids[k])
  }

  /** `cards.find(c => c.id == id)`: the first card with that id, scanning from the front. */
  function FindCard(cards: seq<Card>, id: Id): (r: Option<Card>)
    ensures r.None? <==> !HasCard(cards, id)
    ensures r.Some? ==> r.value.id == id && r.value in cards
  {
    if |cards| == 0 then None
    else if cards[0].id == id then Some(cards[0])
    else
      var r := FindCard(cards[1..], id);
      assert HasCard(cards[1..], id) ==> HasCard(cards, id) by {
        if HasCard(cards[1..], id) {
          var i :| 0 <= i < |cards[1..]| && cards[1..][i].id == id;
          assert cards[i + 1].id == id;
        }
      }
      assert HasCard(cards, id) ==> HasCard(cards[1..], id) by {
        if HasCard(cards, id) {
          var i :| 0 <= i < |cards| && cards[i].id == id;
          assert i != 0;
          assert cards[1..][i - 1].id == id;
        }
      }
      r
  }

  /** `lists.find(li => li.id == id)`: the first list with that id, scanning from the front. */
  function FindList(lists: seq<List>, id: Id): (r: Option<List>)
    ensures r.None? <==> !HasList(lists, id)
    ensures r.Some? ==> r.value.id == id && r.value in lists
  {
    if |lists| == 0 then None
    else if lists[0].id == id then Some(lists[0])
    else
      var r := FindList(lists[1..], id);
      assert HasList(lists[1..], id) ==> HasList(lists, id) by {
        if HasList(lists[1..], id) {
          var i :| 0 <= i < |lists[1..]| && lists[1..][i].id == id;
          assert lists[i + 1].id == id;
        }
      }
      assert HasList(lists, id) ==> HasList(lists[1..], id) by {
        if HasList(lists, id) {
          var i :| 0 <= i < |lists| && lists[i].id == id;
          assert i != 0;
          assert lists[1..][i - 1].id == id;
        }
      }
      r
  }

  /** Index `i` holds the first card carrying `id`. */
  predicate FirstCardAt(cards: seq<Card>, id: Id, i: int) {
    0 <= i < |cards| && cards[i].id == id && forall j :: 0 <= j < i ==> cards[j].id != id
  }

  /** Index `i` holds the first list carrying `id`. */
  predicate FirstListAt(lists: seq<List>, id: Id, i: int) {
    0 <= i < |lists| && lists[i].id == id && forall j :: 0 <= j < i ==> lists[j].id != id
  }

  /** The lookup answers with the card at the FIRST index carrying the id. */
  lemma {:induction false} FindCardFirst(cards: seq<Card>, id: Id, i: int)
    requires FirstCardAt(cards, id, i)
    ensures FindCard(cards, id) == Some(cards[i])
  {
    if i > 0 {
      FindCardFirst(cards[1..], id, i - 1);
    }
  }

  /** The lookup answers with the list at the FIRST index carrying the id. */
  lemma {:induction false} FindListFirst(lists: seq<List>, id: Id, i: int)
    requires FirstListAt(lists, id, i)
    ensures FindList(lists, id) == Some(lists[i])
  {
    if i > 0 {
      FindListFirst(lists[1..], id, i - 1);
    }
  }

  /** After appending a card whose id was unused, looking that id up returns the new card. */
  lemma FindCardAppended(cards: seq<Card>, c: Card)
    requires !HasCard(cards, c.id)
    ensures FindCard(cards + [c], c.id) == Some(c)
  {
    var all := cards + [c];
    forall j | 0 <= j < |cards| ensures all[j].id != c.id {
      assert all[j] == cards[j];
    }
    FindCardFirst(all, c.id, |cards|);
  }

  /** Appending a card does not change the answer for any id that was already present,
      nor for any other id than the new card's. */
  lemma {:induction false} FindCardAppendOther(cards: seq<Card>, c: Card, id: Id)
    requires id != c.id || HasCard(cards, id)
    ensures FindCard(cards + [c], id) == FindCard(cards, id)
  {
    if |cards| == 0 {
      assert cards + [c] == [c];
    } else if cards[0].id != id {
      assert (cards + [c])[1..] == cards[1..] + [c];
      if HasCard(cards, id) {
        var i :| 0 <= i < |cards| && cards[i].id == id;
        assert cards[1..][i - 1].id == id;
      }
      FindCardAppendOther(cards[1..], c, id);
    }
  }

  /** Appending a list does not change the answer for any id that was already present,
      nor for any other id than the new list's. */
  lemma {:induction false} FindListAppendOther(lists: seq<List>, l: List, id: Id)
    requires id != l.id || HasList(lists, id)
    ensures FindList(lists + [l], id) == FindList(lists, id)
  {
    if |lists| == 0 {
      assert lists + [l] == [l];
    } else if lists[0].id != id {
      assert (lists + [l])[1..] == lists[1..] + [l];
      if HasList(lists, id) {
        var i :| 0 <= i < |lists| && lists[i].id == id;
        assert lists[1..][i - 1].id == id;
      }
      FindListAppendOther(lists[1..], l, id);
    }
  }

  /** After appending a list whose id was unused, looking that id up returns the new list. */
  lemma FindListAppended(lists: seq<List>, l: List)
    requires !HasList(lists, l.id)
    ensures FindList(lists + [l], l.id) == Some(l)
  {
    var all := lists + [l];
    forall j | 0 <= j < |lists| ensures all[j].id != l.id {
      assert all[j] == lists[j];
    }
    FindListFirst(all, l.id, |lists|);
  }
}
