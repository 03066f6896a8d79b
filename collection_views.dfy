/**
 * The flashcard collection pages: the paginated list of the user's cards
 * (flashcards/core/views/flashcard_list.py) and the owner-checked delete that
 * re-renders the list (flashcards/core/views/flashcard_delete.py).
 */
module CollectionViews {
  import opened Wrappers
  import opened Models
  import Store

  const DefaultPageSize: int := 25
  const MaxPageSize: int := 50

  /** The `page_size` query parameter as an integer: None when absent or not
      an integer, which both give the default. */
  function ClampPageSize(param: Option<int>): (n: int)
    ensures DefaultPageSize <= n <= MaxPageSize
    ensures param.None? ==> n == DefaultPageSize
    ensures param.Some? && DefaultPageSize <= param.value <= MaxPageSize ==> n == param.value
    ensures param.Some? && param.value > MaxPageSize ==> n == MaxPageSize
    ensures param.Some? && param.value < DefaultPageSize ==> n == DefaultPageSize
  {
    match param
    case None => DefaultPageSize
    case Some(size) =>
      var capped := if size < MaxPageSize then size else MaxPageSize;
      if capped > DefaultPageSize then capped else DefaultPageSize
  }

  // ---------------------------------------------------------------------------
  // List

  /** `get_queryset`: the user's cards that pass the `ready()` filter, which is
      not defined in the manager shown and is taken as given. */
  function ListQueryset(cards: map<nat, Flashcard>, user: UserId, ready: Flashcard -> bool): (r: map<nat, Flashcard>)
    ensures forall id :: id in r <==> id in cards && cards[id].owner == user && ready(cards[id])
    ensures forall id :: id in r ==> r[id] == cards[id]
  {
    var own := ForUser(cards, user);
    map id | id in own && ready(own[id]) :: own[id]
  }

  /** The extra context of the list page. */
  datatype ListContext = ListContext(totalCount: nat, hasFlashcards: bool, pageSize: int)

  /** `get_context_data`: how many cards the user has on the list, whether
      there are any, and the clamped page size. */
  function ListContextFor(cards: map<nat, Flashcard>, user: UserId, ready: Flashcard -> bool,
                          pageSizeParam: Option<int>): (c: ListContext)
    ensures c.totalCount == |ListQueryset(cards, user, ready)|
    ensures c.hasFlashcards <==> exists id :: id in cards && cards[id].owner == user && ready(cards[id])
    ensures c.pageSize == ClampPageSize(pageSizeParam)
  {
    var queryset := ListQueryset(cards, user, ready);
    var total := |queryset|;
    NonEmptyMapHasKey(queryset);
    ListContext(total, total > 0, ClampPageSize(pageSizeParam))
  }

  /** A map is non-empty exactly when it has a key. */
  lemma NonEmptyMapHasKey<K, V>(m: map<K, V>)
    ensures |m| > 0 <==> exists k :: k in m
  {
    if |m| > 0 {
      assert m.Keys != {};
      var k :| k in m.Keys;
    } else {
      assert m.Keys == {};
    }
  }

  /** Another user's cards never show on the list. */
  lemma ListShowsOnlyOwnCards(cards: map<nat, Flashcard>, user: UserId, other: UserId, ready: Flashcard -> bool)
    requires user != other
    ensures ListQueryset(cards, user, ready).Keys !! ForUser(cards, other).Keys
  {
    ForUserIsolated(cards, user, other);
  }

  // ---------------------------------------------------------------------------
  // Delete

  /** The number of pages of `count` items, `pageSize` per page; an empty list
      still has its one (empty) first page. */
  function NumPages(count: nat, pageSize: int): (n: nat)
    requires pageSize >= 1
    ensures n >= 1
    ensures count == 0 ==> n == 1
    ensures count > 0 ==> (n - 1) * pageSize < count <= n * pageSize
    ensures n > 1 <==> count > pageSize
  {
    var hits := if count == 0 then 1 else count;
    CeilingDivision(hits, pageSize);
    (hits + pageSize - 1) / pageSize
  }

  /** Rounding-up division: the quotient is the least number of pages that
      holds `hits` items. */
  lemma CeilingDivision(hits: nat, size: int)
    requires hits >= 1 && size >= 1
    ensures var n := (hits + size - 1) / size;
            && n >= 1 && (n - 1) * size < hits <= n * size
            && (n > 1 <==> hits > size)
  {
    var n := (hits + size - 1) / size;
    var r := (hits + size - 1) % size;
    assert hits + size - 1 == n * size + r && 0 <= r < size;
    assert n * size >= hits;
    assert (n - 1) * size == n * size - size;
    if n > 1 {
      assert (n - 1) * size >= size by {
        assert n - 1 >= 1;
        MultiplyAtLeastOne(n - 1, size);
      }
    }
  }

  lemma MultiplyAtLeastOne(k: int, size: int)
    requires k >= 1 && size >= 1
    ensures k * size >= size
  {
    assert k * size == (k - 1) * size + size;
  }

  /** The `page` query parameter: an integer page in range is kept; a missing
      or non-integer page, or one out of range, falls back to page 1. */
  function PageNumber(param: Option<int>, numPages: nat): (p: nat)
    requires numPages >= 1
    ensures 1 <= p <= numPages
    ensures param.Some? && 1 <= param.value <= numPages ==> p == param.value
    ensures param.None? || param.value < 1 || param.value > numPages ==> p == 1
  {
    if param.Some? && 1 <= param.value <= numPages then param.value else 1
  }

  /** The number of items on page `page`. */
  function PageItems(count: nat, pageSize: int, page: nat): (k: nat)
    requires pageSize >= 1 && 1 <= page <= NumPages(count, pageSize)
    ensures k <= pageSize && k <= count
    ensures count > 0 ==> k >= 1
    ensures page < NumPages(count, pageSize) ==> k == pageSize
  {
    var start := (page - 1) * pageSize;
    PageStartBounds(count, pageSize, page);
    var rest := count - start;
    if rest <= 0 then 0 else if rest < pageSize then rest else pageSize
  }

  /** Where page `page` starts: never before the first item, before the last
      item when there are items, and a full page before the end on every page
      but the last. */
  lemma PageStartBounds(count: nat, pageSize: int, page: nat)
    requires pageSize >= 1 && 1 <= page <= NumPages(count, pageSize)
    ensures (page - 1) * pageSize >= 0
    ensures count > 0 ==> (page - 1) * pageSize < count
    ensures page < NumPages(count, pageSize) ==> (page - 1) * pageSize + pageSize < count
  {
    var n := NumPages(count, pageSize);
    MultiplyMonotone(0, page - 1, pageSize);
    MultiplyMonotone(page - 1, n - 1, pageSize);
    if page < n {
      MultiplyMonotone(page, n - 1, pageSize);
      assert (page - 1) * pageSize + pageSize == page * pageSize;
    }
  }

  lemma MultiplyMonotone(a: int, b: int, size: int)
    requires a <= b && size >= 1
    ensures a * size <= b * size
  {
    assert b * size - a * size == (b - a) * size;
  }

  /** The context of the list fragment rendered after a delete. */
  datatype DeleteContext = DeleteContext(
    pageNumber: nat, pageItems: nat, numPages: nat, isPaginated: bool, hasFlashcards: bool, pageSize: int)

  /** The context for a user who has `count` cards left. */
  function DeleteContextFor(count: nat, pageSizeParam: Option<int>, pageParam: Option<int>): (c: DeleteContext)
    ensures c.pageSize == ClampPageSize(pageSizeParam)
    ensures c.numPages == NumPages(count, c.pageSize)
    ensures c.pageNumber == PageNumber(pageParam, c.numPages)
    ensures c.isPaginated <==> count > c.pageSize
    ensures c.hasFlashcards <==> count > 0
    ensures c.pageItems <= c.pageSize && (count > 0 ==> c.pageItems >= 1)
  {
    var size := ClampPageSize(pageSizeParam);
    var pages := NumPages(count, size);
    var page := PageNumber(pageParam, pages);
    DeleteContext(page, PageItems(count, size, page), pages, pages > 1, count > 0, size)
  }

  /** What the delete endpoint answers. */
  datatype DeleteResponse = DeleteNotFound | Rendered(context: DeleteContext)

  /** `FlashcardDeleteView.delete`: only the requester's own card with that key
      is deleted; otherwise 404 and nothing changes. */
  method DeleteFlashcard(db: Store.Database, user: UserId, pk: nat,
                         pageSizeParam: Option<int>, pageParam: Option<int>)
    returns (response: DeleteResponse)
    requires db.Valid()
    modifies db
    ensures db.Valid() && db.sessions == old(db.sessions)
    ensures !(pk in old(db.cards) && old(db.cards)[pk].owner == user) ==>
              response == DeleteNotFound && db.cards == old(db.cards)
    ensures pk in old(db.cards) && old(db.cards)[pk].owner == user ==>
              && db.cards == old(db.cards) - {pk}
              && response == Rendered(DeleteContextFor(|ForUser(db.cards, user)|, pageSizeParam, pageParam))
  {
    if pk !in db.cards || db.cards[pk].owner != user {
      return DeleteNotFound;
    }
    db.DeleteFlashcard(pk);
    var remaining := ForUser(db.cards, user);
    var pageSize := ClampPageSize(pageSizeParam);
    var pages := NumPages(|remaining|, pageSize);
    var page := PageNumber(pageParam, pages);
    response := Rendered(DeleteContext(page, PageItems(|remaining|, pageSize, page), pages, pages > 1,
                                       |remaining| > 0, pageSize));
  }

  /** Deleting one of the user's cards lowers the user's count by exactly one
      and leaves every other user's cards as they were. */
  lemma DeleteRemovesExactlyOne(cards: map<nat, Flashcard>, user: UserId, pk: nat, other: UserId)
    requires pk in cards && cards[pk].owner == user
    ensures ForUser(cards - {pk}, user) == ForUser(cards, user) - {pk}
    ensures |ForUser(cards - {pk}, user)| == |ForUser(cards, user)| - 1
    ensures other != user ==> ForUser(cards - {pk}, other) == ForUser(cards, other)
  {
    var before := ForUser(cards, user);
    var after := ForUser(cards - {pk}, user);
    assert after == before - {pk};
    assert after.Keys == before.Keys - {pk};
  }
}
