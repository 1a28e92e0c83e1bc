/** The live counts of all books together are the sizes of the index and of the places. */
module BookTotals {
  import opened Types
  import opened MemoryPools
  import opened BookShapes
  import opened OrderBooks
  import opened Markets
  import opened EngineShapes

  ghost function LiveOrders(books: map<u16, BookView>): int
    decreases books.Keys
  {
    if books == map[] then 0
    else
      var loc :| loc in books;
      books[loc].live + LiveOrders(books - {loc})
  }

  ghost function LiveLevels(books: map<u16, BookView>): int
    decreases books.Keys
  {
    if books == map[] then 0
    else
      var loc :| loc in books;
      books[loc].bid.count + books[loc].ask.count + LiveLevels(books - {loc})
  }

  /** A book counts as many live orders as ids lead to it. */
  lemma LiveIsIds(s: Memory, loc: u16)
    requires Coherent(s) && loc in s.books
    ensures IndexedWait(s) && s.books[loc].live == |IdsAt(s, loc)|
  {
    hide BookOk, InBook, BooksOk, WaitingIndexed, PlacesTabled, Walk, Remaining;
    CoherentParts(s);
    BookAt(s, loc);
    var visited := Walk(s.books[loc].bid.list, s.books[loc].fifo) + Walk(s.books[loc].ask.list, s.books[loc].fifo);
    VisitsEachOnce(s.om, s.lm, loc, s.books[loc]);
    WalkFindsIds(s, loc, visited);
    IdsOfVisited(s, loc, visited);
  }

  lemma IdsOfVisited(s: Memory, loc: u16, visited: seq<Ptr>)
    requires IndexedWait(s) && BooksOk(s) && loc in s.books && Distinct(visited) && AllIndexed(s, visited)
    requires forall p :: p in visited <==> InBook(s.books[loc], p)
    ensures |visited| == |IdsAt(s, loc)|
  {
    hide BookOk, InBook, BooksOk;
    BookAt(s, loc);
    var ids := seq(|visited|, i requires 0 <= i < |visited| => IdAt(s.om, visited[i]));
    forall i | 0 <= i < |visited|
      ensures ids[i] in s.ids && s.ids[ids[i]] == visited[i] && ids[i] in IdsAt(s, loc)
    {
      assert visited[i] in visited;
      OrdersApart(s.om, s.lm, loc, s.books[loc], visited[i]);
    }
    forall id | id in IdsAt(s, loc)
      ensures id in ids
    {
      var i :| 0 <= i < |visited| && visited[i] == s.ids[id];
      assert ids[i] == id;
    }
    DistinctCardinality(ids, IdsAt(s, loc));
  }

  /** Ids split by instrument. */
  lemma {:induction false} IdsAddUp(s: Memory, books: map<u16, BookView>, ids: set<OrderId>)
    requires Coherent(s) && IndexedWait(s) && books.Keys <= s.books.Keys
    requires forall loc :: loc in books ==> books[loc] == s.books[loc]
    requires forall id :: id in ids <==> id in s.ids && s.om[s.ids[id]].value.locate in books
    ensures |ids| == LiveOrders(books)
    decreases books.Keys
  {
    hide Coherent, InBook, IndexedWait;
    if books == map[] {
      assert ids == {};
    } else {
      var loc :| loc in books && LiveOrders(books) == books[loc].live + LiveOrders(books - {loc});
      LiveIsIds(s, loc);
      var here := IdsAt(s, loc);
      IdsAddUp(s, books - {loc}, ids - here);
      assert ids == here + (ids - here);
    }
  }

  /** Places split by instrument. */
  lemma {:induction false} PlacesAddUp(s: Memory, books: map<u16, BookView>, places: set<Key>)
    requires Coherent(s) && books.Keys <= s.books.Keys && forall loc :: loc in books ==> books[loc] == s.books[loc]
    requires forall k :: k in places <==> k in s.places && k.loc in books
    ensures |places| == LiveLevels(books)
    decreases books.Keys
  {
    hide Coherent, BookShape;
    if books == map[] {
      assert places == {};
    } else {
      var loc :| loc in books && LiveLevels(books)
          == books[loc].bid.count + books[loc].ask.count + LiveLevels(books - {loc});
      CountsAreLevels(s, loc);
      var here := PlacesAt(s, loc);
      PlacesAddUp(s, books - {loc}, places - here);
      assert places == here + (places - here);
    }
  }

  lemma TotalsAreSizes(s: Memory)
    requires Coherent(s)
    ensures LiveOrders(s.books) == |s.ids| && LiveLevels(s.books) == |s.places|
  {
    CoherentParts(s);
    HomesExist(s);
    IdsAddUp(s, s.books, s.ids.Keys);
    PlacesAddUp(s, s.books, s.places.Keys);
  }

  lemma HomesExist(s: Memory)
    requires IndexedWait(s) && PlacesTabled(s)
    ensures forall id :: id in s.ids ==> s.om[s.ids[id]].value.locate in s.books
    ensures forall k :: k in s.places ==> k.loc in s.books
  {
    hide InBook;
  }

  // ---- no two names for one slot ----

  lemma IdsAreApart(s: Memory)
    requires IndexedWait(s)
    ensures Injective(s.ids) && forall id :: id in s.ids ==> Live(s.om, s.ids[id])
  {
    hide InBook;
  }

  lemma PlacesAreApart(s: Memory)
    requires Coherent(s)
    ensures Injective(s.places) && forall k :: k in s.places ==> Live(s.lm, s.places[k])
  {
    hide BookOk, BooksOk, IndexedWait, WaitingIndexed;
    CoherentParts(s);
    forall a, b | a in s.places && b in s.places && s.places[a] == s.places[b]
      ensures a == b
    {
      SamePlace(s, a, b);
    }
    forall k | k in s.places
      ensures Live(s.lm, s.places[k])
    {
      PlaceLevel(s, k);
    }
  }

  lemma SamePlace(s: Memory, a: Key, b: Key)
    requires Coherent(s) && a in s.places && b in s.places && s.places[a] == s.places[b]
    ensures a == b
  {
    hide BookOk, IndexedWait, WaitingIndexed;
    CoherentParts(s);
    PlaceLevel(s, a);
    PlaceLevel(s, b);
    if a.loc != b.loc {
      BookAt(s, a.loc);
      BookAt(s, b.loc);
      LevelsApart(s.om, s.lm, a.loc, s.books[a.loc], b.loc, s.books[b.loc], s.places[a]);
    }
  }
}
