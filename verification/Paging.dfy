/** Keyset pagination of node listings. A row is placed by its name key and id; a search orders by that place alone,
    a folder listing puts folders before files, yet both continue after the place of the last row returned. */
module Paging {
  import opened Basics
  import opened Schema
  import opened Tree

  // ---------------------------------------------------------------- order

  /** Lexicographic order of strings. */
  predicate Less(a: string, b: string) {
    b != "" && (a == "" || a[0] < b[0] || (a[0] == b[0] && Less(a[1..], b[1..])))
  }

  lemma {:induction false} LessIrreflexive(a: string)
    ensures !Less(a, a)
    decreases |a|
  {
    if a != "" { LessIrreflexive(a[1..]); }
  }

  lemma {:induction false} LessTotal(a: string, b: string)
    ensures a == b || Less(a, b) || Less(b, a)
    ensures !(Less(a, b) && Less(b, a))
    decreases |a|
  {
    if a != "" && b != "" && a[0] == b[0] {
      LessTotal(a[1..], b[1..]);
      assert a == [a[0]] + a[1..] && b == [b[0]] + b[1..];
    }
  }

  lemma {:induction false} LessTransitive(a: string, b: string, c: string)
    requires Less(a, b) && Less(b, c)
    ensures Less(a, c)
    decreases |a|
  {
    if a != "" && a[0] == b[0] && b[0] == c[0] { LessTransitive(a[1..], b[1..], c[1..]); }
  }

  /** `b` goes on where `a` ends, or it has the greater character where they first differ. */
  ghost predicate FirstDiffers(a: string, b: string, k: nat) {
    k <= |a| && k < |b| && a[..k] == b[..k] && (k == |a| || a[k] < b[k])
  }

  lemma {:induction false} LessMeans(a: string, b: string)
    ensures Less(a, b) <==> exists k: nat :: FirstDiffers(a, b, k)
    decreases |a|
  {
    forall k: nat | FirstDiffers(a, b, k) && k > 0 ensures a != "" && b != "" && a[0] == b[0] { SameHead(a, b, k); }
    if a == "" || b == "" || a[0] != b[0] {
      if Less(a, b) { assert FirstDiffers(a, b, 0); }
    } else {
      LessMeans(a[1..], b[1..]);
      if Less(a, b) {
        var k: nat :| FirstDiffers(a[1..], b[1..], k);
        assert a[..k + 1] == [a[0]] + a[1..][..k] && b[..k + 1] == [b[0]] + b[1..][..k];
        assert FirstDiffers(a, b, k + 1);
      }
      if k: nat :| FirstDiffers(a, b, k) {
        assert k > 0;
        assert a[1..][..k - 1] == a[..k][1..] && b[1..][..k - 1] == b[..k][1..];
        assert FirstDiffers(a[1..], b[1..], k - 1);
      }
    }
  }

  lemma SameHead(a: string, b: string, k: nat)
    requires FirstDiffers(a, b, k) && k > 0
    ensures a != "" && b != "" && a[0] == b[0]
  {
    assert a[0] == a[..k][0] && b[0] == b[..k][0];
  }

  datatype Place = Place(key: string, id: Id)

  /** The absent cursor: empty key and empty id. */
  const START := Place("", "")

  predicate Before(p: Place, q: Place) {
    Less(p.key, q.key) || (p.key == q.key && Less(p.id, q.id))
  }

  /** The order of a listing in which the places in `folders` come first; a search has none. */
  predicate Ahead(folders: set<Place>, p: Place, q: Place) {
    if (p in folders) == (q in folders) then Before(p, q) else p in folders
  }

  lemma BeforeTotal(p: Place, q: Place)
    ensures !Before(p, p) && (p == q || Before(p, q) || Before(q, p)) && !(Before(p, q) && Before(q, p))
  {
    LessIrreflexive(p.key);
    LessIrreflexive(p.id);
    LessTotal(p.key, q.key);
    LessTotal(p.id, q.id);
  }

  lemma BeforeTransitive(p: Place, q: Place, r: Place)
    requires Before(p, q) && Before(q, r)
    ensures Before(p, r)
  {
    if Less(p.key, q.key) && Less(q.key, r.key) { LessTransitive(p.key, q.key, r.key); }
    if Less(p.id, q.id) && Less(q.id, r.id) { LessTransitive(p.id, q.id, r.id); }
  }

  lemma AheadTotal(folders: set<Place>, p: Place, q: Place)
    ensures p == q || Ahead(folders, p, q) || Ahead(folders, q, p)
  {
    BeforeTotal(p, q);
  }

  lemma AheadTransitive(folders: set<Place>, p: Place, q: Place, r: Place)
    requires Ahead(folders, p, q) && Ahead(folders, q, r)
    ensures Ahead(folders, p, r)
  {
    if Before(p, q) && Before(q, r) { BeforeTransitive(p, q, r); }
  }

  // ---------------------------------------------------------------- one page

  datatype Page = Page(items: seq<Place>, next: Option<Place>)

  /** Rows still to come after `cursor`. */
  function After(rows: set<Place>, cursor: Place): set<Place> {
    set r | r in rows && Before(cursor, r)
  }

  ghost predicate Ascending(folders: set<Place>, s: seq<Place>) {
    forall i, j | 0 <= i < j < |s| :: Ahead(folders, s[i], s[j])
  }

  /** `page` is the answer of one listing call on the matching rows `rows`: the first `limit` rows after the cursor,
      and a next cursor exactly when there are more. */
  ghost predicate IsPage(folders: set<Place>, rows: set<Place>, cursor: Place, limit: nat, page: Page) {
    && 0 < limit && |page.items| <= limit && Ascending(folders, page.items)
    && (forall r | r in page.items :: r in After(rows, cursor))
    && (page.next.None? ==> forall r | r in After(rows, cursor) :: r in page.items)
    && (page.next.Some? ==>
          && |page.items| == limit && page.next.value == page.items[limit - 1]
          && (exists r :: r in After(rows, cursor) && r !in page.items)
          && forall r | r in After(rows, cursor) && r !in page.items :: Ahead(folders, page.next.value, r))
  }

  /** ORDER BY ... LIMIT n: the first rows of the set, in order. */
  method FirstRows(folders: set<Place>, rows: set<Place>, n: nat) returns (out: seq<Place>)
    ensures Ascending(folders, out) && (forall r | r in out :: r in rows)
    ensures |out| == n || (|out| < n && forall r | r in rows :: r in out)
    ensures forall r, o | r in rows && r !in out && o in out :: Ahead(folders, o, r)
  {
    out := [];
    var left := rows;
    while |out| < n && left != {}
      invariant left <= rows && |out| <= n && Ascending(folders, out)
      invariant forall r :: r in out <==> r in rows && r !in left
      invariant forall r, o | r in left && o in out :: Ahead(folders, o, r)
      decreases |left|
    {
      var least := Least(folders, left);
      out := out + [least];
      left := left - {least};
    }
  }

  method Least(folders: set<Place>, rows: set<Place>) returns (least: Place)
    requires rows != {}
    ensures least in rows && forall r | r in rows && r != least :: Ahead(folders, least, r)
  {
    least :| least in rows;
    var left := rows - {least};
    while left != {}
      invariant least in rows && least !in left && left <= rows
      invariant forall r | r in rows - left && r != least :: Ahead(folders, least, r)
      decreases |left|
    {
      var r :| r in left;
      AheadTotal(folders, r, least);
      if Ahead(folders, r, least) {
        forall q | q in rows - left && q != least ensures Ahead(folders, r, q) {
          AheadTransitive(folders, r, least, q);
        }
        least := r;
      }
      left := left - {r};
    }
  }

  /** Where the listing starts. */
  function From(cursor: Option<Place>): Place {
    if cursor.Some? then cursor.value else START
  }

  /** The listing call after its WHERE clause has selected `rows`: fetch one row more than asked for, collect the
      rows in a loop, and cut. */
  method CutPage(folders: set<Place>, rows: set<Place>, cursor: Option<Place>, limit: int) returns (page: Page)
    ensures IsPage(folders, rows, From(cursor), PageSize(limit), page)
  {
    var size := PageSize(limit);
    var from := From(cursor);
    var fetched := FirstRows(folders, After(rows, from), size + 1);
    var items := [];
    for i := 0 to |fetched|
      invariant items == fetched[..i]
    {
      items := items + [fetched[i]];
    }
    assert items == fetched;
    if |items| > size {
      assert fetched[size] in fetched && fetched[size] !in fetched[..size] by { OnceOnly(folders, fetched, size); }
      assert forall r | r in fetched[..size] :: r in fetched;
      RestFollows(folders, After(rows, from), fetched, size);
      page := Page(items[..size], Some(items[size - 1]));
    } else {
      page := Page(items, None);
    }
  }

  /** A limit outside 1..200 counts as 50. */
  function PageSize(limit: int): nat {
    if limit <= 0 || limit > 200 then 50 else limit
  }

  lemma OnceOnly(folders: set<Place>, s: seq<Place>, k: nat)
    requires Ascending(folders, s) && k < |s|
    ensures s[k] !in s[..k]
  {
    forall i | 0 <= i < k ensures s[i] != s[k] {
      assert Ahead(folders, s[i], s[k]);
      BeforeTotal(s[i], s[k]);
    }
  }

  lemma RestFollows(folders: set<Place>, rows: set<Place>, fetched: seq<Place>, size: nat)
    requires Ascending(folders, fetched) && 0 < size < |fetched|
    requires forall r, o | r in rows && r !in fetched && o in fetched :: Ahead(folders, o, r)
    ensures forall r | r in rows && r !in fetched[..size] :: Ahead(folders, fetched[size - 1], r)
  {
    forall r | r in rows && r !in fetched[..size] ensures Ahead(folders, fetched[size - 1], r) {
      assert fetched[size - 1] in fetched;
      if r in fetched {
        assert fetched == fetched[..size] + fetched[size..];
        var i :| 0 <= i < |fetched| - size && fetched[size..][i] == r;
      }
    }
  }

  // ---------------------------------------------------------------- draining the pages

  /** `pages` follow one another by their cursors until one has none; page `i` is read from the rows `tables[i]`, so
      rows may come and go in between. */
  ghost predicate Drained(folders: set<Place>, tables: seq<set<Place>>, cursor: Place, limit: nat, pages: seq<Page>)
    decreases |pages|
  {
    && |tables| == |pages| > 0 && IsPage(folders, tables[0], cursor, limit, pages[0])
    && (if pages[0].next.None? then |pages| == 1
      else Drained(folders, tables[1..], pages[0].next.value, limit, pages[1..]))
  }

  function Items(pages: seq<Page>): seq<Place> {
    if pages == [] then [] else pages[0].items + Items(pages[1..])
  }

  /** A drained search is strictly ascending, whatever happens to the table between the pages: no row comes twice. */
  lemma {:induction false} DrainAscends(tables: seq<set<Place>>, cursor: Place, limit: nat, pages: seq<Page>)
    requires Drained({}, tables, cursor, limit, pages)
    ensures Ascending({}, Items(pages))
    ensures forall r | r in Items(pages) :: Before(cursor, r)
    decreases |pages|
  {
    var first, rest := pages[0].items, Items(pages[1..]);
    if pages[0].next.None? {
      assert first + rest == first;
    } else {
      var c := pages[0].next.value;
      DrainAscends(tables[1..], c, limit, pages[1..]);
      assert c in first;
      forall r | r in rest ensures Before(cursor, r) { BeforeTransitive(cursor, c, r); }
      forall i, j | 0 <= i < j < |first + rest| ensures Ahead({}, (first + rest)[i], (first + rest)[j]) {
        if i < |first| <= j {
          assert rest[j - |first|] in rest;
          if i < |first| - 1 { BeforeTransitive(first[i], c, rest[j - |first|]); }
        }
      }
    }
  }

  /** A row that matches throughout is returned, and by DrainAscends only once. */
  lemma {:induction false} DrainMissesNothing(tables: seq<set<Place>>, cursor: Place, limit: nat, pages: seq<Page>,
      r: Place)
    requires Drained({}, tables, cursor, limit, pages) && Before(cursor, r)
    requires forall i | 0 <= i < |tables| :: r in tables[i]
    ensures r in Items(pages)
    decreases |pages|
  {
    assert r in After(tables[0], cursor);
    if r !in pages[0].items {
      assert Ahead({}, pages[0].next.value, r);
      DrainMissesNothing(tables[1..], pages[0].next.value, limit, pages[1..], r);
    }
  }

  /** Every row returned was in the table its page was read from. */
  lemma {:induction false} DrainInventsNothing(folders: set<Place>, tables: seq<set<Place>>, cursor: Place, limit: nat,
                                               pages: seq<Page>, r: Place)
    requires Drained(folders, tables, cursor, limit, pages) && r in Items(pages)
    ensures exists i :: 0 <= i < |tables| && r in tables[i] && r in pages[i].items
    decreases |pages|
  {
    if r in pages[0].items {
      assert r in tables[0];
    } else if pages[0].next.Some? {
      DrainInventsNothing(folders, tables[1..], pages[0].next.value, limit, pages[1..], r);
      var i :| 0 <= i < |tables[1..]| && r in tables[1..][i] && r in pages[1..][i].items;
      assert tables[i + 1] == tables[1..][i] && pages[i + 1] == pages[1..][i];
    }
  }

  lemma {:induction false} SearchPageCount(rows: set<Place>, tables: seq<set<Place>>, cursor: Place, limit: nat,
      pages: seq<Page>)
    requires Drained({}, tables, cursor, limit, pages) && forall i | 0 <= i < |tables| :: tables[i] == rows
    ensures limit > 0
    ensures |pages| == if After(rows, cursor) == {} then 1 else (|After(rows, cursor)| + limit - 1) / limit
    decreases |pages|
  {
    hide Ahead, Before;
    var todo := After(rows, cursor);
    var got := Elems(pages[0].items);
    ElemsSize(pages[0].items);
    assert got <= todo;
    if pages[0].next.None? {
      assert got == todo;
      if todo != {} { CeilOne(|todo|, limit); }
    } else {
      var c := pages[0].next.value;
      var r :| r in todo && r !in pages[0].items;
      AfterPage(rows, cursor, limit, pages[0]);
      assert r in todo - got;
      SearchPageCount(rows, tables[1..], c, limit, pages[1..]);
      assert |todo| == |got| + |todo - got|;
      CeilStep(|todo - got|, limit);
    }
  }

  lemma AfterPage(rows: set<Place>, cursor: Place, limit: nat, page: Page)
    requires IsPage({}, rows, cursor, limit, page) && page.next.Some?
    ensures After(rows, page.next.value) == After(rows, cursor) - Elems(page.items)
  {
    var c := page.next.value;
    assert c in page.items;
    forall r | r in rows ensures Before(c, r) <==> Before(cursor, r) && r !in page.items {
      if Before(c, r) {
        BeforeTransitive(cursor, c, r);
        if r in page.items {
          var i :| 0 <= i < |page.items| && page.items[i] == r;
          if i < limit - 1 { assert Ahead({}, r, c); }
          BeforeTotal(c, r);
        }
      }
    }
  }

  lemma ElemsSize(s: seq<Place>)
    requires Ascending({}, s)
    ensures |Elems(s)| == |s|
    decreases |s|
  {
    if s != [] {
      var init, last := s[..|s| - 1], s[|s| - 1];
      ElemsSize(init);
      OnceOnly({}, s, |s| - 1);
      assert s == init + [last];
      assert Elems(s) == Elems(init) + {last};
    }
  }

  lemma CeilOne(n: nat, limit: nat)
    requires 0 < n <= limit
    ensures (n + limit - 1) / limit == 1
  {
    assert n + limit - 1 == limit * 1 + (n - 1);
    Quotient(n + limit - 1, limit, 1, n - 1);
  }

  lemma CeilStep(n: nat, limit: nat)
    requires limit > 0
    ensures (n + limit + limit - 1) / limit == (n + limit - 1) / limit + 1
  {
    var q, r := (n + limit - 1) / limit, (n + limit - 1) % limit;
    Quotient(n + limit + limit - 1, limit, q + 1, r);
  }

  lemma Quotient(x: nat, d: nat, q: nat, r: nat)
    requires d > 0 && x == d * q + r && r < d
    ensures x / d == q
  {
    var p := x / d;
    assert d * (p - q) == r - x % d;
    SmallMultiple(d, p - q);
  }

  lemma SmallMultiple(d: int, k: int)
    requires -d < d * k < d
    ensures k == 0
  {
  }

  // ---------------------------------------------------------------- folder listings

  /** If all rows are of one kind, a folder listing pages exactly as a search does. */
  lemma OneKindPages(folders: set<Place>, rows: set<Place>, cursor: Place, limit: nat, page: Page)
    requires rows <= folders || rows !! folders
    ensures IsPage(folders, rows, cursor, limit, page) <==> IsPage({}, rows, cursor, limit, page)
  {
    forall p, q | p in rows && q in rows ensures Ahead(folders, p, q) <==> Ahead({}, p, q) {}
    if IsPage(folders, rows, cursor, limit, page) || IsPage({}, rows, cursor, limit, page) {
      forall i | 0 <= i < |page.items| ensures page.items[i] in rows { assert page.items[i] in page.items; }
    }
  }

  lemma {:induction false} OneKindDrain(folders: set<Place>, tables: seq<set<Place>>, cursor: Place, limit: nat,
      pages: seq<Page>)
    requires forall i | 0 <= i < |tables| :: tables[i] <= folders || tables[i] !! folders
    ensures Drained(folders, tables, cursor, limit, pages) <==> Drained({}, tables, cursor, limit, pages)
    decreases |pages|
  {
    if |tables| == |pages| > 0 {
      OneKindPages(folders, tables[0], cursor, limit, pages[0]);
      if pages[0].next.Some? { OneKindDrain(folders, tables[1..], pages[0].next.value, limit, pages[1..]); }
    }
  }

  // ---------------------------------------------------------------- when a mixed folder pages right

  /** Each page boundary of the sorted listing `s` also separates it by place: what is still to come lies after the
      last row of the page, and nothing on the page does. */
  ghost predicate CutsSplit(s: seq<Place>, limit: nat)
    requires limit > 0
    decreases |s|
  {
    |s| <= limit || (Splits(s, limit) && CutsSplit(s[limit..], limit))
  }

  ghost predicate Splits(s: seq<Place>, limit: nat)
    requires 0 < limit < |s|
  {
    && (forall j | limit <= j < |s| :: Before(s[limit - 1], s[j]))
    && (forall i | 0 <= i < limit :: !Before(s[limit - 1], s[i]))
  }

  /** Draining a listing of a fixed table returns every row exactly once if and only if the page boundaries of its
      sorted list split it by place; and then it returns that list. Searches and listings of one kind always do. */
  lemma {:induction false} ExactlyOnceIff(folders: set<Place>, rows: set<Place>, s: seq<Place>, tables: seq<set<Place>>,
                                          cursor: Place, limit: nat, pages: seq<Page>)
    requires Drained(folders, tables, cursor, limit, pages) && forall i | 0 <= i < |tables| :: tables[i] == rows
    requires Ascending(folders, s) && forall r :: r in s <==> r in After(rows, cursor)
    ensures limit > 0
    ensures CutsSplit(s, limit) ==> Items(pages) == s
    ensures Enumerates(Items(pages), After(rows, cursor)) <==> CutsSplit(s, limit)
    decreases |pages|
  {
    hide IsPage, Ascending, Ahead, Before, Splits, NoDup;
    SomeLimit(folders, rows, cursor, limit, pages[0]);
    FirstPage(folders, rows, s, cursor, limit, pages[0]);
    AscendingNoDup(folders, s);
    var first, rest := pages[0].items, Items(pages[1..]);
    if |s| <= limit {
      assert rest == [] && first + rest == s;
    } else {
      var c := s[limit - 1];
      if Splits(s, limit) {
        AfterCut(folders, rows, s, cursor, limit);
        AscendingTail(folders, s, limit);
        ExactlyOnceIff(folders, rows, s[limit..], tables[1..], c, limit, pages[1..]);
        assert s == s[..limit] + s[limit..];
        AscendingNoDup(folders, s[limit..]);
        ItemsAfter(folders, tables[1..], c, limit, pages[1..]);
        forall r | r in rest ensures r in After(rows, c) {
          DrainInventsNothing(folders, tables[1..], c, limit, pages[1..], r);
        }
        JoinEnumerates(s[..limit], rest, s[limit..], After(rows, cursor), After(rows, c));
      } else {
        WrongCut(folders, rows, s, tables, cursor, limit, pages);
      }
    }
  }

  lemma SomeLimit(folders: set<Place>, rows: set<Place>, cursor: Place, limit: nat, page: Page)
    requires IsPage(folders, rows, cursor, limit, page)
    ensures limit > 0
  {
  }

  lemma AscendingTail(folders: set<Place>, s: seq<Place>, n: nat)
    requires Ascending(folders, s) && n <= |s|
    ensures Ascending(folders, s[n..])
  {
  }

  /** The first page is the head of the sorted list. */
  lemma FirstPage(folders: set<Place>, rows: set<Place>, s: seq<Place>, cursor: Place, limit: nat, page: Page)
    requires IsPage(folders, rows, cursor, limit, page)
    requires Ascending(folders, s) && forall r :: r in s <==> r in After(rows, cursor)
    ensures page.next.Some? <==> |s| > limit
    ensures page.items == if |s| > limit then s[..limit] else s
    ensures |s| > limit ==> page.next.value == s[limit - 1]
  {
    var a := page.items;
    forall r, o | r in s && r !in a && o in a ensures Ahead(folders, o, r) {
      assert page.next.Some?;
      var i :| 0 <= i < |a| && a[i] == o;
      if i < limit - 1 {
        assert Ahead(folders, o, a[limit - 1]);
        AheadTransitive(folders, o, a[limit - 1], r);
      }
    }
    HeadOfSorted(folders, a, s);
    NextOfHead(folders, a, s);
    if page.next.Some? {
      var r :| r in s && r !in a;
      var j :| 0 <= j < |s| && s[j] == r;
      assert j < |a| ==> s[..|a|][j] == r;
    }
  }

  lemma NextOfHead(folders: set<Place>, a: seq<Place>, s: seq<Place>)
    requires Ascending(folders, s) && |a| <= |s| && a == s[..|a|]
    ensures |s| > |a| ==> s[|a|] in s && s[|a|] !in a
    ensures |s| == |a| ==> s == a
  {
    if |s| > |a| { OnceOnly(folders, s, |a|); }
  }

  lemma {:induction false} HeadOfSorted(folders: set<Place>, a: seq<Place>, s: seq<Place>)
    requires Ascending(folders, a) && Ascending(folders, s)
    requires forall x | x in a :: x in s
    requires forall r, o | r in s && r !in a && o in a :: Ahead(folders, o, r)
    ensures |a| <= |s| && a == s[..|a|]
    decreases |a|
  {
    hide Ahead;
    if a != [] {
      SameFirst(folders, a, s);
      forall x | x in a[1..] ensures x in s[1..] {
        assert x in a;
        AscendingNoDup(folders, a);
        assert x != s[0];
        assert s == [s[0]] + s[1..];
      }
      assert forall x | x in a :: x == a[0] || x in a[1..] by { assert a == [a[0]] + a[1..]; }
      forall r, o | r in s[1..] && r !in a[1..] && o in a[1..] ensures Ahead(folders, o, r) {
        AscendingNoDup(folders, s);
        assert r in s && r != a[0] && o in a;
      }
      HeadOfSorted(folders, a[1..], s[1..]);
      assert a == [a[0]] + a[1..];
    }
  }

  lemma SameFirst(folders: set<Place>, a: seq<Place>, s: seq<Place>)
    requires a != [] && Ascending(folders, a) && Ascending(folders, s)
    requires forall x | x in a :: x in s
    requires forall r, o | r in s && r !in a && o in a :: Ahead(folders, o, r)
    ensures s != [] && a[0] == s[0]
  {
    assert a[0] in s && a[0] in a && s[0] in s;
    FirstAhead(folders, s, a[0]);
    FirstAhead(folders, a, s[0]);
    BeforeTotal(s[0], a[0]);
  }

  lemma FirstAhead(folders: set<Place>, s: seq<Place>, x: Place)
    requires s != [] && Ascending(folders, s)
    ensures x in s && x != s[0] ==> Ahead(folders, s[0], x)
  {
  }

  lemma AscendingNoDup(folders: set<Place>, s: seq<Place>)
    requires Ascending(folders, s)
    ensures NoDup(s)
  {
    forall i, j | 0 <= i < j < |s| ensures s[i] != s[j] {
      assert Ahead(folders, s[i], s[j]);
      BeforeTotal(s[i], s[j]);
    }
  }

  /** After a boundary that splits, the cursor selects exactly the rest of the list. */
  lemma AfterCut(folders: set<Place>, rows: set<Place>, s: seq<Place>, cursor: Place, limit: nat)
    requires forall r :: r in s <==> r in After(rows, cursor)
    requires 0 < limit < |s| && Splits(s, limit)
    ensures forall r :: r in s[limit..] <==> r in After(rows, s[limit - 1])
  {
    var c := s[limit - 1];
    assert c in s;
    forall r ensures r in s[limit..] <==> r in After(rows, c) {
      if r in After(rows, c) {
        BeforeTransitive(cursor, c, r);
        assert r in s;
        var j :| 0 <= j < |s| && s[j] == r;
        assert j >= limit;
        assert s[limit..][j - limit] == r;
      }
      if r in s[limit..] {
        var j :| 0 <= j < |s| - limit && s[limit..][j] == r;
        assert s[limit + j] == r && r in s;
      }
    }
  }

  lemma JoinEnumerates(head: seq<Place>, rest: seq<Place>, tail: seq<Place>, all: set<Place>, left: set<Place>)
    requires Enumerates(head + tail, all) && Enumerates(tail, left)
    requires forall r | r in rest :: r in left
    ensures Enumerates(head + rest, all) <==> Enumerates(rest, left)
  {
    forall r | r in tail ensures r !in head {
      var j :| 0 <= j < |tail| && tail[j] == r;
      assert (head + tail)[|head| + j] == r;
      forall i | 0 <= i < |head| ensures head[i] != r { assert (head + tail)[i] == head[i]; }
    }
    forall i, j | 0 <= i < j < |head| ensures head[i] != head[j] {
      assert (head + tail)[i] != (head + tail)[j];
    }
    if Enumerates(rest, left) { NoDupConcat(head, rest); }
    if Enumerates(head + rest, all) {
      forall x | x in left ensures x in rest { assert x in tail && x in head + tail && x in head + rest; }
      forall i, j | 0 <= i < j < |rest| ensures rest[i] != rest[j] {
        assert (head + rest)[|head| + i] != (head + rest)[|head| + j];
      }
    }
  }

  /** A drained listing returns only rows after its cursor. */
  lemma {:induction false} ItemsAfter(folders: set<Place>, tables: seq<set<Place>>, cursor: Place, limit: nat,
      pages: seq<Page>)
    requires Drained(folders, tables, cursor, limit, pages)
    ensures forall r | r in Items(pages) :: Before(cursor, r)
    decreases |pages|
  {
    if pages[0].next.Some? {
      var c := pages[0].next.value;
      assert c in pages[0].items;
      ItemsAfter(folders, tables[1..], c, limit, pages[1..]);
      forall r | r in Items(pages[1..]) ensures Before(cursor, r) { BeforeTransitive(cursor, c, r); }
    }
  }

  /** A folder after the cursor is never missed, since folders come first on every page. */
  lemma {:induction false} FolderNotMissed(folders: set<Place>, tables: seq<set<Place>>, cursor: Place, limit: nat,
                                           pages: seq<Page>, r: Place)
    requires Drained(folders, tables, cursor, limit, pages) && Before(cursor, r) && r in folders
    requires forall i | 0 <= i < |tables| :: r in tables[i]
    ensures r in Items(pages)
    decreases |pages|
  {
    assert r in After(tables[0], cursor);
    if r !in pages[0].items {
      assert Ahead(folders, pages[0].next.value, r);
      FolderNotMissed(folders, tables[1..], pages[0].next.value, limit, pages[1..], r);
    }
  }

  /** A boundary that does not split loses the later row that is not after the cursor, or repeats the earlier row
      that is. */
  lemma WrongCut(folders: set<Place>, rows: set<Place>, s: seq<Place>, tables: seq<set<Place>>, cursor: Place,
                 limit: nat, pages: seq<Page>)
    requires Drained(folders, tables, cursor, limit, pages) && forall i | 0 <= i < |tables| :: tables[i] == rows
    requires Ascending(folders, s) && forall r :: r in s <==> r in After(rows, cursor)
    requires 0 < limit < |s| && !Splits(s, limit)
    requires pages[0].items == s[..limit] && pages[0].next == Some(s[limit - 1])
    ensures !Enumerates(Items(pages), After(rows, cursor))
  {
    hide IsPage, Less;
    var c, first, rest := s[limit - 1], pages[0].items, Items(pages[1..]);
    ItemsAfter(folders, tables[1..], c, limit, pages[1..]);
    if j :| limit <= j < |s| && !Before(c, s[j]) {
      assert s[j] in s;
      AscendingNoDup(folders, s);
      assert s[j] !in first && s[j] !in rest;
    } else {
      var i :| 0 <= i < limit && Before(c, s[i]);
      BeforeTotal(c, s[i]);
      assert Ahead(folders, s[i], c);
      assert s[i] in s;
      FolderNotMissed(folders, tables[1..], c, limit, pages[1..], s[i]);
      var k :| 0 <= k < |rest| && rest[k] == s[i];
      assert (first + rest)[i] == (first + rest)[|first| + k];
    }
  }

  /** A search splits at every boundary. */
  lemma {:induction false} SearchSplits(s: seq<Place>, limit: nat)
    requires Ascending({}, s) && limit > 0
    ensures CutsSplit(s, limit)
    decreases |s|
  {
    if |s| > limit {
      forall i | 0 <= i < limit ensures !Before(s[limit - 1], s[i]) {
        BeforeTotal(s[limit - 1], s[i]);
        if i < limit - 1 { assert Ahead({}, s[i], s[limit - 1]); }
      }
      forall j | limit <= j < |s| ensures Before(s[limit - 1], s[j]) { assert Ahead({}, s[limit - 1], s[j]); }
      SearchSplits(s[limit..], limit);
    }
  }

  /** On a table that stays as it is, the pages number max(1, ceil(n / limit)) for `n` remaining rows, in a search
      (`folders` is empty) and in a folder whose children are all of one kind. */
  lemma PageCount(folders: set<Place>, rows: set<Place>, tables: seq<set<Place>>, cursor: Place, limit: nat,
      pages: seq<Page>)
    requires rows <= folders || rows !! folders
    requires Drained(folders, tables, cursor, limit, pages) && forall i | 0 <= i < |tables| :: tables[i] == rows
    ensures limit > 0
    ensures |pages| == if After(rows, cursor) == {} then 1 else (|After(rows, cursor)| + limit - 1) / limit
  {
    OneKindDrain(folders, tables, cursor, limit, pages);
    SearchPageCount(rows, tables, cursor, limit, pages);
  }

  /** The table as `n` pages see it while it stays as it is. */
  function Unchanging(rows: set<Place>, n: nat): (tables: seq<set<Place>>)
    ensures |tables| == n && forall i | 0 <= i < n :: tables[i] == rows
  {
    if n == 0 then [] else [rows] + Unchanging(rows, n - 1)
  }

  /** Every cursor is further on: what is still to come shrinks, even where rows are skipped. */
  lemma CursorAdvances(folders: set<Place>, rows: set<Place>, cursor: Place, limit: nat, page: Page)
    requires IsPage(folders, rows, cursor, limit, page) && page.next.Some?
    ensures |After(rows, page.next.value)| < |After(rows, cursor)|
  {
    var c := page.next.value;
    assert c in page.items;
    forall r | r in After(rows, c) ensures r in After(rows, cursor) { BeforeTransitive(cursor, c, r); }
    assert c !in After(rows, c) by { BeforeTotal(c, c); }
    assert c in After(rows, cursor) - After(rows, c);
    assert |After(rows, cursor)| == |After(rows, c)| + |After(rows, cursor) - After(rows, c)| by {
      assert After(rows, cursor) == After(rows, c) + (After(rows, cursor) - After(rows, c));
    }
  }

  /** Following the cursors of a table that stays as it is comes to an end, mixed folders included; for a search and a
      folder of one kind it takes as many calls as the rows need. */
  method Drain(folders: set<Place>, rows: set<Place>, cursor: Option<Place>, limit: int) returns (pages: seq<Page>)
    ensures Drained(folders, Unchanging(rows, |pages|), From(cursor), PageSize(limit), pages)
    ensures rows <= folders || rows !! folders ==>
      var todo, size := |After(rows, From(cursor))|, PageSize(limit);
      |pages| == if todo == 0 then 1 else (todo + size - 1) / size
    decreases |After(rows, From(cursor))|
  {
    var page := CutPage(folders, rows, cursor, limit);
    pages := [page];
    if page.next.Some? {
      CursorAdvances(folders, rows, From(cursor), PageSize(limit), page);
      var rest := Drain(folders, rows, page.next, limit);
      pages := [page] + rest;
      assert Unchanging(rows, |pages|)[1..] == Unchanging(rows, |rest|);
    }
    if rows <= folders || rows !! folders {
      PageCount(folders, rows, Unchanging(rows, |pages|), From(cursor), PageSize(limit), pages);
    }
  }

  /** Draining a fixed table returns the sorted list of its rows, for a search (`folders` is empty) and for a folder
      whose children are all of one kind. */
  lemma DrainIsSortedList(folders: set<Place>, rows: set<Place>, s: seq<Place>, tables: seq<set<Place>>,
                          cursor: Place, limit: nat, pages: seq<Page>)
    requires rows <= folders || rows !! folders
    requires Drained(folders, tables, cursor, limit, pages) && forall i | 0 <= i < |tables| :: tables[i] == rows
    requires Ascending(folders, s) && forall r :: r in s <==> r in After(rows, cursor)
    ensures Items(pages) == s
  {
    OneKindDrain(folders, tables, cursor, limit, pages);
    forall i, j | 0 <= i < j < |s| ensures Ahead({}, s[i], s[j]) {
      assert s[i] in s && s[j] in s && Ahead(folders, s[i], s[j]);
    }
    SearchSplits(s, limit);
    ExactlyOnceIff({}, rows, s, tables, cursor, limit, pages);
  }

  /** A folder holding the folder "b" and the file "a", listed one row at a time: "b" comes first, and "a" is not
      after it, so the file is never returned. */
  lemma MixedFolderSkips()
    ensures var a, b := Place("a", "1"), Place("b", "2");
      Drained({b}, [{a, b}, {a, b}], START, 1, [Page([b], Some(b)), Page([], None)])
  {
    var a, b := Place("a", "1"), Place("b", "2");
    assert After({a, b}, START) == {a, b};
    assert a in After({a, b}, START) && a !in [b];
    assert After({a, b}, b) == {} by { BeforeTotal(b, b); BeforeTotal(a, b); }
    var p, q := Page([b], Some(b)), Page([], None);
    assert [p, q][1..] == [q] && [{a, b}, {a, b}][1..] == [{a, b}];
    assert IsPage({b}, {a, b}, START, 1, p);
    assert Drained({b}, [{a, b}], b, 1, [q]);
  }

  // ---------------------------------------------------------------- the rows of a listing

  function PlaceOf(ns: Nodes, x: Id): Place
    requires x in ns
  {
    Place(ns[x].name.key, x)
  }

  predicate Shown(ns: Nodes, x: Id) {
    x in ns && !ns[x].trashed && !ns[x].system
  }

  /** The WHERE clauses: a search matches the pattern anywhere in the tree, a folder listing takes the children of
      one folder, by default the root. `like` stands for SQLite's LIKE. */
  predicate Matches(ns: Nodes, x: Id, parent: Option<Id>, search: string, normalized: Option<Name>,
      like: (string, string) -> bool) {
    && Shown(ns, x)
    && if search != "" then like("%" + (if normalized.Some? then normalized.value.key else search) + "%",
      ns[x].name.key)
       else ns[x].parent == Some(TargetOf(parent))
  }

  function Listed(ns: Nodes, parent: Option<Id>, search: string, normalized: Option<Name>,
      like: (string, string) -> bool): set<Place> {
    set x | x in ns && Matches(ns, x, parent, search, normalized, like) :: PlaceOf(ns, x)
  }

  /** The places a listing puts first. */
  function Leading(ns: Nodes, search: string): set<Place> {
    if search != "" then {} else set x | x in ns && ns[x].kind == Folder :: PlaceOf(ns, x)
  }

  /** `pages` are the answers of successive listing calls, each read from its own table under the order of that table,
      and each continuing after the last until one has no next cursor. */
  ghost predicate ListingDrained(tables: seq<Nodes>, parent: Option<Id>, search: string, normalized: Option<Name>,
                                 like: (string, string) -> bool, cursor: Place, limit: nat, pages: seq<Page>)
    decreases |pages|
  {
    && |tables| == |pages| > 0
    && IsPage(Leading(tables[0], search), Listed(tables[0], parent, search, normalized, like), cursor, limit, pages[0])
    && (if pages[0].next.None? then |pages| == 1
        else ListingDrained(tables[1..], parent, search, normalized, like, pages[0].next.value, limit, pages[1..]))
  }

  /** The children a folder listing shows are all files or all folders. */
  ghost predicate OneKind(ns: Nodes, parent: Option<Id>) {
    forall x, y | Shown(ns, x) && Shown(ns, y) && ns[x].parent == ns[y].parent == Some(TargetOf(parent)) ::
      ns[x].kind == ns[y].kind
  }

  /** The rows of a search, or of a folder of one kind, lie on one side of the order's first criterion. */
  lemma OneSide(ns: Nodes, parent: Option<Id>, search: string, normalized: Option<Name>, like: (string, string) -> bool)
    requires search != "" || OneKind(ns, parent)
    ensures var rows := Listed(ns, parent, search, normalized, like);
      rows <= Leading(ns, search) || rows !! Leading(ns, search)
  {
    var rows, leading := Listed(ns, parent, search, normalized, like), Leading(ns, search);
    if search == "" && !(rows !! leading) {
      var r :| r in rows && r in leading;
      forall q | q in rows ensures q in leading {
        assert ns[q.id].kind == ns[r.id].kind;
        assert PlaceOf(ns, q.id) == q;
      }
    }
  }

  lemma {:induction false} ListingAsSearch(tables: seq<Nodes>, parent: Option<Id>, search: string,
      normalized: Option<Name>,
                                           like: (string, string) -> bool, cursor: Place, limit: nat, pages: seq<Page>)
    requires ListingDrained(tables, parent, search, normalized, like, cursor, limit, pages)
    requires search != "" || forall i | 0 <= i < |tables| :: OneKind(tables[i], parent)
    ensures Drained({}, ListedAll(tables, parent, search, normalized, like), cursor, limit, pages)
    decreases |pages|
  {
    var sets := ListedAll(tables, parent, search, normalized, like);
    OneSide(tables[0], parent, search, normalized, like);
    OneKindPages(Leading(tables[0], search), sets[0], cursor, limit, pages[0]);
    if pages[0].next.Some? {
      ListingAsSearch(tables[1..], parent, search, normalized, like, pages[0].next.value, limit, pages[1..]);
      assert sets[1..] == ListedAll(tables[1..], parent, search, normalized, like);
    }
  }

  function ListedAll(tables: seq<Nodes>, parent: Option<Id>, search: string, normalized: Option<Name>,
                     like: (string, string) -> bool): (sets: seq<set<Place>>)
    ensures |sets| == |tables| && forall i | 0 <= i < |sets| ::
      sets[i] == Listed(tables[i], parent, search, normalized, like)
  {
    if tables == [] then []
    else
      [Listed(tables[0], parent, search, normalized, like)]
      + ListedAll(tables[1..], parent, search, normalized, like)
  }

  predicate Once(s: seq<Place>, r: Place) {
    r in s && forall i, j | 0 <= i < j < |s| :: s[i] == r ==> s[j] != r
  }

  /** Draining a search, or a folder that on every page has children of one kind only, from the start: a node that is
      listed with the same name key on every page is returned exactly once, and the answer is strictly ascending,
      wherever other nodes come, go, move or change names between the pages. */
  lemma ListingReturnsOnce(tables: seq<Nodes>, parent: Option<Id>, search: string, normalized: Option<Name>,
                           like: (string, string) -> bool, limit: nat, pages: seq<Page>, x: Id, key: string)
    requires ListingDrained(tables, parent, search, normalized, like, START, limit, pages)
    requires search != "" || forall i | 0 <= i < |tables| :: OneKind(tables[i], parent)
    requires x != "" && forall i | 0 <= i < |tables| ::
      Matches(tables[i], x, parent, search, normalized, like) && tables[i][x].name.key == key
    ensures Once(Items(pages), Place(key, x)) && Ascending({}, Items(pages))
  {
    var sets := ListedAll(tables, parent, search, normalized, like);
    ListingAsSearch(tables, parent, search, normalized, like, START, limit, pages);
    var r := Place(key, x);
    assert Before(START, r);
    forall i | 0 <= i < |sets| ensures r in sets[i] { assert PlaceOf(tables[i], x) == r; }
    DrainMissesNothing(sets, START, limit, pages, r);
    DrainAscends(sets, START, limit, pages);
    AscendingNoDup({}, Items(pages));
  }
}
