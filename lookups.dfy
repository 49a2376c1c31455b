/** The four course lookups of main.py: what each returns, as a function of
    the store, and the methods that obtain it through a connection and a
    cursor and release both on every exit path. */
module Lookups {
  import opened Wrappers
  import opened Text
  import opened Catalog
  import opened Storage

  /** The statement can run: the connection opens and the query does not raise. */
  predicate Available(s: Store) {
    s.reachable && !s.failing
  }

  /** Result of `get_course_by_title`: None on any failure. */
  function TitleLookup(s: Store, title: string): Option<Course> {
    if Available(s) then First(Run(TitleQuery(title), s.rows)) else None
  }

  /** Result of a `fetchall` lookup: [] on any failure. */
  function ListLookup(s: Store, q: Query): seq<Course> {
    if Available(s) then Run(q, s.rows) else []
  }

  function CategoryLookup(s: Store, category: string): seq<Course> {
    ListLookup(s, CategoryQuery(category))
  }

  function TopicLookup(s: Store, topic: string): seq<Course> {
    ListLookup(s, TopicQuery(topic))
  }

  function PriceLookup(s: Store, isPaid: bool): seq<Course> {
    ListLookup(s, PriceQuery(isPaid))
  }

  /** The title lookup returns the first row, in store order, whose
      lower-cased title contains the lower-cased query; None when there is
      no such row, the server is unreachable or the query raises. */
  lemma TitleLookupSpec(s: Store, title: string)
    ensures !Available(s) ==> TitleLookup(s, title) == None
    ensures Available(s) ==>
      (TitleLookup(s, title).None? <==>
        forall i :: 0 <= i < |s.rows| ==> !Contains(LowerStr(s.rows[i].title), LowerStr(title)))
    ensures TitleLookup(s, title).Some? ==>
      exists i :: 0 <= i < |s.rows| && s.rows[i] == TitleLookup(s, title).value &&
        Contains(LowerStr(s.rows[i].title), LowerStr(title)) &&
        forall j :: 0 <= j < i ==> !Contains(LowerStr(s.rows[j].title), LowerStr(title))
  {
    var cond := TitleLike(LowerStr(title));
    FirstOfLimitOne(Select(cond, s.rows));
    SelectFirst(cond, s.rows);
  }

  /** Lower-casing the query first does not change what is found. */
  lemma TitleLookupIgnoresCase(s: Store, title: string)
    ensures TitleLookup(s, LowerStr(title)) == TitleLookup(s, title)
  {
    LowerIdempotent(title);
  }

  /** The category lookup returns all and only the rows whose lower-cased
      category equals the lower-cased argument; [] on any failure. */
  lemma CategoryLookupSpec(s: Store, category: string)
    ensures !Available(s) ==> CategoryLookup(s, category) == []
    ensures Available(s) ==> forall c :: c in CategoryLookup(s, category) <==>
      c in s.rows && LowerStr(c.category) == LowerStr(category)
  {
    SelectMembers(CategoryIs(LowerStr(category)), s.rows);
  }

  /** The topic lookup returns all and only the rows whose lower-cased topic
      equals the lower-cased argument; [] on any failure. */
  lemma TopicLookupSpec(s: Store, topic: string)
    ensures !Available(s) ==> TopicLookup(s, topic) == []
    ensures Available(s) ==> forall c :: c in TopicLookup(s, topic) <==>
      c in s.rows && LowerStr(c.topic) == LowerStr(topic)
  {
    SelectMembers(TopicIs(LowerStr(topic)), s.rows);
  }

  /** The price lookup returns all and only the rows whose `is_paid` equals
      the flag; [] on any failure. */
  lemma PriceLookupSpec(s: Store, isPaid: bool)
    ensures !Available(s) ==> PriceLookup(s, isPaid) == []
    ensures Available(s) ==> forall c :: c in PriceLookup(s, isPaid) <==>
      c in s.rows && c.isPaid == isPaid
  {
    SelectMembers(PaidIs(isPaid), s.rows);
  }

  /** A list lookup keeps store order: the answer over two stretches of rows
      is the answer over the first followed by the answer over the second. */
  lemma ListLookupOrder(q: Query, a: seq<Course>, b: seq<Course>)
    requires q.limit.None?
    ensures ListLookup(Store(true, false, a + b), q) ==
      ListLookup(Store(true, false, a), q) + ListLookup(Store(true, false, b), q)
  {
    SelectConcat(q.where, a, b);
  }

  /** A list lookup has no count limit: when every row matches, every row is
      returned. */
  lemma ListLookupComplete(s: Store, q: Query)
    requires Available(s) && q.limit.None?
    requires forall i :: 0 <= i < |s.rows| ==> Satisfies(s.rows[i], q.where)
    ensures ListLookup(s, q) == s.rows
  {
    SelectAllMatch(q.where, s.rows);
  }

  /** A list lookup comes back empty exactly when it fails or no row matches. */
  lemma ListLookupEmpty(s: Store, q: Query)
    requires q.limit.None?
    ensures ListLookup(s, q) == [] <==>
      !Available(s) || forall i :: 0 <= i < |s.rows| ==> !Satisfies(s.rows[i], q.where)
  {
    SelectFirst(q.where, s.rows);
  }

  /** Every connection handed out after the first `from` ones is closed, and
      so is every cursor created on it. */
  ghost predicate ReleasedSince(db: Database, from: nat)
    reads db, set i | from <= i < |db.handed| :: db.handed[i]
    reads set i, k | from <= i < |db.handed| && k in db.handed[i].cursors :: k
  {
    from <= |db.handed| &&
    forall i :: from <= i < |db.handed| ==>
      !db.handed[i].open && forall k :: k in db.handed[i].cursors ==> !k.open
  }

  /** `get_course_by_title(title)`. */
  method GetCourseByTitle(db: Database, title: string)
    returns (course: Option<Course>)
    modifies db
    ensures db.attempts == old(db.attempts) + 1
    ensures course == TitleLookup(db.store, title)
    ensures |db.handed| == |old(db.handed)| + (if db.store.reachable then 1 else 0)
    ensures db.store.reachable ==> |db.handed[|db.handed| - 1].cursors| == 1
    ensures old(db.handed) <= db.handed
    ensures ReleasedSince(db, |old(db.handed)|)
  {
    var c := db.Connect();
    if c == null {
      return None;
    }
    var cur := c.NewCursor();
    var ok := cur.Execute(TitleQuery(title));
    if ok {
      course := cur.FetchOne();
    } else {
      course := None;
    }
    cur.Close();
    c.Close();
  }

  /** The shared body of the three `fetchall` lookups. */
  method FetchAllLookup(db: Database, q: Query)
    returns (courses: seq<Course>)
    modifies db
    ensures db.attempts == old(db.attempts) + 1
    ensures courses == ListLookup(db.store, q)
    ensures |db.handed| == |old(db.handed)| + (if db.store.reachable then 1 else 0)
    ensures db.store.reachable ==> |db.handed[|db.handed| - 1].cursors| == 1
    ensures old(db.handed) <= db.handed
    ensures ReleasedSince(db, |old(db.handed)|)
  {
    var c := db.Connect();
    if c == null {
      return [];
    }
    var cur := c.NewCursor();
    var ok := cur.Execute(q);
    if ok {
      courses := cur.FetchAll();
    } else {
      courses := [];
    }
    cur.Close();
    c.Close();
  }

  /** `get_courses_by_category(category_name)`. */
  method GetCoursesByCategory(db: Database, category: string)
    returns (courses: seq<Course>)
    modifies db
    ensures db.attempts == old(db.attempts) + 1
    ensures courses == CategoryLookup(db.store, category)
    ensures |db.handed| == |old(db.handed)| + (if db.store.reachable then 1 else 0)
    ensures db.store.reachable ==> |db.handed[|db.handed| - 1].cursors| == 1
    ensures old(db.handed) <= db.handed
    ensures ReleasedSince(db, |old(db.handed)|)
  {
    courses := FetchAllLookup(db, CategoryQuery(category));
  }

  /** `get_courses_by_topic(topic)`. */
  method GetCoursesByTopic(db: Database, topic: string)
    returns (courses: seq<Course>)
    modifies db
    ensures db.attempts == old(db.attempts) + 1
    ensures courses == TopicLookup(db.store, topic)
    ensures |db.handed| == |old(db.handed)| + (if db.store.reachable then 1 else 0)
    ensures db.store.reachable ==> |db.handed[|db.handed| - 1].cursors| == 1
    ensures old(db.handed) <= db.handed
    ensures ReleasedSince(db, |old(db.handed)|)
  {
    courses := FetchAllLookup(db, TopicQuery(topic));
  }

  /** `get_courses_by_price(is_paid)`. */
  method GetCoursesByPrice(db: Database, isPaid: bool)
    returns (courses: seq<Course>)
    modifies db
    ensures db.attempts == old(db.attempts) + 1
    ensures courses == PriceLookup(db.store, isPaid)
    ensures |db.handed| == |old(db.handed)| + (if db.store.reachable then 1 else 0)
    ensures db.store.reachable ==> |db.handed[|db.handed| - 1].cursors| == 1
    ensures old(db.handed) <= db.handed
    ensures ReleasedSince(db, |old(db.handed)|)
  {
    courses := FetchAllLookup(db, PriceQuery(isPaid));
  }
}
