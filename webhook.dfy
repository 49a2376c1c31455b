/** The `/webhook` handler of main.py: dispatch on the intent name, check the
    intent's parameter, run the matching lookup and phrase the fulfilment
    text. */
module Webhook {
  import opened Wrappers
  import opened Text
  import opened Catalog
  import opened Storage
  import opened Lookups

  /** The `parameters` object of a request, one optional field per key. */
  datatype Params = Params(title: Option<string>, category: Option<string>, topic: Option<string>, isPaid: Option<bool>)

  /** A decoded request body: the `intent` name (absent when missing) and its parameters. */
  datatype Request = Request(intent: Option<string>, params: Params)

  /** The lookup, if any, that answering a request requires. */
  datatype Lookup = ByTitle(title: string) | ByCategory(category: string) | ByTopic(topic: string) | ByPrice(isPaid: bool)

  const FindByTitle: string := "FindCourseByTitle"
  const FindByCategory: string := "FindCourseByCategory"
  const FindByTopic: string := "FindCourseByTopic"
  const FindByPrice: string := "FindCourseByPrice"

  const Fallback: string := "Xin lỗi, tôi chưa hiểu yêu cầu của bạn."
  const AskTitle: string := "Bạn vui lòng cung cấp tên khóa học."
  const AskCategory: string := "Bạn vui lòng cung cấp thể loại khóa học."
  const AskTopic: string := "Bạn vui lòng cung cấp chủ đề khóa học."
  const AskPaid: string := "Bạn vui lòng chỉ định có trả phí hay không."
  /** The "not found" text of both the title and the price intents. */
  const NoMatch: string := "Không tìm thấy khóa học phù hợp."
  const CategoryNotFound: string := "Không tìm thấy khóa học nào trong thể loại này."
  const TopicNotFound: string := "Không tìm thấy khóa học nào về chủ đề này."

  /** The intent names the handler answers; every other name gets Fallback. */
  predicate Recognised(intent: Option<string>) {
    intent == Some(FindByTitle) || intent == Some(FindByCategory) ||
    intent == Some(FindByTopic) || intent == Some(FindByPrice)
  }

  /** Python truthiness of a string parameter: present and non-empty. */
  predicate Given(p: Option<string>) {
    p.Some? && p.value != ""
  }

  /** The answer to a title search that found `c`. */
  function TitleAnswer(c: Course): string {
    "Khóa học '" + c.title + "' thuộc chủ đề '" + c.topic + "' và thể loại '" + c.category + "'."
  }

  function CategoryPrefix(category: string): string {
    "Các khóa học trong thể loại '" + category + "': "
  }

  function TopicPrefix(topic: string): string {
    "Các khóa học về chủ đề '" + topic + "': "
  }

  /** The label of the price intent: paid or free. */
  function PriceLabel(isPaid: bool): string {
    if isPaid then "trả phí" else "miễn phí"
  }

  function PricePrefix(isPaid: bool): string {
    "Các khóa học " + PriceLabel(isPaid) + ": "
  }

  /** The titles of a result list, in result order (the list comprehension). */
  function Titles(courses: seq<Course>): (r: seq<string>)
    ensures |r| == |courses|
    ensures forall i :: 0 <= i < |courses| ==> r[i] == courses[i].title
  {
    if courses == [] then [] else [courses[0].title] + Titles(courses[1..])
  }

  /** A list answer: the branch prefix, then the titles joined by ", ". */
  function ListAnswer(prefix: string, courses: seq<Course>): string {
    prefix + Join(Titles(courses))
  }

  /** Which lookup the handler runs for a request. */
  function LookupFor(req: Request): Option<Lookup> {
    if req.intent == Some(FindByTitle) then
      if Given(req.params.title) then Some(ByTitle(req.params.title.value)) else None
    else if req.intent == Some(FindByCategory) then
      if Given(req.params.category) then Some(ByCategory(req.params.category.value)) else None
    else if req.intent == Some(FindByTopic) then
      if Given(req.params.topic) then Some(ByTopic(req.params.topic.value)) else None
    else if req.intent == Some(FindByPrice) then
      if req.params.isPaid.Some? then Some(ByPrice(req.params.isPaid.value)) else None
    else None
  }

  /** The `fulfillmentText` the handler returns for a request against a store. */
  function Fulfil(req: Request, s: Store): string {
    if req.intent == Some(FindByTitle) then
      var title := req.params.title;
      if Given(title) then
        match TitleLookup(s, title.value)
        case Some(c) => TitleAnswer(c)
        case None => NoMatch
      else AskTitle
    else if req.intent == Some(FindByCategory) then
      var category := req.params.category;
      if Given(category) then
        var courses := CategoryLookup(s, category.value);
        if courses != [] then ListAnswer(CategoryPrefix(category.value), courses) else CategoryNotFound
      else AskCategory
    else if req.intent == Some(FindByTopic) then
      var topic := req.params.topic;
      if Given(topic) then
        var courses := TopicLookup(s, topic.value);
        if courses != [] then ListAnswer(TopicPrefix(topic.value), courses) else TopicNotFound
      else AskTopic
    else if req.intent == Some(FindByPrice) then
      match req.params.isPaid
      case Some(isPaid) =>
        var courses := PriceLookup(s, isPaid);
        if courses != [] then ListAnswer(PricePrefix(isPaid), courses) else NoMatch
      case None => AskPaid
    else Fallback
  }

  /** An unrecognised or absent intent gets the apology and runs no lookup. */
  lemma FallbackForUnknownIntent(req: Request, s: Store)
    requires !Recognised(req.intent)
    ensures Fulfil(req, s) == Fallback
    ensures LookupFor(req) == None
  {
  }

  /** When no lookup runs the answer does not depend on the store at all. */
  lemma NoLookupNoStore(req: Request, s1: Store, s2: Store)
    requires LookupFor(req) == None
    ensures Fulfil(req, s1) == Fulfil(req, s2)
  {
  }

  /** A title answer quotes the found course's title, topic and category. */
  lemma TitleAnswerQuotes(c: Course)
    ensures Contains(TitleAnswer(c), c.title)
    ensures Contains(TitleAnswer(c), c.topic)
    ensures Contains(TitleAnswer(c), c.category)
  {
    var a, b, d, e := "Khóa học '", "' thuộc chủ đề '", "' và thể loại '", "'.";
    assert TitleAnswer(c) == a + c.title + (b + c.topic + d + c.category + e);
    ContainsInfix(a, c.title, b + c.topic + d + c.category + e);
    assert TitleAnswer(c) == (a + c.title + b) + c.topic + (d + c.category + e);
    ContainsInfix(a + c.title + b, c.topic, d + c.category + e);
    assert TitleAnswer(c) == (a + c.title + b + c.topic + d) + c.category + e;
    ContainsInfix(a + c.title + b + c.topic + d, c.category, e);
  }

  /** The title intent: without a (non-empty) title it asks for one and
      looks nothing up; otherwise it looks the title up and either quotes
      the course found or says nothing matched. */
  lemma TitleBranch(req: Request, s: Store)
    requires req.intent == Some(FindByTitle)
    ensures !Given(req.params.title) ==> Fulfil(req, s) == AskTitle && LookupFor(req) == None
    ensures Given(req.params.title) ==> LookupFor(req) == Some(ByTitle(req.params.title.value))
    ensures Given(req.params.title) && TitleLookup(s, req.params.title.value).None? ==>
      Fulfil(req, s) == NoMatch
    ensures Given(req.params.title) && TitleLookup(s, req.params.title.value).Some? ==>
      var c := TitleLookup(s, req.params.title.value).value;
      Contains(Fulfil(req, s), c.title) && Contains(Fulfil(req, s), c.topic) &&
      Contains(Fulfil(req, s), c.category)
  {
    if Given(req.params.title) && TitleLookup(s, req.params.title.value).Some? {
      TitleAnswerQuotes(TitleLookup(s, req.params.title.value).value);
    }
  }

  /** A list answer starts with its prefix, quotes every title, and lists
      exactly the result's titles in result order (splitting the text after
      the prefix at ", " gives them back, when no title holds ", "). */
  lemma ListAnswerSpec(prefix: string, courses: seq<Course>)
    requires courses != []
    ensures prefix <= ListAnswer(prefix, courses)
    ensures forall i :: 0 <= i < |courses| ==> Contains(ListAnswer(prefix, courses), courses[i].title)
    ensures (forall i :: 0 <= i < |courses| ==> !Contains(courses[i].title, Separator)) ==>
      Split(ListAnswer(prefix, courses)[|prefix|..]) == Titles(courses)
  {
    var titles := Titles(courses);
    var text := ListAnswer(prefix, courses);
    assert text[|prefix|..] == Join(titles);
    JoinContainsParts(titles);
    forall i | 0 <= i < |courses| ensures Contains(text, courses[i].title) {
      ContainsAfter(prefix, Join(titles), titles[i]);
    }
    if forall i :: 0 <= i < |courses| ==> !Contains(courses[i].title, Separator) {
      SplitJoin(titles);
    }
  }

  /** The shared shape of the three list intents: `text` is the answer
      built from a lookup without LIMIT. It is the "not found" text when the
      lookup fails or no row matches; otherwise it is the list answer for the
      lookup's result, and it quotes the title of every matching row. */
  lemma ListBranch(s: Store, q: Query, prefix: string, notFound: string, text: string)
    requires q.limit.None?
    requires text == if ListLookup(s, q) != [] then ListAnswer(prefix, ListLookup(s, q)) else notFound
    ensures (!Available(s) || forall i :: 0 <= i < |s.rows| ==> !Satisfies(s.rows[i], q.where)) ==>
      text == notFound
    ensures (Available(s) && exists i :: 0 <= i < |s.rows| && Satisfies(s.rows[i], q.where)) ==>
      text == ListAnswer(prefix, ListLookup(s, q)) &&
      forall i :: 0 <= i < |s.rows| && Satisfies(s.rows[i], q.where) ==> Contains(text, s.rows[i].title)
  {
    var courses := ListLookup(s, q);
    ListLookupEmpty(s, q);
    if courses != [] {
      ListAnswerSpec(prefix, courses);
      SelectMembers(q.where, s.rows);
      forall i | 0 <= i < |s.rows| && Satisfies(s.rows[i], q.where)
        ensures Contains(text, s.rows[i].title)
      {
        assert s.rows[i] in courses;
        var k :| 0 <= k < |courses| && courses[k] == s.rows[i];
      }
    }
  }

  /** The category intent: asks when the category is missing or empty;
      otherwise looks it up and says "not found" when the lookup fails or no
      row's category equals it (ignoring case), and else lists the result,
      quoting every matching course's title. */
  lemma CategoryBranch(req: Request, s: Store)
    requires req.intent == Some(FindByCategory)
    ensures !Given(req.params.category) ==> Fulfil(req, s) == AskCategory && LookupFor(req) == None
    ensures Given(req.params.category) ==>
      var category := req.params.category.value;
      LookupFor(req) == Some(ByCategory(category)) &&
      ((!Available(s) || forall i :: 0 <= i < |s.rows| ==> LowerStr(s.rows[i].category) != LowerStr(category)) ==>
        Fulfil(req, s) == CategoryNotFound) &&
      ((Available(s) && exists i :: 0 <= i < |s.rows| && LowerStr(s.rows[i].category) == LowerStr(category)) ==>
        Fulfil(req, s) == ListAnswer(CategoryPrefix(category), CategoryLookup(s, category)) &&
        forall i :: 0 <= i < |s.rows| && LowerStr(s.rows[i].category) == LowerStr(category) ==>
          Contains(Fulfil(req, s), s.rows[i].title))
  {
    if Given(req.params.category) {
      var category := req.params.category.value;
      ListBranch(s, CategoryQuery(category), CategoryPrefix(category), CategoryNotFound, Fulfil(req, s));
    }
  }

  /** The topic intent, shaped like the category intent. */
  lemma TopicBranch(req: Request, s: Store)
    requires req.intent == Some(FindByTopic)
    ensures !Given(req.params.topic) ==> Fulfil(req, s) == AskTopic && LookupFor(req) == None
    ensures Given(req.params.topic) ==>
      var topic := req.params.topic.value;
      LookupFor(req) == Some(ByTopic(topic)) &&
      ((!Available(s) || forall i :: 0 <= i < |s.rows| ==> LowerStr(s.rows[i].topic) != LowerStr(topic)) ==>
        Fulfil(req, s) == TopicNotFound) &&
      ((Available(s) && exists i :: 0 <= i < |s.rows| && LowerStr(s.rows[i].topic) == LowerStr(topic)) ==>
        Fulfil(req, s) == ListAnswer(TopicPrefix(topic), TopicLookup(s, topic)) &&
        forall i :: 0 <= i < |s.rows| && LowerStr(s.rows[i].topic) == LowerStr(topic) ==>
          Contains(Fulfil(req, s), s.rows[i].title))
  {
    if Given(req.params.topic) {
      var topic := req.params.topic.value;
      ListBranch(s, TopicQuery(topic), TopicPrefix(topic), TopicNotFound, Fulfil(req, s));
    }
  }

  /** The price intent: only an absent flag asks; false is a real request for
      free courses and true one for paid courses. It says "not found" when
      the lookup fails or no row has that flag, and else lists the result,
      quoting every title with that flag. */
  lemma PriceBranch(req: Request, s: Store)
    requires req.intent == Some(FindByPrice)
    ensures req.params.isPaid.None? ==> Fulfil(req, s) == AskPaid && LookupFor(req) == None
    ensures req.params.isPaid.Some? ==>
      var isPaid := req.params.isPaid.value;
      LookupFor(req) == Some(ByPrice(isPaid)) &&
      ((!Available(s) || forall i :: 0 <= i < |s.rows| ==> s.rows[i].isPaid != isPaid) ==>
        Fulfil(req, s) == NoMatch) &&
      ((Available(s) && exists i :: 0 <= i < |s.rows| && s.rows[i].isPaid == isPaid) ==>
        Fulfil(req, s) == ListAnswer(PricePrefix(isPaid), PriceLookup(s, isPaid)) &&
        forall i :: 0 <= i < |s.rows| && s.rows[i].isPaid == isPaid ==>
          Contains(Fulfil(req, s), s.rows[i].title))
  {
    if req.params.isPaid.Some? {
      var isPaid := req.params.isPaid.value;
      ListBranch(s, PriceQuery(isPaid), PricePrefix(isPaid), NoMatch, Fulfil(req, s));
    }
  }

  /** The price label: "trả phí" for paid courses, "miễn phí" for free ones. */
  lemma PricePrefixLabels()
    ensures PricePrefix(true) == "Các khóa học trả phí: "
    ensures PricePrefix(false) == "Các khóa học miễn phí: "
  {
  }

  /** The handler for one request, running at most one lookup against `db`. */
  method Handle(db: Database, req: Request) returns (text: string)
    modifies db
    ensures text == Fulfil(req, db.store)
    ensures db.attempts == old(db.attempts) + (if LookupFor(req).Some? then 1 else 0)
    ensures |db.handed| == |old(db.handed)| + (if LookupFor(req).Some? && db.store.reachable then 1 else 0)
    ensures old(db.handed) <= db.handed
    ensures ReleasedSince(db, |old(db.handed)|)
  {
    if req.intent == Some(FindByTitle) {
      var title := req.params.title;
      if Given(title) {
        var course;
        course := GetCourseByTitle(db, title.value);
        if course.Some? {
          text := TitleAnswer(course.value);
        } else {
          text := NoMatch;
        }
      } else {
        text := AskTitle;
      }
    } else if req.intent == Some(FindByCategory) {
      var category := req.params.category;
      if Given(category) {
        var courses;
        courses := GetCoursesByCategory(db, category.value);
        if courses != [] {
          text := ListAnswer(CategoryPrefix(category.value), courses);
        } else {
          text := CategoryNotFound;
        }
      } else {
        text := AskCategory;
      }
    } else if req.intent == Some(FindByTopic) {
      var topic := req.params.topic;
      if Given(topic) {
        var courses;
        courses := GetCoursesByTopic(db, topic.value);
        if courses != [] {
          text := ListAnswer(TopicPrefix(topic.value), courses);
        } else {
          text := TopicNotFound;
        }
      } else {
        text := AskTopic;
      }
    } else if req.intent == Some(FindByPrice) {
      var isPaid := req.params.isPaid;
      if isPaid.Some? {
        var courses;
        courses := GetCoursesByPrice(db, isPaid.value);
        if courses != [] {
          text := ListAnswer(PricePrefix(isPaid.value), courses);
        } else {
          text := NoMatch;
        }
      } else {
        text := AskPaid;
      }
    } else {
      text := Fallback;
    }
  }
}
