/**
 * Paged listings: `getAuditLogs` of the admin service and `getJobs` of the candidate service compute
 * `skip` and `take` from a page number and a limit, and a page count from the total.
 */
module Pagination {
  import opened Basics

  datatype Page<T> = Page(items: seq<T>, currentPage: int, totalPages: int, totalItems: nat, limit: int)

  datatype PageError = NegativeSkip

  function Min(a: int, b: int): int
  {
    if a <= b then a else b
  }

  function Max(a: int, b: int): int
  {
    if a >= b then a else b
  }

  /** `n || fallback`. */
  function OrElse(n: int, fallback: int): int
  {
    if n == 0 then fallback else n
  }

  /** `findMany({ skip, take })` over an ordered result, for `take` of at least 0. */
  function Window<T>(list: seq<T>, skip: nat, take: nat): seq<T>
  {
    list[Min(skip, |list|)..Min(skip + take, |list|)]
  }

  /** The same for a negative `take`: counted from the end of the result, in the order of the result. */
  function FromEnd<T>(list: seq<T>, skip: nat, take: nat): seq<T>
  {
    list[Max(0, |list| - skip - take)..Max(0, |list| - skip)]
  }

  function Found<T>(list: seq<T>, skip: nat, take: int): seq<T>
  {
    if take >= 0 then Window(list, skip, take) else FromEnd(list, skip, -take)
  }

  function CeilDiv(total: nat, limit: nat): nat
    requires limit >= 1
  {
    (total + limit - 1) / limit
  }

  /** `Math.ceil(total / limit)`. */
  function PageCount(total: nat, limit: int): int
    requires limit != 0
  {
    if limit > 0 then CeilDiv(total, limit) else -(total / -limit)
  }

  // ------------------------------------------------------------------ the two listings

  /** `getAuditLogs` on its filtered, ordered rows: page 1 and limit 50 where none is given, one page at least. */
  method AuditLogPage<T>(list: seq<T>, page: int, limit: int) returns (result: Result<Page<T>, PageError>)
    ensures var (current, take) := (if page == 0 then 1 else page, if limit == 0 then 50 else limit);
            && (result.Err? <==> (take > 0 && current < 1) || (take < 0 && current > 1))
            && (result.Ok? ==> IsPage(list, current, take, result.value))
    ensures result.Ok? ==> result.value.totalPages >= 1 && (limit < 0 || list == [] ==> result.value.totalPages == 1)
  {
    hide PageItems, Partitions, CeilDiv, FromEnd;
    var current, take := OrElse(page, 1), OrElse(limit, 50);
    var skip := (current - 1) * take;
    ProductSign(current - 1, take);
    if skip < 0 {
      return Err(NegativeSkip);
    }
    result := Ok(Page(Found(list, skip, take), current, Max(1, PageCount(|list|, take)), |list|, take));
    if take > 0 {
      PositiveLimit(list, current, take);
    } else {
      NegativeLimit(list, skip, take);
      hide Found, PageCount;
    }
  }

  /** `getJobs` on its filtered, ordered rows: limit 10 where none is given, and no page for an empty list. */
  method JobPage<T>(list: seq<T>, page: int, limit: int) returns (result: Result<Page<T>, PageError>)
    ensures var (current, take) := (if page == 0 then 1 else page, if limit == 0 then 10 else limit);
            && (result.Err? <==> (take > 0 && current < 1) || (take < 0 && current > 1))
            && (result.Ok? ==> IsPage(list, current, take, result.value))
    ensures result.Ok? && limit >= 0 ==> (result.value.totalPages == 0 <==> list == [])
    ensures result.Ok? && limit < 0 ==> result.value.totalPages * limit <= |list| < result.value.totalPages * limit - limit
  {
    hide PageItems, Partitions, CeilDiv, FromEnd;
    var current, take := OrElse(page, 1), OrElse(limit, 10);
    var skip := (current - 1) * take;
    ProductSign(current - 1, take);
    if skip < 0 {
      return Err(NegativeSkip);
    }
    result := Ok(Page(Found(list, skip, take), current, PageCount(|list|, take), |list|, take));
    if take > 0 {
      PositiveLimit(list, current, take);
    } else {
      NegativeLimit(list, skip, take);
      hide Found, PageCount;
    }
  }

  /**
   * What a listing returns. With a positive limit the pages 1 to `totalPages` partition the list, the last one is
   * not empty, and the items are those of the page; with a negative limit they are the last ones of the list.
   */
  ghost predicate IsPage<T>(list: seq<T>, page: int, limit: int, p: Page<T>)
  {
    && p.currentPage == page && p.limit == limit && p.totalItems == |list|
    && (limit > 0 ==> p.items == PageItems(list, page, limit) && Partitions(list, limit, p.totalPages))
    && (limit < 0 && 0 <= (page - 1) * limit ==>
          var end := |list| - (page - 1) * limit;
          p.items == if end <= 0 then [] else if end <= -limit then list[..end] else list[end + limit..end])
  }

  ghost predicate Partitions<T>(list: seq<T>, limit: nat, pages: int)
  {
    && Concat(AllPages(list, limit, pages)) == list
    && (list != [] ==> pages >= 1 && PageItems(list, pages, limit) != [])
  }

  lemma ProductSign(a: int, b: int)
    ensures a * b < 0 <==> (a < 0 && b > 0) || (a > 0 && b < 0)
    ensures a == 0 ==> a * b == 0
  {
    if a < 0 && b > 0 {
      assert (-a) * b > 0;
    } else if a > 0 && b < 0 {
      assert a * (-b) > 0;
    } else if a < 0 && b < 0 {
      assert (-a) * (-b) > 0;
    }
  }

  /** With a negative limit: the end of the list, and a page count rounded towards it. */
  lemma NegativeLimit<T>(list: seq<T>, skip: nat, limit: int)
    requires limit < 0
    ensures var end := |list| - skip;
            Found(list, skip, limit) == if end <= 0 then [] else if end <= -limit then list[..end] else list[end + limit..end]
    ensures PageCount(|list|, limit) <= 0 && PageCount(|list|, limit) * limit <= |list| < PageCount(|list|, limit) * limit - limit
  {
    var q, r := |list| / -limit, |list| % -limit;
    assert |list| == q * -limit + r;
    assert q * -limit == -q * limit;
  }

  /** A window of a positive limit is a page, and `CeilDiv`, or 1 for an empty list, is a page count. */
  lemma PositiveLimit<T>(list: seq<T>, page: int, limit: nat)
    requires limit >= 1 && page >= 1
    ensures 0 <= (page - 1) * limit && PageItems(list, page, limit) == Window(list, (page - 1) * limit, limit)
    ensures Partitions(list, limit, CeilDiv(|list|, limit)) && (CeilDiv(|list|, limit) == 0 <==> list == [])
    ensures list == [] ==> Partitions(list, limit, 1)
  {
    ProductSign(page - 1, limit);
    PagesJoinToList(list, limit);
    LastPageNotEmpty(list, limit);
    CeilOfZero(|list|, limit);
    if list == [] {
      assert AllPages(list, limit, 1) == [PageItems(list, 1, limit)];
      ConcatSnoc([], PageItems(list, 1, limit));
    }
  }

  // ------------------------------------------------------------------ pages partition the list

  function PageItems<T>(list: seq<T>, page: int, limit: nat): seq<T>
  {
    if page < 1 then []
    else
      assert 0 <= (page - 1) * limit;
      Window(list, (page - 1) * limit, limit)
  }

  function AllPages<T>(list: seq<T>, limit: nat, pages: int): seq<seq<T>>
  {
    if pages <= 0 then [] else AllPages(list, limit, pages - 1) + [PageItems(list, pages, limit)]
  }

  function Concat<T>(parts: seq<seq<T>>): seq<T>
  {
    if parts == [] then [] else Concat(parts[..|parts| - 1]) + parts[|parts| - 1]
  }

  lemma CeilOfZero(total: nat, limit: nat)
    requires limit >= 1
    ensures CeilDiv(total, limit) == 0 <==> total == 0
    ensures CeilDiv(total, limit) * limit >= total
    ensures total > 0 ==> (CeilDiv(total, limit) - 1) * limit < total
  {
    var q, r := (total + limit - 1) / limit, (total + limit - 1) % limit;
    assert q * limit + r == total + limit - 1;
  }

  lemma ConcatSnoc<T>(parts: seq<seq<T>>, last: seq<T>)
    ensures Concat(parts + [last]) == Concat(parts) + last
  {
    assert (parts + [last])[..|parts|] == parts;
  }

  lemma PrefixThenWindow<T>(list: seq<T>, k: nat, limit: nat)
    ensures list[..Min(k, |list|)] + Window(list, k, limit) == list[..Min(k + limit, |list|)]
  {
  }

  lemma {:induction false} PagesAreAPrefix<T>(list: seq<T>, limit: nat, pages: nat, read: nat)
    requires limit >= 1 && read == pages * limit
    ensures Concat(AllPages(list, limit, pages)) == list[..Min(read, |list|)]
  {
    if pages > 0 {
      var before := (pages - 1) * limit;
      assert read == before + limit;
      PagesAreAPrefix(list, limit, pages - 1, before);
      PrefixThenWindow(list, before, limit);
      ConcatSnoc(AllPages(list, limit, pages - 1), Window(list, before, limit));
    }
  }

  /** Reading pages 1 to `totalPages` one after the other reads the list, nothing twice, nothing skipped. */
  lemma PagesJoinToList<T>(list: seq<T>, limit: nat)
    requires limit >= 1
    ensures Concat(AllPages(list, limit, CeilDiv(|list|, limit))) == list
  {
    PagesAreAPrefix(list, limit, CeilDiv(|list|, limit), CeilDiv(|list|, limit) * limit);
    CeilOfZero(|list|, limit);
  }

  lemma LastPageNotEmpty<T>(list: seq<T>, limit: nat)
    requires limit >= 1
    ensures list != [] ==> PageItems(list, CeilDiv(|list|, limit), limit) != []
  {
    CeilOfZero(|list|, limit);
  }

  lemma {:induction false} MulMono(a: nat, b: nat, n: nat)
    requires a <= b
    ensures a * n <= b * n
    decreases b - a
  {
    if a < b {
      MulMono(a + 1, b, n);
      assert (a + 1) * n == a * n + n;
    }
  }

  lemma PageOfIndex(limit: nat, i: nat, page: nat, q: nat, r: nat)
    requires limit >= 1 && page >= 1 && i == q * limit + r && r < limit
    ensures (page - 1) * limit <= i < (page - 1) * limit + limit <==> page == q + 1
  {
    if page - 1 < q {
      assert (page - 1) * limit + limit == page * limit;
      MulMono(page, q, limit);
    } else if page - 1 > q {
      assert (q + 1) * limit == q * limit + limit;
      MulMono(q + 1, page - 1, limit);
    }
  }

  /** Position `i` of the list is on page `p` exactly when `p` is `i / limit + 1`. */
  lemma EachElementOnOnePage<T>(list: seq<T>, limit: nat, i: nat, page: nat, skip: nat)
    requires limit >= 1 && i < |list| && page >= 1 && skip == (page - 1) * limit
    ensures skip <= i < skip + |PageItems(list, page, limit)| <==> page == i / limit + 1
    ensures page == i / limit + 1 ==> PageItems(list, page, limit)[i - skip] == list[i]
  {
    PageOfIndex(limit, i, page, i / limit, i % limit);
  }

  lemma LaterPagesAreEmpty<T>(list: seq<T>, limit: nat, page: nat)
    requires limit >= 1 && page > CeilDiv(|list|, limit)
    ensures PageItems(list, page, limit) == []
  {
    CeilOfZero(|list|, limit);
    hide CeilDiv;
    MulMono(CeilDiv(|list|, limit), page - 1, limit);
  }
}

/**
 * The tab filter of the audit log inspector. A clause is evaluated as SQL does: comparing NULL with
 * anything is unknown, and only rows for which the whole condition is true are returned.
 */
module AuditTabs {
  import opened Basics

  /** The columns of an audit row the tabs look at; `category` is never NULL. */
  datatype Log = Log(category: string, entity: Option<string>)

  datatype Tab = JobModeration | CorporatePerks | FeatureFlags | SecuritySettings | UserManagement

  datatype Clause =
    | EntityIs(value: string)
    | EntityNotIn(values: seq<string>)
    | CategoryIs(value: string)
    | CategoryNot(value: string)
    | Or(clauses: seq<Clause>)
    | And(clauses: seq<Clause>)

  datatype Truth = True | False | Unknown

  function Holds(b: bool): Truth
  {
    if b then True else False
  }

  function Eval(clause: Clause, log: Log): Truth
  {
    match clause
    case EntityIs(v) => if log.entity.None? then Unknown else Holds(log.entity.value == v)
    case EntityNotIn(vs) => if log.entity.None? then Unknown else Holds(log.entity.value !in vs)
    case CategoryIs(v) => Holds(log.category == v)
    case CategoryNot(v) => Holds(log.category != v)
    case Or(cs) =>
      if exists c :: c in cs && Eval(c, log) == True then True
      else if exists c :: c in cs && Eval(c, log) == Unknown then Unknown
      else False
    case And(cs) =>
      if exists c :: c in cs && Eval(c, log) == False then False
      else if exists c :: c in cs && Eval(c, log) == Unknown then Unknown
      else True
  }

  /** The clause `getAuditLogs` pushes for a tab. */
  function TabClause(tab: Tab): Clause
  {
    match tab
    case JobModeration => EntityIs("Job")
    case CorporatePerks => EntityIs("Company")
    case FeatureFlags => EntityIs("FeatureFlag")
    case SecuritySettings =>
      Or([EntityIs("Role"), CategoryIs("RBAC"), EntityIs("SecurityPolicy"), CategoryIs("SECURITY")])
    case UserManagement =>
      And([EntityNotIn(["Job", "Company", "FeatureFlag", "Role"]), CategoryNot("RBAC")])
  }

  predicate InTab(log: Log, tab: Tab)
  {
    Eval(TabClause(tab), log) == True
  }

  /** The three tabs about one entity each. */
  lemma OneEntityTabs(log: Log)
    ensures InTab(log, JobModeration) <==> log.entity == Some("Job")
    ensures InTab(log, CorporatePerks) <==> log.entity == Some("Company")
    ensures InTab(log, FeatureFlags) <==> log.entity == Some("FeatureFlag")
  {
  }

  lemma SecurityTab(log: Log)
    ensures InTab(log, SecuritySettings)
            <==> log.category in {"RBAC", "SECURITY"} || log.entity in {Some("Role"), Some("SecurityPolicy")}
  {
    var cs := TabClause(SecuritySettings).clauses;
    assert cs[0] == EntityIs("Role") && cs[1] == CategoryIs("RBAC");
    assert cs[2] == EntityIs("SecurityPolicy") && cs[3] == CategoryIs("SECURITY");
    assert forall c :: c in cs <==> c == cs[0] || c == cs[1] || c == cs[2] || c == cs[3];
    assert Eval(cs[0], log) == True <==> log.entity == Some("Role");
    assert Eval(cs[1], log) == True <==> log.category == "RBAC";
    assert Eval(cs[2], log) == True <==> log.entity == Some("SecurityPolicy");
    assert Eval(cs[3], log) == True <==> log.category == "SECURITY";
  }

  lemma UserTab(log: Log)
    ensures InTab(log, UserManagement)
            <==> && log.entity.Some? && log.entity.value !in ["Job", "Company", "FeatureFlag", "Role"]
                 && log.category != "RBAC"
  {
    var cs := TabClause(UserManagement).clauses;
    assert cs[0] == EntityNotIn(["Job", "Company", "FeatureFlag", "Role"]) && cs[1] == CategoryNot("RBAC");
    assert forall c :: c in cs <==> c == cs[0] || c == cs[1];
    assert Eval(cs[1], log) == Holds(log.category != "RBAC");
    assert Eval(cs[0], log) == if log.entity.None? then Unknown else Holds(log.entity.value !in cs[0].values);
    assert (exists c :: c in cs && Eval(c, log) == False) <==> Eval(cs[0], log) == False || Eval(cs[1], log) == False;
    assert (exists c :: c in cs && Eval(c, log) == Unknown)
      <==> Eval(cs[0], log) == Unknown || Eval(cs[1], log) == Unknown;
  }

  /**
   * A row shows under no tab at all exactly when it has no entity and is neither an RBAC nor a SECURITY
   * row: a login, an e-mail verification or a password change, for example.
   */
  lemma HiddenFromEveryTab(log: Log)
    ensures (forall tab: Tab :: !InTab(log, tab))
            <==> log.entity.None? && log.category !in {"RBAC", "SECURITY"}
  {
    SecurityTab(log);
    UserTab(log);
    OneEntityTabs(log);
  }

  /** The rows that show under two tabs, one of them always Security Settings. */
  lemma UnderTwoTabs(log: Log)
    ensures (exists s: Tab, t: Tab :: s != t && InTab(log, s) && InTab(log, t))
            <==> || (log.entity in {Some("Job"), Some("Company"), Some("FeatureFlag")}
                     && log.category in {"RBAC", "SECURITY"})
                 || (log.entity == Some("SecurityPolicy") && log.category != "RBAC")
                 || (log.entity.Some? && log.entity.value !in ["Job", "Company", "FeatureFlag", "Role"]
                     && log.category == "SECURITY")
  {
    SecurityTab(log);
    UserTab(log);
    OneEntityTabs(log);
  }
}
