/** The audit log screen (`admin/AuditLogViewer.tsx`): the server-side
    filters and paging, and the client-side text search over the page of
    entries the server returned. */
module AuditLog {
  import Seqs
  import Text

  /** The fields of an entry the search reads. */
  datatype Entry = Entry(id: string, userEmail: string, entityType: string, entityId: string, changes: seq<string>)

  /** `limit`: entries per page. */
  const Limit: nat := 50

  /** Whether some change mentions the query, ignoring case. */
  predicate SomeChange(changes: seq<string>, query: string) {
    exists i :: 0 <= i < |changes| && Text.ContainsCi(changes[i], query)
  }

  /** The search: an empty query keeps everything; otherwise the entity
      type, entity id, user email or one of the changes must contain it,
      ignoring case. */
  predicate Matches(e: Entry, query: string) {
    query == ""
    || Text.ContainsCi(e.entityType, query) || Text.ContainsCi(e.entityId, query)
    || Text.ContainsCi(e.userEmail, query) || SomeChange(e.changes, query)
  }

  /** `filteredLogs`. */
  function Visible(logs: seq<Entry>, query: string): (r: seq<Entry>)
    ensures forall e :: e in r <==> e in logs && Matches(e, query)
    ensures multiset(r) <= multiset(logs)
  {
    Seqs.FilterSubMultiset((e: Entry) => Matches(e, query), logs);
    Seqs.Filter((e: Entry) => Matches(e, query), logs)
  }

  /** With no query the page is shown whole, in order. */
  lemma EmptyQueryKeepsAll(logs: seq<Entry>)
    ensures Visible(logs, "") == logs
  {
    Seqs.FilterAll((e: Entry) => Matches(e, ""), logs);
  }

  /** An entry whose entity type contains the query is always shown. */
  lemma EntityTypeHitShown(logs: seq<Entry>, e: Entry, query: string)
    requires e in logs && Text.Contains(Text.Lower(e.entityType), Text.Lower(query))
    ensures e in Visible(logs, query)
  {
  }

  /** The server-side filters; "" means no filter. */
  datatype Filters = Filters(entityType: string, action: string, userId: string, startDate: string, endDate: string)

  /** The screen's state: the page, the server's total, the filters and
      the search text. */
  datatype Screen = Screen(page: nat, total: int, filters: Filters, query: string)

  /** `[(name, value)]` when the value is set, nothing otherwise. */
  function Param(name: string, value: string): (r: seq<(string, string)>)
    ensures (name, value) in r <==> value != ""
    ensures |r| <= 1
  {
    if value != "" then [(name, value)] else []
  }

  /** The filters that are set, in the order the request lists them. */
  function FilterParams(f: Filters): (r: seq<(string, string)>)
    ensures ("entityType", f.entityType) in r <==> f.entityType != ""
    ensures ("action", f.action) in r <==> f.action != ""
    ensures ("userId", f.userId) in r <==> f.userId != ""
    ensures ("startDate", f.startDate) in r <==> f.startDate != ""
    ensures ("endDate", f.endDate) in r <==> f.endDate != ""
  {
    var a := Param("entityType", f.entityType);
    var b := Param("action", f.action);
    var c := Param("userId", f.userId);
    var d := Param("startDate", f.startDate);
    var e := Param("endDate", f.endDate);
    assert forall x :: x in a + b + c + d + e <==> x in a || x in b || x in c || x in d || x in e;
    a + b + c + d + e
  }

  /** `String(limit)`. */
  const LimitText := "50"

  /** `params`: the offset of the page's first entry and the limit, then
      each filter that is set. */
  function Params(s: Screen): (r: seq<(string, string)>)
    ensures |r| >= 2 && r[0] == ("offset", Text.NatToString(s.page * Limit)) && r[1] == ("limit", LimitText)
    ensures r[2..] == FilterParams(s.filters)
  {
    [("offset", Text.NatToString(s.page * Limit)), ("limit", LimitText)] + FilterParams(s.filters)
  }

  /** Which server-side filter a control sets. */
  datatype Control = EntityTypeControl | ActionControl | StartDateControl | EndDateControl

  /** Changing a server-side filter sets it and returns to the first page. */
  function SetFilter(s: Screen, c: Control, value: string): (r: Screen)
    ensures r.page == 0 && r.total == s.total && r.query == s.query
    ensures c == EntityTypeControl ==> r.filters == s.filters.(entityType := value)
    ensures c == ActionControl ==> r.filters == s.filters.(action := value)
    ensures c == StartDateControl ==> r.filters == s.filters.(startDate := value)
    ensures c == EndDateControl ==> r.filters == s.filters.(endDate := value)
  {
    var f := s.filters;
    var g := match c
      case EntityTypeControl => f.(entityType := value)
      case ActionControl => f.(action := value)
      case StartDateControl => f.(startDate := value)
      case EndDateControl => f.(endDate := value);
    s.(page := 0, filters := g)
  }

  /** The search box filters on the client and leaves the page alone. */
  function SetQuery(s: Screen, query: string): (r: Screen)
    ensures r.page == s.page && r.filters == s.filters && r.query == query
  {
    s.(query := query)
  }

  /** After any filter change the next request asks for the first page. */
  lemma FilterChangeRequestsFirstPage(s: Screen, c: Control, value: string)
    ensures Params(SetFilter(s, c, value))[0] == ("offset", Text.NatToString(0))
  {
  }

  /** "Previous" is disabled on the first page. */
  predicate PreviousDisabled(s: Screen) { s.page == 0 }

  /** "Next" is disabled once the next page would start at or past the
      total. */
  predicate NextDisabled(s: Screen) { (s.page + 1) * Limit >= s.total }

  /** "Previous": one page back, never below the first. */
  function Previous(s: Screen): (r: Screen)
    ensures r.page == if s.page == 0 then 0 else s.page - 1
    ensures r.filters == s.filters && r.query == s.query && r.total == s.total
  {
    s.(page := if s.page - 1 < 0 then 0 else s.page - 1)
  }

  /** "Next": one page on. */
  function Next(s: Screen): (r: Screen)
    ensures r.page == s.page + 1
    ensures r.filters == s.filters && r.query == s.query && r.total == s.total
  {
    s.(page := s.page + 1)
  }

  /** The first page, or a page that starts inside the total. */
  predicate InRange(s: Screen) {
    s.page == 0 || s.page * Limit < s.total
  }

  /** Moving with the enabled buttons, or changing a filter, never leaves
      the range: while the total stays the same, a page past the last
      entry cannot be reached. */
  lemma ButtonsKeepInRange(s: Screen, c: Control, value: string)
    requires InRange(s)
    ensures !NextDisabled(s) ==> InRange(Next(s))
    ensures !PreviousDisabled(s) ==> InRange(Previous(s))
    ensures InRange(SetFilter(s, c, value))
  {
    if !PreviousDisabled(s) && s.page > 1 {
      assert (s.page - 1) * Limit < s.page * Limit;
    }
  }

  /** "Showing a - b of total". */
  function Shown(s: Screen): (r: (int, int))
    ensures r.0 == s.page * Limit + 1
    ensures r.1 <= s.total && r.1 <= (s.page + 1) * Limit
    ensures r.1 == s.total || r.1 == (s.page + 1) * Limit
  {
    (s.page * Limit + 1, if (s.page + 1) * Limit <= s.total then (s.page + 1) * Limit else s.total)
  }

  /** On a page that starts inside the total, the range is non-empty, lies
      within the total and spans at most one page. */
  lemma ShownWithinTotal(s: Screen)
    requires s.page * Limit < s.total
    ensures 1 <= Shown(s).0 <= Shown(s).1 <= s.total
    ensures Shown(s).1 - Shown(s).0 < Limit
  {
  }
}
