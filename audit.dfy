/** The audit-log viewer: the log filtered by action, entity type and user, newest
    first, one page at a time, and the distinct actions and entity types that occur.
    The log is only read. */
module Audit {
  import opened Types
  import opened Query

  datatype AuditLogOut = AuditLogOut(
    id: int,
    userId: Option<int>,
    userName: Option<string>,
    action: string,
    entityType: string,
    entityId: Option<int>,
    entityName: Option<string>,
    details: Option<string>,
    ipAddress: Option<string>,
    createdAt: int)

  datatype AuditLogPage = AuditLogPage(items: seq<AuditLogOut>, total: nat, page: int, perPage: int, totalPages: nat)

  /** The optional query parameters; each one filters only when it is truthy. */
  datatype Filters = Filters(action: Option<string>, entityType: Option<string>, userId: Option<int>)

  /** The three filters, combined with AND. */
  predicate Matches(f: Filters, e: AuditEntry) {
    (NonEmpty(f.action) ==> e.action == f.action.value)
    && (NonEmpty(f.entityType) ==> e.entityType == f.entityType.value)
    && (Truthy(f.userId) ==> e.userId == f.userId)
  }

  /** The filtered query, in log order: each entry as often as it occurs in the log when
      it matches, and not at all otherwise. */
  function {:induction false} Filtered(f: Filters, log: seq<AuditEntry>): (r: seq<AuditEntry>)
    ensures forall e :: multiset(r)[e] == if Matches(f, e) then multiset(log)[e] else 0
    ensures |r| <= |log|
  {
    if log == [] then []
    else
      assert log == [log[0]] + log[1..];
      (if Matches(f, log[0]) then [log[0]] else []) + Filtered(f, log[1..])
  }

  /** Every entry of the filtered log matches all the filters given, and every matching
      entry of the log is in it. */
  lemma FilteredExactly(f: Filters, log: seq<AuditEntry>, e: AuditEntry)
    ensures e in Filtered(f, log) <==> e in log && Matches(f, e)
  {
    assert e in Filtered(f, log) <==> multiset(Filtered(f, log))[e] > 0;
    assert e in log <==> multiset(log)[e] > 0;
  }

  /** `order_by(created_at.desc())`. */
  predicate NewerFirst(a: AuditEntry, b: AuditEntry) {
    a.createdAt >= b.createdAt
  }

  lemma NewerFirstIsPreorder()
    ensures TotalPreorder(NewerFirst)
  {
  }

  /** `ceil(total / per_page)`, computed as `(total + per_page - 1) // per_page`. */
  function PageCount(total: nat, perPage: int): (n: nat)
    requires perPage >= 1
    ensures n * perPage >= total
    ensures n > 0 ==> (n - 1) * perPage < total
    ensures total == 0 <==> n == 0
  {
    var n := (total + perPage - 1) / perPage;
    assert n * perPage + (total + perPage - 1) % perPage == total + perPage - 1;
    n
  }

  /** The output row: the entry's columns and the display name of its user, when that
      user still exists. */
  function ToOut(e: AuditEntry, users: map<int, User>): AuditLogOut {
    var name := if e.userId.Some? && e.userId.value in users then Some(users[e.userId.value].displayName) else None;
    AuditLogOut(e.id, e.userId, name, e.action, e.entityType, e.entityId, e.entityName, e.details,
                e.ipAddress, e.createdAt)
  }

  /** The filtered log, newest first. */
  function Ordered(f: Filters, log: seq<AuditEntry>): (r: seq<AuditEntry>)
    ensures multiset(r) == multiset(Filtered(f, log)) && |r| == |Filtered(f, log)|
    ensures forall i, j :: 0 <= i < j < |r| ==> r[i].createdAt >= r[j].createdAt
  {
    NewerFirstIsPreorder();
    var r := SortBy(Filtered(f, log), NewerFirst);
    assert |multiset(r)| == |r|;
    assert forall i, j :: 0 <= i < j < |r| ==> NewerFirst(r[i], r[j]);
    r
  }

  /** `offset(o).limit(n)`: an offset past the end gives nothing. */
  function Slice<T>(s: seq<T>, offset: nat, limit: nat): (r: seq<T>)
    ensures |r| <= limit
    ensures offset >= |s| ==> r == []
    ensures offset < |s| ==> |r| == if offset + limit <= |s| then limit else |s| - offset
    ensures forall i :: 0 <= i < |r| ==> r[i] == s[offset + i]
  {
    if offset >= |s| then []
    else if offset + limit <= |s| then s[offset..offset + limit]
    else s[offset..]
  }

  function Outs(es: seq<AuditEntry>, users: map<int, User>): seq<AuditLogOut> {
    seq(|es|, i requires 0 <= i < |es| => ToOut(es[i], users))
  }

  /** An output row satisfies the filters given. */
  predicate OutMatches(f: Filters, o: AuditLogOut) {
    (NonEmpty(f.action) ==> o.action == f.action.value)
    && (NonEmpty(f.entityType) ==> o.entityType == f.entityType.value)
    && (Truthy(f.userId) ==> o.userId == f.userId)
  }

  /** The rows of one page: at most `per_page` matching rows, newest first, none when the
      offset is past the last matching entry. */
  function PageItems(log: seq<AuditEntry>, users: map<int, User>, offset: nat, perPage: nat, f: Filters)
    : (items: seq<AuditLogOut>)
    ensures |items| <= perPage
    ensures offset >= |Filtered(f, log)| ==> items == []
    ensures offset < |Filtered(f, log)| && perPage > 0 ==> items != []
    ensures forall i :: 0 <= i < |items| ==> OutMatches(f, items[i])
    ensures forall i, j :: 0 <= i < j < |items| ==> items[i].createdAt >= items[j].createdAt
  {
    var entries := Slice(Ordered(f, log), offset, perPage);
    SliceMatches(f, log, offset, perPage);
    Outs(entries, users)
  }

  /** A page that starts inside the list is full, unless it is the last, which holds
      the rest. */
  lemma PageLength(log: seq<AuditEntry>, users: map<int, User>, offset: nat, perPage: nat, f: Filters)
    ensures var total := |Filtered(f, log)|;
      offset < total ==> |PageItems(log, users, offset, perPage, f)| == if offset + perPage <= total then perPage else total - offset
  {
    var entries := Slice(Ordered(f, log), offset, perPage);
    assert |Outs(entries, users)| == |entries|;
  }

  lemma SliceMatches(f: Filters, log: seq<AuditEntry>, offset: nat, perPage: nat)
    ensures forall i :: 0 <= i < |Slice(Ordered(f, log), offset, perPage)| ==>
      Matches(f, Slice(Ordered(f, log), offset, perPage)[i])
  {
    forall i | 0 <= i < |Slice(Ordered(f, log), offset, perPage)|
      ensures Matches(f, Slice(Ordered(f, log), offset, perPage)[i])
    {
      OrderedMatches(f, log, offset + i);
    }
  }

  /** `get_audit_logs`: `total` counts every matching entry, `total_pages` is the number
      of pages they fill, and `items` is page `page` of them, newest first. */
  function GetAuditLogs(log: seq<AuditEntry>, users: map<int, User>, page: int, perPage: int, f: Filters)
    : (r: AuditLogPage)
    requires page >= 1 && 10 <= perPage <= 100
    ensures r.page == page && r.perPage == perPage
    ensures r.total == |Filtered(f, log)|
    ensures r.totalPages == PageCount(r.total, perPage)
    ensures |r.items| <= perPage
    ensures page > r.totalPages ==> r.items == []
    ensures page <= r.totalPages ==> r.items != []
    ensures page <= r.totalPages ==>
      |r.items| == if page * perPage <= r.total then perPage else r.total - (page - 1) * perPage
    ensures forall i :: 0 <= i < |r.items| ==> OutMatches(f, r.items[i])
    ensures forall i, j :: 0 <= i < j < |r.items| ==> r.items[i].createdAt >= r.items[j].createdAt
  {
    var total := |Filtered(f, log)|;
    PageBounds(total, perPage, page);
    var offset := (page - 1) * perPage;
    assert offset + perPage == page * perPage;
    PageLength(log, users, offset, perPage, f);
    AuditLogPage(PageItems(log, users, offset, perPage, f), total, page, perPage,
                 PageCount(total, perPage))
  }

  lemma OrderedMatches(f: Filters, log: seq<AuditEntry>, k: int)
    requires 0 <= k < |Ordered(f, log)|
    ensures Matches(f, Ordered(f, log)[k])
  {
    assert Ordered(f, log)[k] in multiset(Ordered(f, log));
    FilteredExactly(f, log, Ordered(f, log)[k]);
  }

  /** Page `page` starts before the end exactly when it is one of the `PageCount` pages. */
  lemma PageBounds(total: nat, perPage: int, page: int)
    requires page >= 1 && perPage >= 1
    ensures (page - 1) * perPage >= 0
    ensures page > PageCount(total, perPage) ==> (page - 1) * perPage >= total
    ensures page <= PageCount(total, perPage) ==> (page - 1) * perPage < total
  {
    var n := PageCount(total, perPage);
    MulMonotone(0, page - 1, perPage);
    if page > n {
      MulMonotone(n, page - 1, perPage);
    } else {
      MulMonotone(page - 1, n - 1, perPage);
    }
  }

  lemma MulMonotone(a: int, b: int, c: int)
    requires 0 <= a <= b && 0 <= c
    ensures a * c <= b * c
  {
  }

  /** Row `j` of a page is the entry at `offset + j` of the ordered log. */
  lemma ItemAt(log: seq<AuditEntry>, users: map<int, User>, offset: nat, perPage: nat, f: Filters, j: nat)
    requires j < perPage && offset + j < |Filtered(f, log)|
    ensures j < |PageItems(log, users, offset, perPage, f)|
    ensures PageItems(log, users, offset, perPage, f)[j] == ToOut(Ordered(f, log)[offset + j], users)
  {
    var ordered := Ordered(f, log);
    var entries := Slice(ordered, offset, perPage);
    assert j < |entries|;
    assert entries[j] == ordered[offset + j];
    assert PageItems(log, users, offset, perPage, f) == Outs(entries, users);
  }

  /** The pages partition the ordered log: position `offset + j` of the matching entries,
      newest first, is row `j` of page `page` when `offset == (page - 1) * per_page` and
      `0 <= j < per_page`, that is, page `k / per_page + 1`, row `k % per_page` for
      position `k`. */
  lemma PagesCover(log: seq<AuditEntry>, users: map<int, User>, perPage: int, f: Filters, page: int,
                   offset: nat, j: nat)
    requires 10 <= perPage <= 100 && page >= 1 && offset == (page - 1) * perPage && j < perPage
    requires offset + j < |Filtered(f, log)|
    ensures var r := GetAuditLogs(log, users, page, perPage, f);
      j < |r.items| && r.items[j] == ToOut(Ordered(f, log)[offset + j], users)
  {
    ItemAt(log, users, offset, perPage, f, j);
  }

  /** The values of a column without repetitions, in order of first occurrence. */
  function {:induction false} Distinct(s: seq<string>): (r: seq<string>)
    ensures forall i, j :: 0 <= i < j < |r| ==> r[i] != r[j]
    ensures forall x :: x in r <==> x in s
  {
    if s == [] then []
    else
      var rest := Distinct(s[..|s| - 1]);
      var last := s[|s| - 1];
      assert s == s[..|s| - 1] + [last];
      if last in rest then rest else rest + [last]
  }

  function Actions(log: seq<AuditEntry>): seq<string> {
    seq(|log|, i requires 0 <= i < |log| => log[i].action)
  }

  function EntityTypes(log: seq<AuditEntry>): seq<string> {
    seq(|log|, i requires 0 <= i < |log| => log[i].entityType)
  }

  /** `get_action_types`: every action of the log, once. */
  function GetActionTypes(log: seq<AuditEntry>): (r: seq<string>)
    ensures forall i, j :: 0 <= i < j < |r| ==> r[i] != r[j]
    ensures forall a :: a in r <==> exists i :: 0 <= i < |log| && log[i].action == a
  {
    forall a ensures a in Actions(log) <==> exists i :: 0 <= i < |log| && log[i].action == a {
      if a in Actions(log) {
        var i :| 0 <= i < |Actions(log)| && Actions(log)[i] == a;
        assert log[i].action == a;
      }
      if exists i :: 0 <= i < |log| && log[i].action == a {
        var i :| 0 <= i < |log| && log[i].action == a;
        assert Actions(log)[i] == a;
      }
    }
    Distinct(Actions(log))
  }

  /** `get_entity_types`: every entity type of the log, once. */
  function GetEntityTypes(log: seq<AuditEntry>): (r: seq<string>)
    ensures forall i, j :: 0 <= i < j < |r| ==> r[i] != r[j]
    ensures forall t :: t in r <==> exists i :: 0 <= i < |log| && log[i].entityType == t
  {
    forall t ensures t in EntityTypes(log) <==> exists i :: 0 <= i < |log| && log[i].entityType == t {
      if t in EntityTypes(log) {
        var i :| 0 <= i < |EntityTypes(log)| && EntityTypes(log)[i] == t;
        assert log[i].entityType == t;
      }
      if exists i :: 0 <= i < |log| && log[i].entityType == t {
        var i :| 0 <= i < |log| && log[i].entityType == t;
        assert EntityTypes(log)[i] == t;
      }
    }
    Distinct(EntityTypes(log))
  }
}
