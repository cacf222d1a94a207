/** The video list query: ordering, paging, and the optional filters that are
    added to the WHERE clause and bound to the query in one shared order. */
module Queries {
  import opened Wrappers
  import opened Strings

  datatype OrderByField = UpdatedAt | CreatedAt
  datatype OrderByError = InvalidField | InvalidDirection

  function AsStr(f: OrderByField): (s: string)
    ensures s == "updated_at" || s == "created_at"
  {
    match f
    case UpdatedAt => "updated_at"
    case CreatedAt => "created_at"
  }

  /** Only the two column names parse, and each parses to the field whose
      name it is. */
  function FromStr(s: string): (r: Result<OrderByField, OrderByError>)
    ensures r.Ok? <==> (s == "updated_at" || s == "created_at")
    ensures r.Ok? ==> AsStr(r.value) == s
    ensures r.Err? ==> r.error == InvalidField
  {
    if s == "updated_at" then Ok(UpdatedAt)
    else if s == "created_at" then Ok(CreatedAt)
    else Err(InvalidField)
  }

  /** `as_str` and `from_str` are inverse. */
  lemma FromStrOfAsStr(f: OrderByField)
    ensures FromStr(AsStr(f)) == Ok(f)
  {
  }

  /** Every field accepts both directions. */
  function AllowedDirection(f: OrderByField, descending: bool): (r: bool)
    ensures r
  {
    true
  }

  /** A leading '-' asks for descending order and is the one character
      stripped before the name is parsed. */
  function ParseOrderBy(field: string): (r: Result<(bool, OrderByField), OrderByError>)
    ensures r.Ok? ==> r.value.0 == (|field| > 0 && field[0] == '-')
    ensures r.Ok? ==> field == (if r.value.0 then "-" else "") + AsStr(r.value.1)
    ensures r.Err? ==> r.error == InvalidField
  {
    var descending := |field| > 0 && field[0] == '-';
    var name := if descending then field[1..] else field;
    var value :- FromStr(name);
    if !AllowedDirection(value, descending) then Err(InvalidDirection)
    else Ok((descending, value))
  }

  /** The four texts an order may be given as. */
  lemma OrderTexts()
    ensures "" + AsStr(UpdatedAt) == "updated_at" && "" + AsStr(CreatedAt) == "created_at"
    ensures "-" + AsStr(UpdatedAt) == "-updated_at" && "-" + AsStr(CreatedAt) == "-created_at"
  {
  }

  /** Exactly the two field names, each with or without one leading '-',
      parse. */
  lemma ParseOrderByExactly(field: string)
    ensures ParseOrderBy(field).Ok? <==>
      field in {"updated_at", "created_at", "-updated_at", "-created_at"}
  {
    OrderTexts();
    ParseOrderByOfName(UpdatedAt);
    ParseOrderByOfName(CreatedAt);
    if ParseOrderBy(field).Ok? {
      var v := ParseOrderBy(field).value;
      assert field == (if v.0 then "-" else "") + AsStr(v.1);
    }
  }

  /** Every field parses back from its name, ascending, and from its name
      after a '-', descending. */
  lemma ParseOrderByOfName(f: OrderByField)
    ensures ParseOrderBy(AsStr(f)) == Ok((false, f))
    ensures ParseOrderBy("-" + AsStr(f)) == Ok((true, f))
  {
    assert ("-" + AsStr(f))[1..] == AsStr(f);
    assert "updated_at"[0] != '-' && "created_at"[0] != '-';
  }

  /** Two leading dashes are not one descending field: only one is stripped. */
  lemma DoubleDashRefused()
    ensures ParseOrderBy("--updated_at") == Err(InvalidField)
  {
    assert "--updated_at"[1..] == "-updated_at";
  }

  /** The ORDER BY text `list_internal` inserts, with "-updated_at" when the
      request names no order. */
  function OrderClause(orderBy: Option<string>): (r: Result<string, OrderByError>)
    ensures orderBy.None? ==> r == Ok("updated_at DESC")
    ensures r.Ok? <==> ParseOrderBy(orderBy.GetOr("-updated_at")).Ok?
    ensures r.Ok? ==> var p := ParseOrderBy(orderBy.GetOr("-updated_at")).value;
      r.value == AsStr(p.1) + " " + (if p.0 then "DESC" else "ASC")
  {
    assert "-updated_at"[0] == '-' && "-updated_at"[1..] == "updated_at";
    assert "updated_at" + " " + "DESC" == "updated_at DESC";
    var (descending, field) :- ParseOrderBy(orderBy.GetOr("-updated_at"));
    Ok(AsStr(field) + " " + (if descending then "DESC" else "ASC"))
  }

  const MaxPerPage: nat := 200
  const DefaultPerPage: nat := 50

  /** `per_page.unwrap_or(50).min(200).max(1)`. */
  function PerPage(perPage: Option<nat>): (r: nat)
    ensures 1 <= r <= MaxPerPage
    ensures perPage.None? ==> r == DefaultPerPage
    ensures perPage.Some? && 1 <= perPage.value <= MaxPerPage ==> r == perPage.value
    ensures perPage.Some? && perPage.value > MaxPerPage ==> r == MaxPerPage
    ensures perPage.Some? && perPage.value == 0 ==> r == 1
  {
    var p := perPage.GetOr(DefaultPerPage);
    var capped := if p < MaxPerPage then p else MaxPerPage;
    if capped < 1 then 1 else capped
  }

  /** The rows skipped: whole pages before the requested one. */
  function Offset(page: Option<nat>, perPage: Option<nat>): (r: nat)
    ensures page.None? ==> r == 0
  {
    page.GetOr(0) * PerPage(perPage)
  }

  /** Consecutive pages are adjacent: page p + 1 starts where page p's
      rows end, so no row is skipped or shown twice. */
  lemma PagesAdjacent(page: nat, perPage: Option<nat>)
    ensures Offset(Some(page + 1), perPage) == Offset(Some(page), perPage) + PerPage(perPage)
    ensures Offset(Some(page), perPage) >= page
  {
    var k := PerPage(perPage);
    assert Offset(Some(page + 1), perPage) == (page + 1) * k;
    assert Offset(Some(page), perPage) == page * k;
    WholePages(page, k);
  }

  /** One more page of k rows skips k more rows, and at least one per page. */
  lemma WholePages(page: nat, k: nat)
    requires k >= 1
    ensures (page + 1) * k == page * k + k
    ensures page * k >= page
  {
    assert page * k == page * (k - 1) + page;
  }

  /** The filters a list request may carry; ids and timestamps are kept as
      the strings they are bound as. */
  datatype ListQueryFilters = ListQueryFilters(
    page: Option<nat>,
    perPage: Option<nat>,
    orderBy: Option<string>,
    id: seq<string>,
    read: Option<bool>,
    updatedAtLte: Option<string>,
    updatedAtGte: Option<string>,
    createdAtLte: Option<string>,
    createdAtGte: Option<string>)

  datatype Operator = In | Eq | Lte | Gte

  /** One WHERE condition: a column, a comparison and the number of the
      placeholder it reads. */
  datatype Condition = Condition(column: string, op: Operator, param: nat)

  /** A value bound to the query. */
  datatype Binding =
    | OrganizationId
    | ActorIds
    | IntValue(n: int)
    | Ids(ids: seq<string>)
    | ReadValue(read: bool)
    | Timestamp(at: string)

  /** The first placeholder number left to the filters: the organization,
      the actors, the page size and the offset take $1 to $4. */
  const FirstFilterParam: nat := 5

  /** A filter entry whose value has the kind its column compares against. */
  predicate Typed(e: (string, Operator, Binding)) {
    && (e.0 == "id" <==> e.2.Ids?)
    && (e.0 == "id" <==> e.1 == In)
    && (e.0 == "read" <==> e.2.ReadValue?)
    && (e.0 == "updated_at" || e.0 == "created_at" <==> e.2.Timestamp?)
  }

  /** The number of optional filters. */
  const FilterCount: nat := 6

  /** The i-th optional filter of the request, in the order the source
      tests them, as (column, operator, value) when it is present. */
  function Entry(f: ListQueryFilters, i: nat): (r: Option<(string, Operator, Binding)>)
    requires i < FilterCount
  {
    Entries(f)[i]
  }

  /** The optional filters in the order `build_where_clause` tests them:
      the ids, `read`, then the two bounds on each timestamp. */
  function Entries(f: ListQueryFilters): (r: seq<Option<(string, Operator, Binding)>>)
    ensures |r| == FilterCount
  {
    [ if |f.id| > 0 then Some(("id", In, Ids(f.id))) else None,
      if f.read.Some? then Some(("read", Eq, ReadValue(f.read.value))) else None,
      if f.updatedAtLte.Some? then Some(("updated_at", Lte, Timestamp(f.updatedAtLte.value))) else None,
      if f.updatedAtGte.Some? then Some(("updated_at", Gte, Timestamp(f.updatedAtGte.value))) else None,
      if f.createdAtLte.Some? then Some(("created_at", Lte, Timestamp(f.createdAtLte.value))) else None,
      if f.createdAtGte.Some? then Some(("created_at", Gte, Timestamp(f.createdAtGte.value))) else None ]
  }

  /** The present filters among the first n. */
  function PresentUpTo(f: ListQueryFilters, n: nat): (r: seq<(string, Operator, Binding)>)
    requires n <= FilterCount
    ensures |r| <= n
  {
    if n == 0 then [] else Keep(PresentUpTo(f, n - 1), Entry(f, n - 1))
  }

  /** The present filters after one more is considered. */
  function Keep(p: seq<(string, Operator, Binding)>, e: Option<(string, Operator, Binding)>): (r: seq<(string, Operator, Binding)>)
    ensures |r| <= |p| + 1
  {
    if e.Some? then p + [e.value] else p
  }

  /** The filters that are present, in the order the source lists them. */
  function Present(f: ListQueryFilters): (r: seq<(string, Operator, Binding)>)
    ensures |r| <= FilterCount
  {
    PresentUpTo(f, FilterCount)
  }

  /** A request whose only optional filter is `read` has that one filter
      present, or none. */
  lemma PresentOnlyRead(f: ListQueryFilters)
    requires |f.id| == 0 && f.updatedAtLte.None? && f.updatedAtGte.None?
    requires f.createdAtLte.None? && f.createdAtGte.None?
    ensures Present(f) == if f.read.Some? then [("read", Eq, ReadValue(f.read.value))] else []
  {
    var r := if f.read.Some? then [("read", Eq, ReadValue(f.read.value))] else [];
    assert PresentUpTo(f, 1) == [];
    assert PresentUpTo(f, 2) == [] + r;
    assert PresentUpTo(f, 3) == r;
    assert PresentUpTo(f, 4) == r;
    assert PresentUpTo(f, 5) == r;
    assert PresentUpTo(f, 6) == r;
  }

  /** Every present filter's value has the kind its column compares against. */
  lemma {:induction false} PresentTyped(f: ListQueryFilters, n: nat, k: nat)
    requires n <= FilterCount && k < |PresentUpTo(f, n)|
    ensures Typed(PresentUpTo(f, n)[k])
  {
    var e := Entry(f, n - 1);
    if e.Some? && k == |PresentUpTo(f, n)| - 1 {
    } else {
      PresentTyped(f, n - 1, k);
    }
  }

  /** The filter builder, a value owned by `build_where_clause`: the
      conditions collected so far, each reading the next placeholder. */
  datatype FilterBuilder = FilterBuilder(firstParam: nat, conditions: seq<Condition>) {
    function Add(column: string, op: Operator): FilterBuilder {
      FilterBuilder(firstParam, conditions + [Condition(column, op, firstParam + |conditions|)])
    }
  }

  /** The conditions of the present filters, numbered from `first`. */
  function Numbered(present: seq<(string, Operator, Binding)>, first: nat): (r: seq<Condition>)
    ensures |r| == |present|
  {
    if |present| == 0 then []
    else
      var last := present[|present| - 1];
      Numbered(present[..|present| - 1], first) + [Condition(last.0, last.1, first + |present| - 1)]
  }

  /** The k-th present filter reads placeholder `first + k`. */
  lemma {:induction false} NumberedAt(present: seq<(string, Operator, Binding)>, first: nat, k: nat)
    requires k < |present|
    ensures Numbered(present, first)[k] == Condition(present[k].0, present[k].1, first + k)
  {
    if k < |present| - 1 {
      NumberedAt(present[..|present| - 1], first, k);
    }
  }

  /** The conditions after the first n filters have been considered. */
  function WhereUpTo(f: ListQueryFilters, n: nat): (r: seq<Condition>)
    requires n <= FilterCount
  {
    if n == 0 then []
    else
      Extend(WhereUpTo(f, n - 1), Entry(f, n - 1))
  }

  /** The conditions after one more filter is considered: a present filter
      adds its condition, reading the placeholder after the earlier ones. */
  function Extend(before: seq<Condition>, e: Option<(string, Operator, Binding)>): seq<Condition> {
    if e.Some? then before + [Condition(e.value.0, e.value.1, FirstFilterParam + |before|)] else before
  }

  /** Each filter considered adds its condition with the next placeholder, so
      the conditions are the present filters numbered in order. */
  lemma {:induction false} WhereUpToNumbered(f: ListQueryFilters, n: nat)
    requires n <= FilterCount
    ensures WhereUpTo(f, n) == Numbered(PresentUpTo(f, n), FirstFilterParam)
  {
    if n > 0 {
      var before, p, e := WhereUpTo(f, n - 1), PresentUpTo(f, n - 1), Entry(f, n - 1);
      assert before == Numbered(p, FirstFilterParam) by { WhereUpToNumbered(f, n - 1); }
      assert Extend(before, e) == Numbered(Keep(p, e), FirstFilterParam) by { NumberedStep(before, p, e); }
    }
  }

  /** Considering one more filter keeps the conditions numbered: a present
      filter appends its condition to both sides, an absent one neither. */
  lemma NumberedStep(before: seq<Condition>, p: seq<(string, Operator, Binding)>, e: Option<(string, Operator, Binding)>)
    requires before == Numbered(p, FirstFilterParam)
    ensures Extend(before, e) == Numbered(Keep(p, e), FirstFilterParam)
  {
    if e.Some? {
      NumberedSnoc(p, e.value, FirstFilterParam);
    }
  }

  /** Numbering one more present filter appends its condition, reading the
      placeholder after those of the filters before it. */
  lemma NumberedSnoc(p: seq<(string, Operator, Binding)>, x: (string, Operator, Binding), first: nat)
    ensures Numbered(p + [x], first) == Numbered(p, first) + [Condition(x.0, x.1, first + |p|)]
  {
    assert (p + [x])[..|p|] == p;
  }

  /** The builder after considering one optional filter. */
  function Consider(b: FilterBuilder, e: Option<(string, Operator, Binding)>): FilterBuilder {
    if e.Some? then b.Add(e.value.0, e.value.1) else b
  }

  /** Considering filter n extends the conditions of the first n filters to
      those of the first n + 1. */
  lemma WhereStep(f: ListQueryFilters, n: nat, b: FilterBuilder)
    requires n < FilterCount && b == FilterBuilder(FirstFilterParam, WhereUpTo(f, n))
    ensures Consider(b, Entry(f, n)) == FilterBuilder(FirstFilterParam, WhereUpTo(f, n + 1))
  {
  }

  /** `build_where_clause`: each present filter in turn adds its condition. */
  method BuildWhereClause(f: ListQueryFilters) returns (conditions: seq<Condition>)
    ensures conditions == Numbered(Present(f), FirstFilterParam)
  {
    var bindings := FilterBuilder(FirstFilterParam, []);
    WhereStep(f, 0, bindings);
    bindings := Consider(bindings, Entry(f, 0));  // the ids, `id IN`
    WhereStep(f, 1, bindings);
    bindings := Consider(bindings, Entry(f, 1));  // `read =`
    WhereStep(f, 2, bindings);
    bindings := Consider(bindings, Entry(f, 2));  // `updated_at <=`
    WhereStep(f, 3, bindings);
    bindings := Consider(bindings, Entry(f, 3));  // `updated_at >=`
    WhereStep(f, 4, bindings);
    bindings := Consider(bindings, Entry(f, 4));  // `created_at <=`
    WhereStep(f, 5, bindings);
    bindings := Consider(bindings, Entry(f, 5));  // `created_at >=`
    conditions := bindings.conditions;
    assert conditions == WhereUpTo(f, FilterCount);
    WhereUpToNumbered(f, FilterCount);
  }

  /** A query under construction, a value each `bind` consumes and
      returns: the values bound so far. */
  datatype Query = Query(bindings: seq<Binding>) {
    function Bind(v: Binding): Query {
      Query(bindings + [v])
    }
  }

  function Values(present: seq<(string, Operator, Binding)>): (r: seq<Binding>)
    ensures |r| == |present|
  {
    if |present| == 0 then []
    else Values(present[..|present| - 1]) + [present[|present| - 1].2]
  }

  /** The k-th value bound after `prefix` is the k-th present filter's. */
  lemma {:induction false} ValuesAt(prefix: seq<Binding>, present: seq<(string, Operator, Binding)>, k: nat)
    requires k < |present|
    ensures (prefix + Values(present))[|prefix| + k] == present[k].2
  {
    if k < |present| - 1 {
      ValuesAt(prefix, present[..|present| - 1], k);
      assert prefix + Values(present) == (prefix + Values(present[..|present| - 1])) + [present[|present| - 1].2];
    }
  }

  /** The values bound, after `prefix`, once the first n filters have been
      considered. */
  function BoundUpTo(prefix: seq<Binding>, f: ListQueryFilters, n: nat): (r: seq<Binding>)
    requires n <= FilterCount
  {
    if n == 0 then prefix
    else
      var e := Entry(f, n - 1);
      if e.Some? then BoundUpTo(prefix, f, n - 1) + [e.value.2] else BoundUpTo(prefix, f, n - 1)
  }

  lemma ValuesSnoc(present: seq<(string, Operator, Binding)>, x: (string, Operator, Binding))
    ensures Values(present + [x]) == Values(present) + [x.2]
  {
    assert (present + [x])[..|present|] == present;
  }

  /** Each filter considered binds its value after the earlier ones. */
  lemma {:induction false} BoundUpToValues(prefix: seq<Binding>, f: ListQueryFilters, n: nat)
    requires n <= FilterCount
    ensures BoundUpTo(prefix, f, n) == prefix + Values(PresentUpTo(f, n))
  {
    if n == 0 {
      assert PresentUpTo(f, 0) == [] && Values([]) == [];
      assert prefix + [] == prefix;
    } else {
      BoundUpToValues(prefix, f, n - 1);
      var e := Entry(f, n - 1);
      var p := PresentUpTo(f, n - 1);
      var before := BoundUpTo(prefix, f, n - 1);
      if e.Some? {
        assert PresentUpTo(f, n) == p + [e.value];
        ValuesSnoc(p, e.value);
        assert BoundUpTo(prefix, f, n) == before + [e.value.2];
        assert (prefix + Values(p)) + [e.value.2] == prefix + (Values(p) + [e.value.2]);
      } else {
        assert PresentUpTo(f, n) == p;
        assert BoundUpTo(prefix, f, n) == before;
      }
    }
  }

  /** `bind_to_query`: the page size and the offset, then each present
      filter's value. */
  method BindToQuery(f: ListQueryFilters, query: Query) returns (r: Query)
    ensures r.bindings == query.bindings
      + [IntValue(PerPage(f.perPage)), IntValue(Offset(f.page, f.perPage))] + Values(Present(f))
  {
    var perPage := PerPage(f.perPage);
    var offset := Offset(f.page, f.perPage);
    r := query.Bind(IntValue(perPage)).Bind(IntValue(offset));
    ghost var prefix := query.bindings + [IntValue(perPage), IntValue(offset)];
    assert r == Query(prefix);
    ghost var i: nat := 0;
    r := if |f.id| > 0 then r.Bind(Ids(f.id)) else r;
    i := i + 1;
    assert r == Query(BoundUpTo(prefix, f, i));
    r := if f.read.Some? then r.Bind(ReadValue(f.read.value)) else r;
    i := i + 1;
    assert r == Query(BoundUpTo(prefix, f, i));
    r := if f.updatedAtLte.Some? then r.Bind(Timestamp(f.updatedAtLte.value)) else r;
    i := i + 1;
    assert r == Query(BoundUpTo(prefix, f, i));
    r := if f.updatedAtGte.Some? then r.Bind(Timestamp(f.updatedAtGte.value)) else r;
    i := i + 1;
    assert r == Query(BoundUpTo(prefix, f, i));
    r := if f.createdAtLte.Some? then r.Bind(Timestamp(f.createdAtLte.value)) else r;
    i := i + 1;
    assert r == Query(BoundUpTo(prefix, f, i));
    r := if f.createdAtGte.Some? then r.Bind(Timestamp(f.createdAtGte.value)) else r;
    i := i + 1;
    assert r == Query(BoundUpTo(prefix, f, i)) && i == FilterCount;
    BoundUpToValues(prefix, f, FilterCount);
  }

  /** The values `list_internal` binds, in order: organization, actors, then
      those of `bind_to_query`. */
  function ListBindings(f: ListQueryFilters): (r: seq<Binding>)
    ensures |r| == 4 + |Present(f)|
  {
    [OrganizationId, ActorIds, IntValue(PerPage(f.perPage)), IntValue(Offset(f.page, f.perPage))]
      + Values(Present(f))
  }

  /** The WHERE clause and the bindings agree: each condition's placeholder
      ($n, counted from 1) receives the value of the filter it tests, so the
      two lists of filters are built in the same order. */
  lemma ConditionsMatchBindings(f: ListQueryFilters, k: nat)
    requires k < |Present(f)|
    ensures var c := Numbered(Present(f), FirstFilterParam)[k];
      && 1 <= c.param <= |ListBindings(f)|
      && c.column == Present(f)[k].0 && c.op == Present(f)[k].1
      && ListBindings(f)[c.param - 1] == Present(f)[k].2
  {
    var p := Present(f);
    NumberedAt(p, FirstFilterParam, k);
    ValuesAt([OrganizationId, ActorIds, IntValue(PerPage(f.perPage)), IntValue(Offset(f.page, f.perPage))], p, k);
  }

  /** A request with no filters has no conditions and binds only the paging
      values, the first page of 50 newest-updated rows. */
  lemma DefaultRequest()
    ensures var f := ListQueryFilters(None, None, None, [], None, None, None, None, None);
      && Present(f) == []
      && ListBindings(f) == [OrganizationId, ActorIds, IntValue(50), IntValue(0)]
      && OrderClause(f.orderBy) == Ok("updated_at DESC")
  {
    var f := ListQueryFilters(None, None, None, [], None, None, None, None, None);
    PresentOnlyRead(f);
    assert Values(Present(f)) == [];
    var paging := [OrganizationId, ActorIds, IntValue(50), IntValue(0)];
    assert ListBindings(f) == paging + [];
  }
}
