/** Cohort retention: organisations grouped by the month they joined, and how many were active in each later month. */
module Cohorts {
  import opened Text
  import opened Division
  import opened Sequences
  import opened OrderedMap
  import opened Calendar
  import opened MonthKeys

  datatype Organization = Organization(id: string, createdAt: int)

  datatype User = User(organizationId: Option<string>, lastLoginAt: Option<int>, deleted: bool)

  datatype Order = Order(organizationId: string, createdAt: int, deleted: bool)

  /** A month of a cohort; `rate` is in tenths of a percent. */
  datatype Cell = Cell(monthOffset: nat, monthKey: string, rate: int)

  datatype CohortData = CohortData(cohortMonth: string, cohortSize: nat, retention: seq<Cell>)

  // ----- Activity, read off the tables -----

  predicate LoggedIn(u: User, organizationId: string, key: string) {
    u.organizationId == Some(organizationId) && !u.deleted
    && u.lastLoginAt.Some? && MonthKeyUtc(u.lastLoginAt.value) == key
  }

  predicate Ordered(o: Order, organizationId: string, key: string) {
    o.organizationId == organizationId && !o.deleted && MonthKeyUtc(o.createdAt) == key
  }

  predicate SomeLogin(users: seq<User>, organizationId: string, key: string) {
    exists u <- users :: LoggedIn(u, organizationId, key)
  }

  predicate SomeOrder(orders: seq<Order>, organizationId: string, key: string) {
    exists o <- orders :: Ordered(o, organizationId, key)
  }

  /** A user of the organisation logged in, or an order of it came in, in the month. */
  predicate Active(users: seq<User>, orders: seq<Order>, organizationId: string, key: string) {
    SomeLogin(users, organizationId, key) || SomeOrder(orders, organizationId, key)
  }

  function ActiveIn(users: seq<User>, orders: seq<Order>, key: string): string -> bool {
    id => Active(users, orders, id, key)
  }

  function CreatedIn(key: string): Organization -> bool {
    (org: Organization) => MonthKeyUtc(org.createdAt) == key
  }

  function CreatedBetween(from: int, to: int): Organization -> bool {
    (org: Organization) => from <= org.createdAt <= to
  }

  function OrganizationId(org: Organization): string {
    org.id
  }

  function Members(orgs: seq<Organization>, key: string): seq<string> {
    Map(Filter(orgs, CreatedIn(key)), OrganizationId)
  }

  // ----- The rows the queries return -----

  predicate LoginRow(u: User, ids: seq<string>, from: int) {
    && u.organizationId.Some? && u.organizationId.value in ids && !u.deleted
    && u.lastLoginAt.Some? && u.lastLoginAt.value >= from
  }

  function IsLoginRow(ids: seq<string>, from: int): User -> bool {
    u => LoginRow(u, ids, from)
  }

  predicate OrderRow(o: Order, ids: seq<string>, from: int) {
    o.organizationId in ids && !o.deleted && o.createdAt >= from
  }

  function IsOrderRow(ids: seq<string>, from: int): Order -> bool {
    o => OrderRow(o, ids, from)
  }

  // ----- Building the activity map -----

  type ActivityMap = JsMap<string, set<string>>

  predicate InMonth(activity: ActivityMap, organizationId: string, key: string) {
    organizationId in activity.at && key in activity.at[organizationId]
  }

  function AddActivity(activity: ActivityMap, organizationId: string, at: int): (r: ActivityMap)
    requires activity.Valid()
    ensures r.Valid()
    ensures forall id, key ::
      InMonth(r, id, key) <==> InMonth(activity, id, key) || (id == organizationId && key == MonthKeyUtc(at))
  {
    var months := if organizationId in activity.at then activity.at[organizationId] else {};
    activity.Set(organizationId, months + {MonthKeyUtc(at)})
  }

  lemma OneMoreLogin(users: seq<User>, u: User)
    ensures forall id, key :: SomeLogin(users + [u], id, key) <==> SomeLogin(users, id, key) || LoggedIn(u, id, key)
  {
    assert u in users + [u];
  }

  lemma OneMoreOrder(orders: seq<Order>, o: Order)
    ensures forall id, key :: SomeOrder(orders + [o], id, key) <==> SomeOrder(orders, id, key) || Ordered(o, id, key)
  {
    assert o in orders + [o];
  }

  method CollectActivity(logins: seq<User>, orders: seq<Order>) returns (activity: ActivityMap)
    requires forall u <- logins :: !u.deleted
    requires forall o <- orders :: !o.deleted
    ensures activity.Valid()
    ensures forall id, key :: InMonth(activity, id, key) <==> Active(logins, orders, id, key)
  {
    activity := Empty();
    for n := 0 to |logins|
      invariant activity.Valid()
      invariant forall id, key :: InMonth(activity, id, key) <==> SomeLogin(logins[..n], id, key)
    {
      var u := logins[n];
      assert u in logins && logins[..n + 1] == logins[..n] + [u];
      OneMoreLogin(logins[..n], u);
      if u.lastLoginAt.Some? && u.organizationId.Some? {
        activity := AddActivity(activity, u.organizationId.value, u.lastLoginAt.value);
      }
    }
    assert logins[..|logins|] == logins;
    for n := 0 to |orders|
      invariant activity.Valid()
      invariant forall id, key :: InMonth(activity, id, key) <==> Active(logins, orders[..n], id, key)
    {
      var o := orders[n];
      assert o in orders && orders[..n + 1] == orders[..n] + [o];
      OneMoreOrder(orders[..n], o);
      activity := AddActivity(activity, o.organizationId, o.createdAt);
    }
    assert orders[..|orders|] == orders;
  }

  // ----- Grouping the organisations -----

  type CohortMap = JsMap<string, seq<string>>

  ghost predicate Groups(cohorts: CohortMap, orgs: seq<Organization>) {
    && cohorts.Valid()
    && (forall key :: key in cohorts.at <==> Members(orgs, key) != [])
    && (forall key :: key in cohorts.at ==> cohorts.at[key] == Members(orgs, key))
  }

  lemma {:induction false} MembersSnoc(orgs: seq<Organization>, org: Organization, key: string)
    ensures Members(orgs + [org], key)
         == Members(orgs, key) + if MonthKeyUtc(org.createdAt) == key then [org.id] else []
  {
    hide MonthKeyUtc;
    FilterAppend(orgs, [org], CreatedIn(key));
    MapAppend(Filter(orgs, CreatedIn(key)), Filter([org], CreatedIn(key)), OrganizationId);
    FilterCons(org, [], CreatedIn(key));
    assert Map([org], OrganizationId) == [org.id];
  }

  lemma {:induction false} AddMember(cohorts: CohortMap, orgs: seq<Organization>, org: Organization)
    requires Groups(cohorts, orgs)
    ensures var key := MonthKeyUtc(org.createdAt);
      Groups(cohorts.Set(key, Members(orgs, key) + [org.id]), orgs + [org])
  {
    hide MonthKeyUtc, Members;
    forall k {
      MembersSnoc(orgs, org, k);
    }
  }

  method GroupByMonth(orgs: seq<Organization>) returns (cohorts: CohortMap)
    ensures Groups(cohorts, orgs)
  {
    hide MonthKeyUtc;
    cohorts := Empty();
    for n := 0 to |orgs|
      invariant Groups(cohorts, orgs[..n])
    {
      var org := orgs[n];
      var key := MonthKeyUtc(org.createdAt);
      var list := if key in cohorts.at then cohorts.at[key] else [];
      AddMember(cohorts, orgs[..n], org);
      assert orgs[..n + 1] == orgs[..n] + [org];
      cohorts := cohorts.Set(key, list + [org.id]);
    }
    assert orgs[..|orgs|] == orgs;
  }

  // ----- Retention -----

  /** One month of a cohort, counted straight from the tables. The joining month counts every member. */
  function CellOf(members: seq<string>, users: seq<User>, orders: seq<Order>, cohortDate: int, offset: nat): Cell {
    var key := MonthKeyUtc(AddUtcMonths(cohortDate, offset));
    var active := if offset == 0 then |members| else Count(members, ActiveIn(users, orders, key));
    Cell(offset, key, if members == [] then 0 else Round(1000 * active, |members|))
  }

  method CountActive(
    members: seq<string>, activity: ActivityMap, targetKey: string, offset: nat,
    ghost users: seq<User>, ghost orders: seq<Order>)
    returns (active: nat)
    requires forall id :: InMonth(activity, id, targetKey) <==> Active(users, orders, id, targetKey)
    ensures active == if offset == 0 then |members| else Count(members, ActiveIn(users, orders, targetKey))
  {
    active := 0;
    for n := 0 to |members|
      invariant active == if offset == 0 then n else Count(members[..n], ActiveIn(users, orders, targetKey))
    {
      assert members[..n + 1] == members[..n] + [members[n]];
      CountAppend(members[..n], [members[n]], ActiveIn(users, orders, targetKey));
      if InMonth(activity, members[n], targetKey) {
        active := active + 1;
      } else if offset == 0 {
        active := active + 1;
      }
    }
    assert members[..|members|] == members;
  }

  method BuildRetention(
    cohortDate: int, members: seq<string>, activity: ActivityMap, currentMonth: int,
    ghost users: seq<User>, ghost orders: seq<Order>)
    returns (retention: seq<Cell>)
    requires forall id, key :: InMonth(activity, id, key) <==> Active(users, orders, id, key)
    ensures |retention|
         == if MonthDiff(cohortDate, currentMonth) < 0 then 0 else MonthDiff(cohortDate, currentMonth) + 1
    ensures forall i :: 0 <= i < |retention| ==> retention[i] == CellOf(members, users, orders, cohortDate, i)
  {
    hide MonthDiff, AddUtcMonths, MonthKeyUtc;
    var maxOffset := MonthDiff(cohortDate, currentMonth);
    retention := [];
    var offset := 0;
    while offset <= maxOffset
      invariant 0 <= offset == |retention|
      invariant offset <= maxOffset + 1 || offset == 0
      invariant forall i :: 0 <= i < offset ==> retention[i] == CellOf(members, users, orders, cohortDate, i)
    {
      var targetKey := MonthKeyUtc(AddUtcMonths(cohortDate, offset));
      var active := CountActive(members, activity, targetKey, offset, users, orders);
      var rate := if |members| == 0 then 0 else Round(1000 * active, |members|);
      retention := retention + [Cell(offset, targetKey, rate)];
      offset := offset + 1;
    }
  }

  /** The month a key names. */
  function CohortDate(key: string): int {
    var parsed := ParseMonthKey(key);
    if parsed.Some? then parsed.value else 0
  }

  /** Keys sort by the month they name, which for keys of four-digit years is their order as strings. */
  function KeyRank(key: string): int {
    MonthIndex(CohortDate(key))
  }

  /** The cohorts in the result, each with the months from its own to the current one. */
  ghost predicate IsRetentionOf(
    result: seq<CohortData>, orgs: seq<Organization>, users: seq<User>, orders: seq<Order>, currentMonth: int)
  {
    && (forall i, j :: 0 <= i < j < |result| ==> Less(result[i].cohortMonth, result[j].cohortMonth))
    && (forall key :: Members(orgs, key) != [] <==> exists i :: 0 <= i < |result| && result[i].cohortMonth == key)
    && (forall i :: 0 <= i < |result| ==> IsCohortOf(result[i], orgs, users, orders, currentMonth))
  }

  ghost predicate IsCohortOf(
    cohort: CohortData, orgs: seq<Organization>, users: seq<User>, orders: seq<Order>, currentMonth: int)
  {
    var members, date := Members(orgs, cohort.cohortMonth), CohortDate(cohort.cohortMonth);
    && cohort.cohortSize == |members| > 0
    && |cohort.retention| == MonthDiff(date, currentMonth) + 1 > 0
    && forall k :: 0 <= k < |cohort.retention| ==> cohort.retention[k] == CellOf(members, users, orders, date, k)
  }

  /** The organisations of the last twelve months, the current one included. */
  function CohortOrganizations(organizations: seq<Organization>, now: int): seq<Organization> {
    Filter(organizations, CreatedBetween(AddUtcMonths(StartOfUtcMonth(now), -11), EndOfUtcMonth(now)))
  }

  /** The clock reads a year in which the last twelve months all have four-digit years. */
  predicate IsUsualTime(now: int) {
    1001 <= GetUTCFullYear(now) <= 9999
  }

  lemma {:induction false} WindowTimes(now: int)
    requires IsUsualTime(now)
    ensures StartOfUtcMonth(now) == MonthStart(MonthIndex(now))
    ensures AddUtcMonths(StartOfUtcMonth(now), -11) == MonthStart(MonthIndex(now) - 11)
    ensures EndOfUtcMonth(now) == MonthStart(MonthIndex(now) + 1) - 1
    ensures MonthIndex(StartOfUtcMonth(now)) == MonthIndex(now)
  {
    hide MonthStart, GetUTCFullYear, GetUTCMonth, MonthIndex, StartOfUtcMonth, AddUtcMonths, EndOfUtcMonth;
    var start := StartOfUtcMonth(now);
    HelpersAreMonthStarts(now, 0);
    HelperIndexIsMonthIndex(now);
    MonthIndexOfStart(MonthIndex(now));
    FieldsOfIndex(now);
    FieldsOfIndex(start);
    HelpersAreMonthStarts(start, -11);
    HelperIndexIsMonthIndex(start);
  }

  lemma {:induction false} InWindow(now: int, t: int)
    requires IsUsualTime(now) && AddUtcMonths(StartOfUtcMonth(now), -11) <= t <= EndOfUtcMonth(now)
    ensures MonthIndex(now) - 11 <= MonthIndex(t) <= MonthIndex(now)
    ensures FourDigitYear(t)
  {
    hide MonthStart, GetUTCFullYear, GetUTCMonth, MonthIndex, StartOfUtcMonth, AddUtcMonths, EndOfUtcMonth;
    WindowTimes(now);
    InsideItsMonth(t);
    MonthStartsAscend(MonthIndex(now) - 11, MonthIndex(t) + 1);
    MonthStartsAscend(MonthIndex(t), MonthIndex(now) + 1);
    FieldsOfIndex(now);
    FieldsOfIndex(t);
  }

  lemma {:induction false} KeyNamesMonth(t: int)
    requires FourDigitYear(t)
    ensures MonthIndex(CohortDate(MonthKeyUtc(t))) == MonthIndex(t) == KeyRank(MonthKeyUtc(t))
    ensures FourDigitYear(CohortDate(MonthKeyUtc(t)))
  {
    hide MonthStart, GetUTCFullYear, GetUTCMonth, MonthIndex, StartOfUtcMonth, MonthKeyUtc, ParseMonthKey;
    ParseMonthKeyInverts(t);
    HelpersAreMonthStarts(t, 0);
    HelperIndexIsMonthIndex(t);
    MonthIndexOfStart(MonthIndex(t));
    FieldsOfIndex(t);
    FieldsOfIndex(CohortDate(MonthKeyUtc(t)));
  }

  /** A month with members is the month of some organisation in the window. */
  lemma {:induction false} SomeMember(organizations: seq<Organization>, now: int, key: string) returns (t: int)
    requires IsUsualTime(now) && Members(CohortOrganizations(organizations, now), key) != []
    ensures key == MonthKeyUtc(t) && MonthIndex(now) - 11 <= MonthIndex(t) <= MonthIndex(now) && FourDigitYear(t)
  {
    hide GetUTCFullYear, MonthIndex, StartOfUtcMonth, AddUtcMonths, EndOfUtcMonth, MonthKeyUtc;
    var orgs := CohortOrganizations(organizations, now);
    var found := Filter(orgs, CreatedIn(key));
    FilterMembers(organizations, CreatedBetween(AddUtcMonths(StartOfUtcMonth(now), -11), EndOfUtcMonth(now)));
    FilterMembers(orgs, CreatedIn(key));
    assert found != [] && found[0] in found;
    t := found[0].createdAt;
    InWindow(now, t);
  }

  /** Rows older than the window cannot fall into a month the table shows. */
  lemma {:induction false} RecentEnough(now: int, at: int, date: int, offset: nat)
    requires IsUsualTime(now) && MonthIndex(now) - 11 <= MonthIndex(date) && FourDigitYear(date)
    requires MonthKeyUtc(at) == MonthKeyUtc(AddUtcMonths(date, offset))
    ensures at >= AddUtcMonths(StartOfUtcMonth(now), -11)
  {
    hide MonthStart, GetUTCFullYear, GetUTCMonth, MonthIndex, StartOfUtcMonth, AddUtcMonths, MonthKeyUtc;
    WindowTimes(now);
    HelpersAreMonthStarts(date, offset);
    HelperIndexIsMonthIndex(date);
    MonthIndexOfStart(MonthIndex(date) + offset);
    SameKeyIsSameMonth(at, AddUtcMonths(date, offset));
    InsideItsMonth(at);
    MonthStartsAscend(MonthIndex(now) - 11, MonthIndex(at));
  }

  /** The rows the queries return decide every member's activity as the whole tables do. */
  lemma {:induction false} RowsDecideActivity(
    users: seq<User>, orders: seq<Order>, ids: seq<string>, id: string, now: int, date: int, offset: nat)
    requires IsUsualTime(now) && MonthIndex(now) - 11 <= MonthIndex(date) && FourDigitYear(date) && id in ids
    ensures var from, key := AddUtcMonths(StartOfUtcMonth(now), -11), MonthKeyUtc(AddUtcMonths(date, offset));
      var logins, orderRows := Filter(users, IsLoginRow(ids, from)), Filter(orders, IsOrderRow(ids, from));
      Active(logins, orderRows, id, key) <==> Active(users, orders, id, key)
  {
    hide GetUTCFullYear, MonthIndex, StartOfUtcMonth, AddUtcMonths, MonthKeyUtc;
    var from, key := AddUtcMonths(StartOfUtcMonth(now), -11), MonthKeyUtc(AddUtcMonths(date, offset));
    FilterMembers(users, IsLoginRow(ids, from));
    FilterMembers(orders, IsOrderRow(ids, from));
    forall u <- users | LoggedIn(u, id, key) ensures IsLoginRow(ids, from)(u) {
      RecentEnough(now, u.lastLoginAt.value, date, offset);
    }
    forall o <- orders | Ordered(o, id, key) ensures IsOrderRow(ids, from)(o) {
      RecentEnough(now, o.createdAt, date, offset);
    }
  }

  lemma {:induction false} MembersAreKnown(orgs: seq<Organization>, key: string)
    ensures forall id <- Members(orgs, key) :: id in Map(orgs, OrganizationId)
  {
    hide MonthKeyUtc;
    FilterMembers(orgs, CreatedIn(key));
    forall id <- Members(orgs, key) ensures id in Map(orgs, OrganizationId) {
      var i :| 0 <= i < |Members(orgs, key)| && Members(orgs, key)[i] == id;
      var org := Filter(orgs, CreatedIn(key))[i];
      assert org in orgs;
      var j :| 0 <= j < |orgs| && orgs[j] == org;
      assert Map(orgs, OrganizationId)[j] == id;
    }
  }

  lemma {:induction false} SameCell(
    orgs: seq<Organization>, users: seq<User>, orders: seq<Order>, key: string, now: int, date: int, offset: nat)
    requires IsUsualTime(now) && MonthIndex(now) - 11 <= MonthIndex(date) && FourDigitYear(date)
    ensures var from := AddUtcMonths(StartOfUtcMonth(now), -11);
      var ids, members := Map(orgs, OrganizationId), Members(orgs, key);
      CellOf(members, Filter(users, IsLoginRow(ids, from)), Filter(orders, IsOrderRow(ids, from)), date, offset)
        == CellOf(members, users, orders, date, offset)
  {
    hide GetUTCFullYear, MonthIndex, StartOfUtcMonth, AddUtcMonths, MonthKeyUtc, Active, Members;
    var from, ids, members := AddUtcMonths(StartOfUtcMonth(now), -11), Map(orgs, OrganizationId), Members(orgs, key);
    var logins, orderRows := Filter(users, IsLoginRow(ids, from)), Filter(orders, IsOrderRow(ids, from));
    var target := MonthKeyUtc(AddUtcMonths(date, offset));
    MembersAreKnown(orgs, key);
    forall i | 0 <= i < |members|
      ensures ActiveIn(logins, orderRows, target)(members[i]) == ActiveIn(users, orders, target)(members[i])
    {
      assert members[i] in members;
      RowsDecideActivity(users, orders, ids, members[i], now, date, offset);
    }
    CountCongruent(members, ActiveIn(logins, orderRows, target), ActiveIn(users, orders, target));
  }

  lemma {:induction false} RowsSuffice(
    organizations: seq<Organization>, users: seq<User>, orders: seq<Order>, now: int, key: string, retention: seq<Cell>)
    requires IsUsualTime(now)
    requires var orgs, date := CohortOrganizations(organizations, now), CohortDate(key);
      var from, ids, members := AddUtcMonths(StartOfUtcMonth(now), -11), Map(orgs, OrganizationId), Members(orgs, key);
      members != [] &&
      var diff := MonthDiff(date, StartOfUtcMonth(now));
      |retention| == (if diff < 0 then 0 else diff + 1) &&
      var logins, orderRows := Filter(users, IsLoginRow(ids, from)), Filter(orders, IsOrderRow(ids, from));
      forall i :: 0 <= i < |retention| ==> retention[i] == CellOf(members, logins, orderRows, date, i)
    ensures var orgs := CohortOrganizations(organizations, now);
      IsCohortOf(CohortData(key, |Members(orgs, key)|, retention), orgs, users, orders, StartOfUtcMonth(now))
  {
    hide GetUTCFullYear, MonthIndex, StartOfUtcMonth, AddUtcMonths, MonthKeyUtc, Members, MonthDiff, CohortDate, CellOf;
    var orgs := CohortOrganizations(organizations, now);
    var date := CohortDate(key);
    var t := SomeMember(organizations, now, key);
    KeyNamesMonth(t);
    WindowTimes(now);
    MonthDiffOfIndex(date, StartOfUtcMonth(now));
    forall i | 0 <= i < |retention|
      ensures retention[i] == CellOf(Members(orgs, key), users, orders, date, i)
    {
      SameCell(orgs, users, orders, key, now, date, i);
    }
  }

  lemma {:induction false} KeysAscend(organizations: seq<Organization>, now: int, cohorts: CohortMap)
    requires IsUsualTime(now) && Groups(cohorts, CohortOrganizations(organizations, now))
    ensures var keys := Sort(cohorts.keys, KeyRank);
      && (forall i, j :: 0 <= i < j < |keys| ==> Less(keys[i], keys[j]))
      && (forall key :: key in keys <==> Members(CohortOrganizations(organizations, now), key) != [])
  {
    hide GetUTCFullYear, MonthIndex, MonthKeyUtc, KeyRank, Less, Members, CohortOrganizations;
    var keys := Sort(cohorts.keys, KeyRank);
    SortSorts(cohorts.keys, KeyRank);
    SortKeepsDistinct(cohorts.keys, KeyRank);
    forall i, j | 0 <= i < j < |keys| ensures Less(keys[i], keys[j]) {
      assert keys[i] in keys && keys[j] in keys;
      var a := SomeMember(organizations, now, keys[i]);
      var b := SomeMember(organizations, now, keys[j]);
      KeyNamesMonth(a);
      KeyNamesMonth(b);
      KeysOfFourDigitYears(a, b);
      assert KeyRank(keys[i]) <= KeyRank(keys[j]);
    }
  }

  lemma {:induction false} NoMembers(users: seq<User>, orders: seq<Order>, currentMonth: int)
    ensures IsRetentionOf([], [], users, orders, currentMonth)
  {
  }

  method LoadCohortRetention(now: int, organizations: seq<Organization>, users: seq<User>, orders: seq<Order>)
    returns (result: seq<CohortData>)
    requires IsUsualTime(now)
    ensures IsRetentionOf(result, CohortOrganizations(organizations, now), users, orders, StartOfUtcMonth(now))
  {
    hide AddUtcMonths, StartOfUtcMonth, EndOfUtcMonth, MonthDiff, MonthKeyUtc, CohortDate, KeyRank, GetUTCFullYear;
    hide Members, CellOf, Filter, Sort, Active, InMonth, Less, IsCohortOf;
    var cohortStart := AddUtcMonths(StartOfUtcMonth(now), -11);
    var cohortEnd := EndOfUtcMonth(now);
    var cohortOrgs := Filter(organizations, CreatedBetween(cohortStart, cohortEnd));
    var orgIds := Map(cohortOrgs, OrganizationId);
    if |orgIds| == 0 {
      NoMembers(users, orders, StartOfUtcMonth(now));
      return [];
    }
    var logins := Filter(users, IsLoginRow(orgIds, cohortStart));
    var orderRows := Filter(orders, IsOrderRow(orgIds, cohortStart));
    FilterMembers(users, IsLoginRow(orgIds, cohortStart));
    FilterMembers(orders, IsOrderRow(orgIds, cohortStart));
    var activity := CollectActivity(logins, orderRows);
    var cohortMap := GroupByMonth(cohortOrgs);
    var currentMonth := StartOfUtcMonth(now);
    var keys := Sort(cohortMap.keys, KeyRank);
    SortSorts(cohortMap.keys, KeyRank);
    result := [];
    for n := 0 to |keys|
      invariant |result| == n
      invariant forall i :: 0 <= i < n ==> result[i].cohortMonth == keys[i]
      invariant forall i :: 0 <= i < n ==> IsCohortOf(result[i], cohortOrgs, users, orders, currentMonth)
    {
      var cohortMonth := keys[n];
      assert cohortMonth in keys;
      var members := cohortMap.at[cohortMonth];
      var cohortDate := CohortDate(cohortMonth);
      var retention := BuildRetention(cohortDate, members, activity, currentMonth, logins, orderRows);
      RowsSuffice(organizations, users, orders, now, cohortMonth, retention);
      result := result + [CohortData(cohortMonth, |members|, retention)];
    }
    KeysAscend(organizations, now, cohortMap);
  }

  // ----- What the table says -----

  lemma {:induction false} ShareBounds(active: int, size: int)
    requires 0 <= active <= size && size > 0
    ensures 0 <= Round(1000 * active, size) <= 1000
    ensures Round(1000 * size, size) == 1000
  {
    OnlyRound(1000 * size, size, 1000);
    QuotientBetween(2 * (1000 * active) + size, 2 * size, 0, 1000);
  }

  /** Every rate lies between 0 and 100 percent, the joining month is always 100, and no month is skipped. */
  lemma {:induction false} RatesAreShares(
    result: seq<CohortData>, orgs: seq<Organization>, users: seq<User>, orders: seq<Order>, currentMonth: int,
    i: nat, k: nat)
    requires IsRetentionOf(result, orgs, users, orders, currentMonth)
    requires i < |result| && k < |result[i].retention|
    ensures result[i].retention[k].monthOffset == k
    ensures 0 <= result[i].retention[k].rate <= 1000
    ensures result[i].retention[0].rate == 1000
  {
    hide MonthDiff, MonthKeyUtc, Members, AddUtcMonths, Less, CohortDate, Round;
    var cohort := result[i];
    assert IsCohortOf(cohort, orgs, users, orders, currentMonth);
    var members := Members(orgs, cohort.cohortMonth);
    var key := MonthKeyUtc(AddUtcMonths(CohortDate(cohort.cohortMonth), k));
    CountIsAtMostLength(members, ActiveIn(users, orders, key));
    ShareBounds(Count(members, ActiveIn(users, orders, key)), |members|);
  }

  function SizeOf(cohort: CohortData): int {
    cohort.cohortSize
  }

  function InSome(cohorts: seq<CohortData>): Organization -> bool {
    (org: Organization) => exists c <- cohorts :: c.cohortMonth == MonthKeyUtc(org.createdAt)
  }

  lemma {:induction false} LessMeansDifferent(a: string, b: string)
    ensures Less(a, b) ==> a != b
  {
    LessIsIrreflexive(a);
  }

  lemma {:induction false} SizesCountOrganizations(
    result: seq<CohortData>, orgs: seq<Organization>, users: seq<User>, orders: seq<Order>, currentMonth: int, n: nat)
    requires IsRetentionOf(result, orgs, users, orders, currentMonth) && n <= |result|
    ensures Sum(result[..n], SizeOf) == Count(orgs, InSome(result[..n]))
  {
    hide MonthKeyUtc, Less, CohortDate, MonthDiff, CellOf, InSome, IsCohortOf, IsRetentionOf;
    if n == 0 {
      NobodyInNone(orgs, result[..0]);
    } else {
      var before, cohort := result[..n - 1], result[n - 1];
      SizesCountOrganizations(result, orgs, users, orders, currentMonth, n - 1);
      PrefixSnoc(result, n - 1);
      SumPrefix(result, n - 1, SizeOf);
      CohortCounts(result, orgs, users, orders, currentMonth, n - 1);
      OneMoreCohort(orgs, before, cohort);
    }
  }

  lemma {:induction false} NobodyInNone(orgs: seq<Organization>, cohorts: seq<CohortData>)
    requires cohorts == []
    ensures Sum(cohorts, SizeOf) == Count(orgs, InSome(cohorts)) == 0
  {
    NoneCounted(orgs, InSome(cohorts));
  }

  lemma {:induction false} CohortCounts(
    result: seq<CohortData>, orgs: seq<Organization>, users: seq<User>, orders: seq<Order>, currentMonth: int, i: nat)
    requires IsRetentionOf(result, orgs, users, orders, currentMonth) && i < |result|
    ensures SizeOf(result[i]) == Count(orgs, CreatedIn(result[i].cohortMonth))
    ensures forall c <- result[..i] :: c.cohortMonth != result[i].cohortMonth
  {
    hide MonthKeyUtc, Less, CohortDate, MonthDiff, CellOf;
    assert IsCohortOf(result[i], orgs, users, orders, currentMonth);
    CountIsFilterLength(orgs, CreatedIn(result[i].cohortMonth));
    forall c <- result[..i] ensures c.cohortMonth != result[i].cohortMonth {
      LessMeansDifferent(c.cohortMonth, result[i].cohortMonth);
    }
  }

  lemma {:induction false} OneMoreCohort(orgs: seq<Organization>, before: seq<CohortData>, cohort: CohortData)
    requires forall c <- before :: c.cohortMonth != cohort.cohortMonth
    ensures Count(orgs, InSome(before + [cohort]))
         == Count(orgs, InSome(before)) + Count(orgs, CreatedIn(cohort.cohortMonth))
  {
    hide MonthKeyUtc, Count;
    var both := InSome(before + [cohort]);
    forall i | 0 <= i < |orgs|
      ensures both(orgs[i]) == (InSome(before)(orgs[i]) || CreatedIn(cohort.cohortMonth)(orgs[i]))
      ensures !(InSome(before)(orgs[i]) && CreatedIn(cohort.cohortMonth)(orgs[i]))
    {
      var all := before + [cohort];
      assert forall c :: c in all <==> c in before || c == cohort;
    }
    CountSplit(orgs, both, InSome(before), CreatedIn(cohort.cohortMonth));
  }

  /** Every organisation lands in exactly one cohort, and the cohort sizes add up to the organisations. */
  lemma {:induction false} CohortsPartition(
    result: seq<CohortData>, orgs: seq<Organization>, users: seq<User>, orders: seq<Order>, currentMonth: int)
    requires IsRetentionOf(result, orgs, users, orders, currentMonth)
    ensures Sum(result, SizeOf) == |orgs|
    ensures forall org <- orgs :: exists i :: 0 <= i < |result| && result[i].cohortMonth == MonthKeyUtc(org.createdAt)
    ensures forall i, j :: 0 <= i < j < |result| ==> result[i].cohortMonth != result[j].cohortMonth
  {
    hide MonthKeyUtc, Less, CohortDate, MonthDiff, CellOf;
    assert result[..|result|] == result;
    SizesCountOrganizations(result, orgs, users, orders, currentMonth, |result|);
    forall org <- orgs
      ensures exists i :: 0 <= i < |result| && result[i].cohortMonth == MonthKeyUtc(org.createdAt)
    {
      var key := MonthKeyUtc(org.createdAt);
      FilterMembers(orgs, CreatedIn(key));
      assert org in Filter(orgs, CreatedIn(key));
      assert Members(orgs, key) != [];
    }
    forall k | 0 <= k < |orgs| ensures InSome(result)(orgs[k]) {
      assert orgs[k] in orgs;
      var i :| 0 <= i < |result| && result[i].cohortMonth == MonthKeyUtc(orgs[k].createdAt);
      assert result[i] in result;
    }
    AllCounted(orgs, InSome(result));
    forall i, j | 0 <= i < j < |result| ensures result[i].cohortMonth != result[j].cohortMonth {
      LessMeansDifferent(result[i].cohortMonth, result[j].cohortMonth);
    }
  }

  // ----- The table, field by field -----

  /** The organisations of the table are those created in the current month or the eleven before it. */
  lemma {:induction false} WindowOnFields(organizations: seq<Organization>, now: int, org: Organization)
    requires IsUsualTime(now)
    ensures org in CohortOrganizations(organizations, now)
       <==> org in organizations && 0 <= MonthDiff(org.createdAt, now) <= 11
  {
    hide MonthStart, GetUTCFullYear, GetUTCMonth, MonthIndex, StartOfUtcMonth, AddUtcMonths, EndOfUtcMonth, MonthDiff;
    var t, from, until := org.createdAt, AddUtcMonths(StartOfUtcMonth(now), -11), EndOfUtcMonth(now);
    FilterMembers(organizations, CreatedBetween(from, until));
    MonthDiffOfIndex(t, now);
    WindowTimes(now);
    InsideItsMonth(t);
    if from <= t <= until {
      InWindow(now, t);
    } else if 0 <= MonthDiff(t, now) <= 11 {
      MonthStartsAscend(MonthIndex(now) - 11, MonthIndex(t));
      MonthStartsAscend(MonthIndex(t) + 1, MonthIndex(now) + 1);
    }
  }

  /** The organisation was created in the same month as `t`. */
  function SameMonth(t: int): Organization -> bool {
    (o: Organization) => MonthDiff(t, o.createdAt) == 0
  }

  /** A user of the organisation last logged in, or an order of it came in, `k` months after the month of `t`. */
  predicate IsActiveAfter(users: seq<User>, orders: seq<Order>, id: string, t: int, k: int) {
    || (exists u <- users :: u.organizationId == Some(id) && !u.deleted
          && u.lastLoginAt.Some? && MonthDiff(t, u.lastLoginAt.value) == k)
    || (exists o <- orders :: o.organizationId == id && !o.deleted && MonthDiff(t, o.createdAt) == k)
  }

  function ActiveAfter(users: seq<User>, orders: seq<Order>, t: int, k: int): Organization -> bool {
    (o: Organization) => MonthDiff(t, o.createdAt) == 0 && IsActiveAfter(users, orders, o.id, t, k)
  }

  lemma {:induction false} SameKeyIsNoDistance(a: int, b: int)
    ensures MonthKeyUtc(a) == MonthKeyUtc(b) <==> MonthDiff(a, b) == 0
  {
    hide MonthKeyUtc, MonthIndex, MonthDiff;
    SameKeyIsSameMonth(a, b);
    MonthDiffOfIndex(a, b);
  }

  lemma {:induction false} LaterKeyIsDistance(t: int, k: int, at: int)
    requires FourDigitYear(t)
    ensures MonthKeyUtc(at) == MonthKeyUtc(AddUtcMonths(CohortDate(MonthKeyUtc(t)), k)) <==> MonthDiff(t, at) == k
  {
    hide MonthKeyUtc, MonthIndex, MonthDiff, CohortDate, AddUtcMonths, GetUTCFullYear, MonthStart;
    var date := CohortDate(MonthKeyUtc(t));
    KeyNamesMonth(t);
    HelpersAreMonthStarts(date, k);
    HelperIndexIsMonthIndex(date);
    MonthIndexOfStart(MonthIndex(date) + k);
    SameKeyIsSameMonth(at, AddUtcMonths(date, k));
    MonthDiffOfIndex(t, at);
  }

  lemma {:induction false} ActiveIsActiveAfter(users: seq<User>, orders: seq<Order>, id: string, t: int, k: int)
    requires FourDigitYear(t)
    ensures Active(users, orders, id, MonthKeyUtc(AddUtcMonths(CohortDate(MonthKeyUtc(t)), k)))
       <==> IsActiveAfter(users, orders, id, t, k)
  {
    hide MonthKeyUtc, MonthDiff, CohortDate, AddUtcMonths, GetUTCFullYear;
    forall at: int {
      LaterKeyIsDistance(t, k, at);
    }
  }

  /** Size of a cohort and number of its active members, counted over the organisations. */
  lemma {:induction false} MembersOnFields(
    orgs: seq<Organization>, users: seq<User>, orders: seq<Order>, t: int, k: int)
    requires FourDigitYear(t)
    ensures var members := Members(orgs, MonthKeyUtc(t));
      && |members| == Count(orgs, SameMonth(t))
      && Count(members, ActiveIn(users, orders, MonthKeyUtc(AddUtcMonths(CohortDate(MonthKeyUtc(t)), k))))
           == Count(orgs, ActiveAfter(users, orders, t, k))
  {
    hide MonthKeyUtc, MonthDiff, CohortDate, AddUtcMonths, GetUTCFullYear, Active, IsActiveAfter, Count, Filter;
    var key := MonthKeyUtc(t);
    var target := MonthKeyUtc(AddUtcMonths(CohortDate(key), k));
    var found := Filter(orgs, CreatedIn(key));
    var active := (o: Organization) => Active(users, orders, o.id, target);
    forall o: Organization ensures CreatedIn(key)(o) == SameMonth(t)(o) {
      SameKeyIsNoDistance(t, o.createdAt);
    }
    forall o: Organization
      ensures ActiveAfter(users, orders, t, k)(o) == (CreatedIn(key)(o) && active(o))
    {
      assert CreatedIn(key)(o) == SameMonth(t)(o);
      ActiveIsActiveAfter(users, orders, o.id, t, k);
    }
    CountIsFilterLength(orgs, CreatedIn(key));
    CountCongruent(orgs, CreatedIn(key), SameMonth(t));
    CountOfMap(found, OrganizationId, ActiveIn(users, orders, target), active);
    CountOfFilter(orgs, CreatedIn(key), active, ActiveAfter(users, orders, t, k));
  }

  /** Cell `k` is named after the month `k` months on, and its rate is the nearest to the share of active members. */
  ghost predicate IsShare(cell: Cell, k: nat, size: int, active: int, t: int) {
    && cell.monthOffset == k
    && (forall at :: MonthKeyUtc(at) == cell.monthKey <==> MonthDiff(t, at) == k)
    && -size < 2 * (cell.rate * size - 1000 * active) <= size
  }

  /**
   What the table says of the cohort of an organisation created at `t`: it counts the organisations created in that
   month and has one cell for each month up to now, the share (in tenths of a percent) of the members active in it;
   in the first month all of them count.
   */
  ghost predicate IsDescribed(
    cohort: CohortData, orgs: seq<Organization>, users: seq<User>, orders: seq<Order>, now: int, t: int)
  {
    && |cohort.retention| == MonthDiff(t, now) + 1
    && cohort.cohortSize == Count(orgs, SameMonth(t)) > 0
    && forall k :: 0 <= k < |cohort.retention| ==>
         IsShare(cohort.retention[k], k, cohort.cohortSize,
                 if k == 0 then cohort.cohortSize else Count(orgs, ActiveAfter(users, orders, t, k)), t)
  }

  lemma {:induction false} CellIsShare(
    orgs: seq<Organization>, users: seq<User>, orders: seq<Order>, t: int, k: nat)
    requires FourDigitYear(t) && Members(orgs, MonthKeyUtc(t)) != []
    ensures var members := Members(orgs, MonthKeyUtc(t));
      IsShare(CellOf(members, users, orders, CohortDate(MonthKeyUtc(t)), k), k, |members|,
              if k == 0 then |members| else Count(orgs, ActiveAfter(users, orders, t, k)), t)
  {
    hide MonthKeyUtc, MonthDiff, CohortDate, AddUtcMonths, GetUTCFullYear, Count, Members, Round;
    MembersOnFields(orgs, users, orders, t, k);
    forall at: int ensures
      MonthKeyUtc(at) == MonthKeyUtc(AddUtcMonths(CohortDate(MonthKeyUtc(t)), k)) <==> MonthDiff(t, at) == k
    {
      LaterKeyIsDistance(t, k, at);
    }
    var members := Members(orgs, MonthKeyUtc(t));
    var target := MonthKeyUtc(AddUtcMonths(CohortDate(MonthKeyUtc(t)), k));
    RoundIsNearest(1000 * if k == 0 then |members| else Count(members, ActiveIn(users, orders, target)), |members|);
  }

  /** Every cohort of the result is described so. */
  lemma {:induction false} CohortsOnFields(
    result: seq<CohortData>, organizations: seq<Organization>, users: seq<User>, orders: seq<Order>, now: int,
    i: nat, t: int)
    requires IsUsualTime(now)
    requires IsRetentionOf(result, CohortOrganizations(organizations, now), users, orders, StartOfUtcMonth(now))
    requires i < |result| && FourDigitYear(t) && result[i].cohortMonth == MonthKeyUtc(t)
    ensures IsDescribed(result[i], CohortOrganizations(organizations, now), users, orders, now, t)
  {
    hide MonthKeyUtc, MonthDiff, CohortDate, AddUtcMonths, GetUTCFullYear, Count, Members, Less, MonthIndex, CellOf;
    hide CohortOrganizations, StartOfUtcMonth, IsShare;
    var orgs, cohort := CohortOrganizations(organizations, now), result[i];
    assert IsCohortOf(cohort, orgs, users, orders, StartOfUtcMonth(now));
    MembersOnFields(orgs, users, orders, t, 0);
    KeyNamesMonth(t);
    WindowTimes(now);
    MonthDiffOfIndex(t, now);
    MonthDiffOfIndex(CohortDate(cohort.cohortMonth), StartOfUtcMonth(now));
    forall k | 0 <= k < |cohort.retention|
      ensures IsShare(cohort.retention[k], k, cohort.cohortSize,
                      if k == 0 then cohort.cohortSize else Count(orgs, ActiveAfter(users, orders, t, k)), t)
    {
      CellIsShare(orgs, users, orders, t, k);
    }
  }
}
