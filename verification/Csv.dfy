/**
 The CSV printer shared by the two admin exports, a reader that follows section 2 of RFC 4180, and the
 proof that the reader undoes the printer for arbitrary cell text.
 */
module Csv {
  import opened Text

  // ----- Printer -----

  predicate IsSpecial(c: char) {
    c == '"' || c == ',' || c == '\n' || c == '\r'
  }

  predicate NeedsQuotes(value: string) {
    exists i :: 0 <= i < |value| && IsSpecial(value[i])
  }

  function DoubleQuotes(value: string): string {
    if value == "" then ""
    else (if value[0] == '"' then "\"\"" else [value[0]]) + DoubleQuotes(value[1..])
  }

  function EscapeCsvCell(value: string): string {
    if NeedsQuotes(value) then "\"" + DoubleQuotes(value) + "\"" else value
  }

  function RowLine(cells: seq<string>): string {
    Join(seq(|cells|, i requires 0 <= i < |cells| => EscapeCsvCell(cells[i])), ',')
  }

  function Lines(table: seq<seq<string>>): seq<string> {
    seq(|table|, i requires 0 <= i < |table| => RowLine(table[i]))
  }

  function Print(table: seq<seq<string>>): string {
    Join(Lines(table), '\n')
  }

  // ----- Reader -----

  datatype Mode = FieldStart | Plain | Quoted | QuoteSeen

  /**
   One pass over the text with the field, record and table read so far. Quotes are allowed only around a
   whole field, a doubled quote inside a quoted field stands for one quote, and line breaks, commas and
   quotes outside quotes are structure. A line break is LF or CRLF; the last record may or may not have one.
   */
  function ReadFrom(text: string, mode: Mode, field: string, row: seq<string>, table: seq<seq<string>>)
    : Option<seq<seq<string>>>
    decreases |text|
  {
    if text == "" then
      if mode == Quoted then None
      else if mode == FieldStart && row == [] then Some(table)
      else Some(table + [row + [field]])
    else
      var c, rest := text[0], text[1..];
      if mode == Quoted then
        if c == '"' then ReadFrom(rest, QuoteSeen, field, row, table)
        else ReadFrom(rest, Quoted, field + [c], row, table)
      else if c == ',' then ReadFrom(rest, FieldStart, "", row + [field], table)
      else if c == '\n' then ReadFrom(rest, FieldStart, "", [], table + [row + [field]])
      else if c == '\r' then
        if rest != "" && rest[0] == '\n'
        then ReadFrom(rest[1..], FieldStart, "", [], table + [row + [field]])
        else None
      else if c == '"' then
        if mode == FieldStart then ReadFrom(rest, Quoted, "", row, table)
        else if mode == QuoteSeen then ReadFrom(rest, Quoted, field + ['"'], row, table)
        else None
      else if mode == QuoteSeen then None
      else ReadFrom(rest, Plain, field + [c], row, table)
  }

  function Read(text: string): Option<seq<seq<string>>> {
    ReadFrom(text, FieldStart, "", [], [])
  }

  // ----- The reader undoes the printer -----

  lemma {:induction false} ReadQuotedBody(
    v: string, rest: string, field: string, row: seq<string>, table: seq<seq<string>>)
    ensures ReadFrom(DoubleQuotes(v) + "\"" + rest, Quoted, field, row, table)
         == ReadFrom(rest, QuoteSeen, field + v, row, table)
  {
    var text := DoubleQuotes(v) + "\"" + rest;
    if v == "" {
      assert text[1..] == rest && field + v == field;
    } else {
      var tail := DoubleQuotes(v[1..]) + "\"" + rest;
      ReadQuotedBody(v[1..], rest, field + [v[0]], row, table);
      assert field + [v[0]] + v[1..] == field + v;
      if v[0] == '"' {
        assert text[1..] == "\"" + tail && ("\"" + tail)[1..] == tail;
      } else {
        assert text[1..] == tail;
      }
    }
  }

  lemma {:induction false} ReadPlainBody(
    v: string, rest: string, mode: Mode, field: string, row: seq<string>, table: seq<seq<string>>)
    requires !NeedsQuotes(v) && v != "" && (mode == Plain || (mode == FieldStart && field == ""))
    ensures ReadFrom(v + rest, mode, field, row, table) == ReadFrom(rest, Plain, field + v, row, table)
  {
    assert !IsSpecial(v[0]);
    assert (v + rest)[1..] == v[1..] + rest;
    if |v| == 1 {
      assert v[1..] + rest == rest && [v[0]] == v;
    } else {
      forall i | 0 <= i < |v[1..]| ensures !IsSpecial(v[1..][i]) {
        assert !IsSpecial(v[i + 1]);
      }
      ReadPlainBody(v[1..], rest, Plain, field + [v[0]], row, table);
      assert field + [v[0]] + v[1..] == field + v;
    }
  }

  /** What is left to read after a cell has been read up to its separator. */
  function AfterCell(rest: string, v: string, row: seq<string>, table: seq<seq<string>>): Option<seq<seq<string>>>
    requires rest == "" || rest[0] == ',' || rest[0] == '\n'
  {
    if rest == "" then Some(if v == "" && row == [] then table else table + [row + [v]])
    else if rest[0] == ',' then ReadFrom(rest[1..], FieldStart, "", row + [v], table)
    else ReadFrom(rest[1..], FieldStart, "", [], table + [row + [v]])
  }

  lemma {:induction false} ReadQuotedCell(v: string, rest: string, row: seq<string>, table: seq<seq<string>>)
    requires v != "" && (rest == "" || rest[0] == ',' || rest[0] == '\n')
    ensures ReadFrom("\"" + DoubleQuotes(v) + "\"" + rest, FieldStart, "", row, table) == AfterCell(rest, v, row, table)
  {
    var body := DoubleQuotes(v) + "\"" + rest;
    hide ReadFrom, DoubleQuotes;
    Regroup("\"", DoubleQuotes(v), "\"", rest);
    OpeningQuote(body, row, table);
    ReadQuotedBody(v, rest, "", row, table);
    assert "" + v == v;
    ClosingQuote(v, rest, row, table);
  }

  lemma Regroup(a: string, b: string, c: string, d: string)
    ensures a + b + c + d == a + (b + c + d)
  {
  }

  lemma {:induction false} OpeningQuote(body: string, row: seq<string>, table: seq<seq<string>>)
    ensures ReadFrom("\"" + body, FieldStart, "", row, table) == ReadFrom(body, Quoted, "", row, table)
  {
    assert ("\"" + body)[1..] == body;
  }

  lemma {:induction false} ClosingQuote(v: string, rest: string, row: seq<string>, table: seq<seq<string>>)
    requires v != "" && (rest == "" || rest[0] == ',' || rest[0] == '\n')
    ensures ReadFrom(rest, QuoteSeen, v, row, table) == AfterCell(rest, v, row, table)
  {
  }

  lemma {:induction false} ReadCell(v: string, rest: string, row: seq<string>, table: seq<seq<string>>)
    requires rest == "" || rest[0] == ',' || rest[0] == '\n'
    ensures ReadFrom(EscapeCsvCell(v) + rest, FieldStart, "", row, table) == AfterCell(rest, v, row, table)
  {
    if NeedsQuotes(v) {
      ReadQuotedCell(v, rest, row, table);
    } else if v == "" {
      assert EscapeCsvCell(v) + rest == rest;
    } else {
      ReadPlainBody(v, rest, FieldStart, "", row, table);
      assert "" + v == v;
    }
  }

  /** A row line with what follows it starts with the first cell, then a comma and the other cells. */
  lemma {:induction false} RowLineParts(cells: seq<string>, rest: string)
    requires cells != []
    ensures |cells| == 1 ==> RowLine(cells) + rest == EscapeCsvCell(cells[0]) + rest
    ensures |cells| > 1 ==> RowLine(cells) + rest == EscapeCsvCell(cells[0]) + ([','] + (RowLine(cells[1..]) + rest))
  {
    hide EscapeCsvCell;
    var escaped := seq(|cells|, i requires 0 <= i < |cells| => EscapeCsvCell(cells[i]));
    var tail := cells[1..];
    assert escaped[1..] == seq(|tail|, i requires 0 <= i < |tail| => EscapeCsvCell(tail[i]));
  }

  lemma {:induction false} ReadRow(cells: seq<string>, rest: string, row: seq<string>, table: seq<seq<string>>)
    requires cells != [] && (rest == "" || rest[0] == '\n')
    ensures ReadFrom(RowLine(cells) + rest, FieldStart, "", row, table)
         == AfterCell(rest, cells[|cells| - 1], row + cells[..|cells| - 1], table)
    decreases |cells|
  {
    hide RowLine, EscapeCsvCell, ReadFrom;
    RowLineParts(cells, rest);
    if |cells| == 1 {
      ReadCell(cells[0], rest, row, table);
      assert row + cells[..0] == row;
    } else {
      var tail := cells[1..];
      var others := RowLine(tail) + rest;
      ReadCell(cells[0], [','] + others, row, table);
      assert ([','] + others)[1..] == others;
      ReadRow(tail, rest, row + [cells[0]], table);
      assert row + [cells[0]] + tail[..|tail| - 1] == row + cells[..|cells| - 1];
    }
  }

  /** A record without cells prints like a record with one empty cell. */
  function Shown(row: seq<string>): seq<string> {
    if row == [] then [""] else row
  }

  /** The table a reader gets back: empty records become one empty cell, and a final empty line is no record. */
  function Visible(table: seq<seq<string>>): seq<seq<string>> {
    if table == [] then []
    else if |table| == 1 then (if Shown(table[0]) == [""] then [] else [table[0]])
    else [Shown(table[0])] + Visible(table[1..])
  }

  lemma {:induction false} ReadRecord(head: seq<string>, rest: string, done: seq<seq<string>>)
    requires head != [] && (rest == "" || rest[0] == '\n')
    ensures ReadFrom(RowLine(head) + rest, FieldStart, "", [], done)
         == if rest != "" then ReadFrom(rest[1..], FieldStart, "", [], done + [head])
            else Some(if head == [""] then done else done + [head])
  {
    var most, last := head[..|head| - 1], head[|head| - 1];
    ReadRow(head, rest, [], done);
    assert [] + most == most && most + [last] == head;
    assert (last == "" && most == []) <==> head == [""];
  }

  lemma {:induction false} ShownPrintsAlike(row: seq<string>)
    ensures RowLine(Shown(row)) == RowLine(row)
  {
    assert EscapeCsvCell("") == "";
  }

  lemma {:induction false} ReadTable(table: seq<seq<string>>, done: seq<seq<string>>)
    requires table != []
    ensures ReadFrom(Print(table), FieldStart, "", [], done) == Some(done + Visible(table))
    decreases |table|
  {
    var head := Shown(table[0]);
    ShownPrintsAlike(table[0]);
    if |table| == 1 {
      ReadRecord(head, "", done);
      assert RowLine(head) + "" == RowLine(head);
      assert done + [] == done;
    } else {
      var tail := table[1..];
      var rest := ['\n'] + Print(tail);
      assert Lines(table)[1..] == Lines(tail);
      assert Print(table) == RowLine(head) + rest;
      ReadRecord(head, rest, done);
      assert rest[1..] == Print(tail);
      ReadTable(tail, done + [head]);
      assert done + [head] + Visible(tail) == done + Visible(table);
    }
  }

  /** Reading a printed table never fails and gives its visible records, whatever text the cells hold. */
  lemma {:induction false} ReadPrint(table: seq<seq<string>>)
    ensures Read(Print(table)) == Some(Visible(table))
  {
    if table != [] {
      ReadTable(table, []);
      assert [] + Visible(table) == Visible(table);
    }
  }

  /** The tables a CSV text can hold: no record without cells, and no lone empty cell at the end. */
  predicate Readable(table: seq<seq<string>>) {
    && (forall i :: 0 <= i < |table| ==> table[i] != [])
    && (table != [] ==> table[|table| - 1] != [""])
  }

  lemma {:induction false} ReadableCons(row: seq<string>, table: seq<seq<string>>)
    requires table != []
    ensures Readable([row] + table) <==> row != [] && Readable(table)
  {
    var all := [row] + table;
    assert all[|all| - 1] == table[|table| - 1];
    if Readable(all) {
      forall i | 0 <= i < |table| ensures table[i] != [] {
        assert all[i + 1] != [];
      }
      assert all[0] != [];
    }
  }

  lemma {:induction false} VisibleIsAll(table: seq<seq<string>>)
    ensures Visible(table) == table <==> Readable(table)
    decreases |table|
  {
    if |table| == 1 {
      assert table == [table[0]];
    } else if |table| > 1 {
      var head, tail := table[0], table[1..];
      assert table == [head] + tail;
      hide Readable;
      VisibleIsAll(tail);
      ReadableCons(head, tail);
      assert Visible(table) == [Shown(head)] + Visible(tail);
      assert ([Shown(head)] + Visible(tail))[1..] == Visible(tail);
      assert ([head] + tail)[1..] == tail;
    }
  }

  /** The round trip holds for exactly the readable tables. */
  lemma {:induction false} ReadBack(table: seq<seq<string>>)
    ensures Read(Print(table)) == Some(table) <==> Readable(table)
  {
    ReadPrint(table);
    VisibleIsAll(table);
  }

  lemma {:induction false} WideTablesAreReadable(table: seq<seq<string>>)
    requires forall i :: 0 <= i < |table| ==> |table[i]| >= 2
    ensures Readable(table)
  {
    assert table != [] ==> |table[|table| - 1]| >= 2;
  }

  // ----- The two exports -----

  const BOM: char := '\U{FEFF}'

  const USER_HEADERS: seq<string> := [
    "Ad", "E-posta", "Rol", "Durum", "Son giriş", "Organizasyon", "Org slug", "Org ID", "Kayıt"
  ]

  const ROLE_LABELS: map<string, string> := map[
    "OWNER" := "Sahip",
    "ADMIN" := "Yönetici",
    "MANAGER" := "Müdür",
    "VIEWER" := "İzleyici",
    "SUPER_ADMIN" := "Sistem yöneticisi"
  ]

  datatype Organization = Organization(id: string, name: string, slug: string)

  /** A user of the export; the two dates arrive already formatted in the host's time zone. */
  datatype UserRow = UserRow(
    name: string, email: string, role: string, suspended: bool,
    lastLogin: string, organization: Option<Organization>, created: string)

  function UserCells(row: UserRow): (cells: seq<string>)
    ensures |cells| == |USER_HEADERS|
  {
    [
      OrElse(Trim(row.name), "—"),
      row.email,
      if row.role in ROLE_LABELS then ROLE_LABELS[row.role] else row.role,
      if row.suspended then "Askıda" else "Aktif",
      row.lastLogin,
      if row.organization.Some? then Trim(row.organization.value.name) else "",
      if row.organization.Some? then Trim(row.organization.value.slug) else "",
      if row.organization.Some? then row.organization.value.id else "",
      row.created
    ]
  }

  function UserTable(rows: seq<UserRow>): seq<seq<string>> {
    seq(|rows|, i requires 0 <= i < |rows| => UserCells(rows[i]))
  }

  /** The header line is joined without escaping, as its cells need none. */
  function BuildAdminUsersCsv(rows: seq<UserRow>): string {
    [BOM] + Join([Join(USER_HEADERS, ',')] + Lines(UserTable(rows)), '\n')
  }

  const ACTIVITY_HEADERS: seq<string> := [
    "Tarih", "Eylem", "Kaynak", "Aktör org", "Aktör org ID", "Impersonation org", "Impersonation org ID"
  ]

  /** An audit row of the export; the date, the action and the resource arrive as their display labels. */
  datatype ActivityRow = ActivityRow(
    created: string, action: string, resource: string, actorOrgId: string, actorOrgName: Option<string>,
    impersonatedOrgId: Option<string>, impersonatedOrgName: Option<string>)

  function NameOrId(name: Option<string>, id: string): string {
    if name.Some? then OrElse(Trim(name.value), id) else id
  }

  function ActivityCells(row: ActivityRow): (cells: seq<string>)
    ensures |cells| == |ACTIVITY_HEADERS|
  {
    var impersonated := if row.impersonatedOrgId.Some? then row.impersonatedOrgId.value else "";
    [
      row.created,
      row.action,
      row.resource,
      NameOrId(row.actorOrgName, row.actorOrgId),
      row.actorOrgId,
      if impersonated != "" then NameOrId(row.impersonatedOrgName, impersonated) else "",
      impersonated
    ]
  }

  function ActivityTable(rows: seq<ActivityRow>): seq<seq<string>> {
    seq(|rows|, i requires 0 <= i < |rows| => ActivityCells(rows[i]))
  }

  function BuildAdminPlatformActivityCsv(rows: seq<ActivityRow>): string {
    [BOM] + Join([Join(ACTIVITY_HEADERS, ',')] + Lines(ActivityTable(rows)), '\n')
  }

  lemma {:induction false} HeaderNeedsNoEscape(header: seq<string>, body: seq<seq<string>>)
    requires forall i :: 0 <= i < |header| ==> !NeedsQuotes(header[i])
    ensures Join([Join(header, ',')] + Lines(body), '\n') == Print([header] + body)
  {
    assert header == seq(|header|, i requires 0 <= i < |header| => EscapeCsvCell(header[i]));
    assert [Join(header, ',')] + Lines(body) == Lines([header] + body);
  }

  lemma {:induction false} ReadExport(header: seq<string>, body: seq<seq<string>>)
    requires |header| >= 2 && forall i :: 0 <= i < |header| ==> !NeedsQuotes(header[i])
    requires forall i :: 0 <= i < |body| ==> |body[i]| == |header|
    ensures Read(Join([Join(header, ',')] + Lines(body), '\n')) == Some([header] + body)
  {
    HeaderNeedsNoEscape(header, body);
    WideTablesAreReadable([header] + body);
    ReadBack([header] + body);
  }

  lemma {:induction false} HeadersAreClean()
    ensures forall i :: 0 <= i < |USER_HEADERS| ==> !NeedsQuotes(USER_HEADERS[i])
    ensures forall i :: 0 <= i < |ACTIVITY_HEADERS| ==> !NeedsQuotes(ACTIVITY_HEADERS[i])
  {
  }

  /** Main result for the user export: after the byte order mark the reader finds the header and every row. */
  lemma {:induction false} UsersCsvReadsBack(rows: seq<UserRow>)
    ensures BuildAdminUsersCsv(rows) != "" && BuildAdminUsersCsv(rows)[0] == '\U{FEFF}'
    ensures Read(BuildAdminUsersCsv(rows)[1..]) == Some([USER_HEADERS] + UserTable(rows))
  {
    HeadersAreClean();
    ReadExport(USER_HEADERS, UserTable(rows));
    var text := Join([Join(USER_HEADERS, ',')] + Lines(UserTable(rows)), '\n');
    assert ([BOM] + text)[1..] == text;
  }

  lemma {:induction false} ActivityCsvReadsBack(rows: seq<ActivityRow>)
    ensures BuildAdminPlatformActivityCsv(rows) != "" && BuildAdminPlatformActivityCsv(rows)[0] == '\U{FEFF}'
    ensures Read(BuildAdminPlatformActivityCsv(rows)[1..]) == Some([ACTIVITY_HEADERS] + ActivityTable(rows))
  {
    HeadersAreClean();
    ReadExport(ACTIVITY_HEADERS, ActivityTable(rows));
    var text := Join([Join(ACTIVITY_HEADERS, ',')] + Lines(ActivityTable(rows)), '\n');
    assert ([BOM] + text)[1..] == text;
  }

  function IndexOf(s: seq<string>, x: string): nat {
    if s == [] || s[0] == x then 0 else 1 + IndexOf(s[1..], x)
  }

  /** What a reader of an exported text finds in a data row under a column heading. */
  function Lookup(text: string, row: nat, heading: string): Option<string> {
    var table := if text == "" then None else Read(text[1..]);
    if table.None? || |table.value| <= row + 1 then None
    else
      var i := IndexOf(table.value[0], heading);
      if i < |table.value[row + 1]| then Some(table.value[row + 1][i]) else None
  }

  /** Every column of the user export shows what its heading says. */
  lemma {:induction false} UsersCsvColumns(rows: seq<UserRow>, i: nat)
    requires i < |rows|
    ensures var text, org := BuildAdminUsersCsv(rows), rows[i].organization;
      && Lookup(text, i, "E-posta") == Some(rows[i].email)
      && Lookup(text, i, "Son giriş") == Some(rows[i].lastLogin)
      && Lookup(text, i, "Kayıt") == Some(rows[i].created)
      && Lookup(text, i, "Durum") == Some(if rows[i].suspended then "Askıda" else "Aktif")
      && Lookup(text, i, "Ad") == Some(if Trim(rows[i].name) == "" then "—" else Trim(rows[i].name))
      && (rows[i].role in ROLE_LABELS ==> Lookup(text, i, "Rol") == Some(ROLE_LABELS[rows[i].role]))
      && (rows[i].role !in ROLE_LABELS ==> Lookup(text, i, "Rol") == Some(rows[i].role))
      && (org.Some? ==>
            && Lookup(text, i, "Organizasyon") == Some(Trim(org.value.name))
            && Lookup(text, i, "Org slug") == Some(Trim(org.value.slug))
            && Lookup(text, i, "Org ID") == Some(org.value.id))
      && (org.None? ==>
            && Lookup(text, i, "Organizasyon") == Lookup(text, i, "Org slug") == Lookup(text, i, "Org ID") == Some(""))
  {
    hide Lookup, BuildAdminUsersCsv, Trim;
    var cells := UserCells(rows[i]);
    forall k | 0 <= k < |USER_HEADERS|
      ensures Lookup(BuildAdminUsersCsv(rows), i, USER_HEADERS[k]) == Some(cells[k])
    {
      UsersCsvColumn(rows, i, k);
    }
    assert USER_HEADERS[0] == "Ad" && USER_HEADERS[1] == "E-posta" && USER_HEADERS[2] == "Rol";
    assert USER_HEADERS[3] == "Durum" && USER_HEADERS[4] == "Son giriş" && USER_HEADERS[5] == "Organizasyon";
    assert USER_HEADERS[6] == "Org slug" && USER_HEADERS[7] == "Org ID" && USER_HEADERS[8] == "Kayıt";
  }

  lemma {:induction false} UsersCsvColumn(rows: seq<UserRow>, i: nat, k: nat)
    requires i < |rows| && k < |USER_HEADERS|
    ensures Lookup(BuildAdminUsersCsv(rows), i, USER_HEADERS[k]) == Some(UserCells(rows[i])[k])
  {
    hide Read, BuildAdminUsersCsv, UserCells, IndexOf;
    UsersCsvReadsBack(rows);
    HeadingsAreFound();
    var table := [USER_HEADERS] + UserTable(rows);
    assert table[0] == USER_HEADERS && table[i + 1] == UserCells(rows[i]);
    assert IndexOf(table[0], USER_HEADERS[k]) == k;
  }

  /** Every column of the activity export shows what its heading says. */
  lemma {:induction false} ActivityCsvColumns(rows: seq<ActivityRow>, i: nat)
    requires i < |rows|
    ensures var text, row := BuildAdminPlatformActivityCsv(rows), rows[i];
      && Lookup(text, i, "Tarih") == Some(row.created)
      && Lookup(text, i, "Eylem") == Some(row.action)
      && Lookup(text, i, "Kaynak") == Some(row.resource)
      && Lookup(text, i, "Aktör org ID") == Some(row.actorOrgId)
      && (row.impersonatedOrgId.Some? ==> Lookup(text, i, "Impersonation org ID") == row.impersonatedOrgId)
      && (row.impersonatedOrgId.None? || row.impersonatedOrgId.value == "" ==>
            Lookup(text, i, "Impersonation org") == Lookup(text, i, "Impersonation org ID") == Some(""))
      && (row.actorOrgName.None? || Trim(row.actorOrgName.value) == "" ==>
            Lookup(text, i, "Aktör org") == Some(row.actorOrgId))
      && (row.impersonatedOrgId.Some?
          && (row.impersonatedOrgName.None? || Trim(row.impersonatedOrgName.value) == "") ==>
            Lookup(text, i, "Impersonation org") == row.impersonatedOrgId)
      && (row.actorOrgName.Some? && Trim(row.actorOrgName.value) != "" ==>
            Lookup(text, i, "Aktör org") == Some(Trim(row.actorOrgName.value)))
      && (row.impersonatedOrgId.Some? && row.impersonatedOrgId.value != ""
          && row.impersonatedOrgName.Some? && Trim(row.impersonatedOrgName.value) != "" ==>
            Lookup(text, i, "Impersonation org") == Some(Trim(row.impersonatedOrgName.value)))
  {
    hide Lookup, BuildAdminPlatformActivityCsv, Trim;
    var cells := ActivityCells(rows[i]);
    forall k | 0 <= k < |ACTIVITY_HEADERS|
      ensures Lookup(BuildAdminPlatformActivityCsv(rows), i, ACTIVITY_HEADERS[k]) == Some(cells[k])
    {
      ActivityCsvColumn(rows, i, k);
    }
    assert ACTIVITY_HEADERS[0] == "Tarih" && ACTIVITY_HEADERS[1] == "Eylem" && ACTIVITY_HEADERS[2] == "Kaynak";
    assert ACTIVITY_HEADERS[3] == "Aktör org" && ACTIVITY_HEADERS[4] == "Aktör org ID";
    assert ACTIVITY_HEADERS[5] == "Impersonation org" && ACTIVITY_HEADERS[6] == "Impersonation org ID";
  }

  lemma {:induction false} ActivityCsvColumn(rows: seq<ActivityRow>, i: nat, k: nat)
    requires i < |rows| && k < |ACTIVITY_HEADERS|
    ensures Lookup(BuildAdminPlatformActivityCsv(rows), i, ACTIVITY_HEADERS[k]) == Some(ActivityCells(rows[i])[k])
  {
    hide Read, BuildAdminPlatformActivityCsv, ActivityCells, IndexOf;
    ActivityCsvReadsBack(rows);
    HeadingsAreFound();
    var table := [ACTIVITY_HEADERS] + ActivityTable(rows);
    assert table[0] == ACTIVITY_HEADERS && table[i + 1] == ActivityCells(rows[i]);
    assert IndexOf(table[0], ACTIVITY_HEADERS[k]) == k;
  }

  lemma RoleLabels(other: string)
    requires other !in {"OWNER", "ADMIN", "MANAGER", "VIEWER", "SUPER_ADMIN"}
    ensures other !in ROLE_LABELS && |ROLE_LABELS| == 5
    ensures ROLE_LABELS["OWNER"] == "Sahip" && ROLE_LABELS["ADMIN"] == "Yönetici"
    ensures ROLE_LABELS["MANAGER"] == "Müdür" && ROLE_LABELS["VIEWER"] == "İzleyici"
    ensures ROLE_LABELS["SUPER_ADMIN"] == "Sistem yöneticisi"
  {
  }

  lemma {:induction false} HeadingsAreFound()
    ensures forall i :: 0 <= i < |USER_HEADERS| ==> IndexOf(USER_HEADERS, USER_HEADERS[i]) == i
    ensures forall i :: 0 <= i < |ACTIVITY_HEADERS| ==> IndexOf(ACTIVITY_HEADERS, ACTIVITY_HEADERS[i]) == i
  {
    DistinctAreFound(USER_HEADERS);
    DistinctAreFound(ACTIVITY_HEADERS);
  }

  lemma {:induction false} DistinctAreFound(s: seq<string>)
    requires forall i, j :: 0 <= i < j < |s| ==> s[i] != s[j]
    ensures forall i :: 0 <= i < |s| ==> IndexOf(s, s[i]) == i
  {
    if s != [] {
      DistinctAreFound(s[1..]);
      assert forall i :: 1 <= i < |s| ==> s[i] == s[1..][i - 1];
    }
  }

  /** Two exports are the same text exactly when they show the same cells. */
  lemma {:induction false} UsersCsvIsInjective(rows: seq<UserRow>, rows': seq<UserRow>)
    ensures BuildAdminUsersCsv(rows) == BuildAdminUsersCsv(rows') <==> UserTable(rows) == UserTable(rows')
  {
    UsersCsvReadsBack(rows);
    UsersCsvReadsBack(rows');
    if BuildAdminUsersCsv(rows) == BuildAdminUsersCsv(rows') {
      assert ([USER_HEADERS] + UserTable(rows))[1..] == UserTable(rows);
      assert ([USER_HEADERS] + UserTable(rows'))[1..] == UserTable(rows');
    }
  }

  lemma {:induction false} ActivityCsvIsInjective(rows: seq<ActivityRow>, rows': seq<ActivityRow>)
    ensures BuildAdminPlatformActivityCsv(rows) == BuildAdminPlatformActivityCsv(rows')
       <==> ActivityTable(rows) == ActivityTable(rows')
  {
    ActivityCsvReadsBack(rows);
    ActivityCsvReadsBack(rows');
    if BuildAdminPlatformActivityCsv(rows) == BuildAdminPlatformActivityCsv(rows') {
      assert ([ACTIVITY_HEADERS] + ActivityTable(rows))[1..] == ActivityTable(rows);
      assert ([ACTIVITY_HEADERS] + ActivityTable(rows'))[1..] == ActivityTable(rows');
    }
  }
}
