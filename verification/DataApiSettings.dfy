/** lab/data_api.py, the values: which settings are admitted, what may be served while schemas are
    missing, and the two written forms (the catalog row and the rows of `settings()`) with their readers. */
module DataApiSettings {
  import opened Prelude

  const MAX_SCHEMAS := 16
  const MAX_ROWS := 1_000_000
  const EMPTY := "sbarbase_empty"
  const GRAPHQL := "graphql_public"
  const PUBLIC := "public"
  const INTERNAL: set<string> := {
    "auth", "storage", "extensions", "realtime", "_realtime", "vault", "pgsodium", "pgsodium_masks", "cron", "net",
    "graphql", "pgbouncer", "_analytics", "_supavisor", "information_schema", "pgtle", "pgmq", "etl",
    "supabase_functions", "supabase_migrations", "pg_catalog", "pg_toast" }
  const SEARCH_PATH_ALLOWED: set<string> := {"extensions", EMPTY}
  const FIELDS: set<string> := {"schemas", "extra_search_path", "max_rows"}

  datatype Settings = Settings(schemas: seq<string>, searchPath: seq<string>, maxRows: Option<int>)

  const DEFAULT := Settings([PUBLIC], [PUBLIC], None)

  predicate NameHead(c: char) { 'a' <= c <= 'z' || c == '_' }

  predicate NameTail(c: char) { NameHead(c) || '0' <= c <= '9' }

  /** An unquoted lowercase PostgreSQL name of at most 63 characters. */
  predicate Identifier(name: string) {
    && 1 <= |name| <= 63
    && NameHead(name[0])
    && forall i :: 0 <= i < |name| ==> NameTail(name[i])
  }

  predicate PlatformName(name: string) {
    name in INTERNAL || "pg_" <= name || "sbarbase" <= name || "supabase" <= name
  }

  predicate NameAdmitted(name: string, allowed: set<string>) {
    Identifier(name) && name != GRAPHQL && (PlatformName(name) ==> name in allowed)
  }

  predicate NamesAdmitted(names: seq<string>, allowed: set<string>) {
    && 1 <= |names| <= MAX_SCHEMAS
    && (forall i :: 0 <= i < |names| ==> NameAdmitted(names[i], allowed))
    && NoDuplicates(names)
  }

  predicate AllText(items: seq<Json>) {
    forall i :: 0 <= i < |items| ==> items[i].Text?
  }

  function Texts(items: seq<Json>): (texts: seq<string>)
    requires AllText(items)
    ensures |texts| == |items| && forall i :: 0 <= i < |items| ==> texts[i] == items[i].s
  {
    seq(|items|, i requires 0 <= i < |items| => items[i].s)
  }

  function Quoted(texts: seq<string>): (items: seq<Json>)
    ensures AllText(items) && Texts(items) == texts
  {
    seq(|texts|, i requires 0 <= i < |texts| => Text(texts[i]))
  }

  /** What reading a list of names gives, stated over the whole list. */
  function Names(value: Json, field: string, allowed: set<string>): Result<seq<string>> {
    if value.Items? && AllText(value.items) && NamesAdmitted(Texts(value.items), allowed)
    then Ok(Texts(value.items)) else Err(field)
  }

  /** The reader itself: it stops at the first bad name and collects the others in `seen`. */
  method ReadNames(value: Json, field: string, allowed: set<string>) returns (r: Result<seq<string>>)
    ensures r == Names(value, field, allowed)
  {
    if !value.Items? || |value.items| == 0 || |value.items| > MAX_SCHEMAS {
      return Err(field);
    }
    var seen: seq<string> := [];
    for k := 0 to |value.items|
      invariant |seen| == k && forall i :: 0 <= i < k ==> value.items[i] == Text(seen[i])
      invariant forall i :: 0 <= i < k ==> NameAdmitted(seen[i], allowed)
      invariant NoDuplicates(seen)
    {
      var item := value.items[k];
      if !item.Text? || !Identifier(item.s) || item.s == GRAPHQL {
        return Err(field);
      }
      if PlatformName(item.s) && item.s !in allowed {
        return Err(field);
      }
      if item.s in seen {
        ghost var j :| 0 <= j < k && seen[j] == item.s;
        assert value.items[j] == value.items[k];
        return Err(field);
      }
      seen := seen + [item.s];
    }
    assert AllText(value.items) && seen == Texts(value.items);
    r := Ok(seen);
  }

  /** The settings in their stored shape, or the first bad field. */
  function Validate(settings: Json): Result<Settings> {
    if !settings.Object? || !(settings.fields.Keys <= FIELDS) then Err("settings") else
    var rows := Get(settings.fields, "max_rows", Null);
    if !(rows == Null || (rows.Number? && 1 <= rows.n <= MAX_ROWS)) then Err("max_rows") else
    var named := Get(settings.fields, "schemas", Null);
    var off := named.Items? && (named.items == [] || named.items == [Text(EMPTY)]);
    var schemas := if off then Ok([EMPTY]) else Names(named, "schemas", {});
    if schemas.Err? then Err(schemas.field) else
    var path := Names(Get(settings.fields, "extra_search_path", Items(Quoted(DEFAULT.searchPath))),
                      "extra_search_path", SEARCH_PATH_ALLOWED);
    if path.Err? then Err(path.field) else
    Ok(Settings(schemas.value, path.value, if rows.Number? then Some(rows.n) else None))
  }

  /** The settings as the dictionary other code passes to `validate` again. */
  function Stored(s: Settings): Json {
    Object(map["schemas" := Items(Quoted(s.schemas)), "extra_search_path" := Items(Quoted(s.searchPath)),
               "max_rows" := if s.maxRows.Some? then Number(s.maxRows.value) else Null])
  }

  /** What every validated value satisfies. */
  predicate Admitted(s: Settings) {
    && (s.schemas == [EMPTY] || NamesAdmitted(s.schemas, {}))
    && NamesAdmitted(s.searchPath, SEARCH_PATH_ALLOWED)
    && (s.maxRows.Some? ==> 1 <= s.maxRows.value <= MAX_ROWS)
  }

  lemma ValidatedIsAdmitted(settings: Json)
    requires Validate(settings).Ok?
    ensures Admitted(Validate(settings).value)
  {
  }

  /** What validated settings say of the ones given: the schemas listed, or none at all for an empty list; the search path
      listed, or `public` when it is left out; a row limit only when one is given. */
  lemma GivenSettingsMean(fields: map<string, Json>)
    requires Validate(Object(fields)).Ok?
    ensures var s := Validate(Object(fields)).value;
            && "schemas" in fields && fields["schemas"].Items?
            && (if fields["schemas"].items == [] then s.schemas == ["sbarbase_empty"] else Quoted(s.schemas) == fields["schemas"].items)
            && (if "extra_search_path" in fields then Items(Quoted(s.searchPath)) == fields["extra_search_path"]
                else s.searchPath == ["public"])
            && (s.maxRows.None? <==> "max_rows" !in fields || fields["max_rows"] == Null)
            && (s.maxRows.Some? ==> fields["max_rows"] == Number(s.maxRows.value))
  {
    var listed := fields["schemas"];
    if listed.items != [] && listed.items != [Text(EMPTY)] {
      assert Quoted(Texts(listed.items)) == listed.items;
    }
    assert Quoted([EMPTY]) == [Text(EMPTY)];
    if "extra_search_path" in fields {
      assert Quoted(Texts(fields["extra_search_path"].items)) == fields["extra_search_path"].items;
    } else {
      assert Texts(Quoted(DEFAULT.searchPath)) == ["public"];
    }
  }

  /** An empty list turns the Data API off, whatever else is left out. */
  lemma NothingListedIsAdmitted()
    ensures Validate(Object(map["schemas" := Items([])])) == Ok(Settings(["sbarbase_empty"], ["public"], None))
  {
    assert Texts(Quoted(DEFAULT.searchPath)) == ["public"];
    PublicIsAdmitted();
  }

  lemma PublicIsAdmitted()
    ensures NameAdmitted("public", SEARCH_PATH_ALLOWED)
  {
    assert forall name <- INTERNAL :: |name| != 6;
    assert |"public"| == 6 && "public"[0] == 'p' && "public"[1] == 'u';
    assert "pg_"[1] == 'g' && "sbarbase"[0] == 's' && "supabase"[0] == 's';
    assert |GRAPHQL| != 6;
  }

  /** No schema of the platform, of Supabase's services or of PostgreSQL is ever exposed, nor GraphQL's; only the platform's
      own empty schema, alone. */
  lemma NothingInternalIsExposed(settings: Json, name: string)
    requires Validate(settings).Ok? && name in Validate(settings).value.schemas
    ensures (name == "sbarbase_empty" && Validate(settings).value.schemas == [name])
            || (&& name !in {"auth", "storage", "vault", "cron", "realtime", "extensions", "graphql_public"}
                && !("pg_" <= name) && !("sbarbase" <= name) && !("supabase" <= name)
                && 1 <= |name| <= 63 && ('a' <= name[0] <= 'z' || name[0] == '_')
                && forall c <- name :: 'a' <= c <= 'z' || '0' <= c <= '9' || c == '_')
  {
    var s := Validate(settings).value;
    ValidatedIsAdmitted(settings);
    if s.schemas != [EMPTY] {
      var i :| 0 <= i < |s.schemas| && s.schemas[i] == name;
      assert NameAdmitted(s.schemas[i], {});
    }
  }

  predicate Named(name: string) {
    && 1 <= |name| <= 63 && ('a' <= name[0] <= 'z' || name[0] == '_')
    && (forall c <- name :: 'a' <= c <= 'z' || '0' <= c <= '9' || c == '_')
    && name != "graphql_public"
  }

  predicate Internal(name: string) {
    name in INTERNAL || "pg_" <= name || "sbarbase" <= name || "supabase" <= name
  }

  lemma NamedMeans(name: string)
    ensures Named(name) <==> Identifier(name) && name != GRAPHQL
  {
    if Identifier(name) {
      forall c <- name ensures 'a' <= c <= 'z' || '0' <= c <= '9' || c == '_' {
        var i :| 0 <= i < |name| && name[i] == c;
        assert NameTail(name[i]);
      }
    }
    if Named(name) {
      forall i | 0 <= i < |name| ensures NameTail(name[i]) { assert name[i] in name; }
    }
  }

  /** Which settings pass unchanged: the empty schema alone, or 1 to 16 names of their own, each once; a search path of 1 to
      16, that may also name `extensions` and the empty schema; and no row limit, or one from 1 to a million. */
  lemma ValidationPassesExactly(s: Settings)
    ensures Validate(Stored(s)) == Ok(s) <==>
            && (s.schemas == ["sbarbase_empty"]
                || (1 <= |s.schemas| <= 16 && NoDuplicates(s.schemas) && forall name <- s.schemas :: Named(name) && !Internal(name)))
            && 1 <= |s.searchPath| <= 16 && NoDuplicates(s.searchPath)
            && (forall name <- s.searchPath :: Named(name) && (Internal(name) ==> name == "extensions" || name == "sbarbase_empty"))
            && (s.maxRows.Some? ==> 1 <= s.maxRows.value <= 1_000_000)
  {
    if Admitted(s) { AdmittedPassesAgain(s); }
    if Validate(Stored(s)) == Ok(s) { ValidatedIsAdmitted(Stored(s)); }
    NamesMean(s.schemas, {});
    NamesMean(s.searchPath, SEARCH_PATH_ALLOWED);
  }

  lemma NamesMean(names: seq<string>, allowed: set<string>)
    ensures NamesAdmitted(names, allowed) <==>
            1 <= |names| <= 16 && NoDuplicates(names) && forall name <- names :: Named(name) && (Internal(name) ==> name in allowed)
  {
    forall i | 0 <= i < |names|
      ensures NameAdmitted(names[i], allowed) <==> Named(names[i]) && (Internal(names[i]) ==> names[i] in allowed)
    {
      NamedMeans(names[i]);
    }
    if NamesAdmitted(names, allowed) {
      forall name <- names ensures Named(name) && (Internal(name) ==> name in allowed) {
        var i :| 0 <= i < |names| && names[i] == name;
        assert NameAdmitted(names[i], allowed);
      }
    }
    if forall name <- names :: Named(name) && (Internal(name) ==> name in allowed) {
      forall i | 0 <= i < |names| ensures NameAdmitted(names[i], allowed) { assert names[i] in names; }
    }
  }

  /** Validation is idempotent: its results pass again, unchanged. */
  lemma AdmittedPassesAgain(s: Settings)
    requires Admitted(s)
    ensures Validate(Stored(s)) == Ok(s)
  {
    assert Texts(Quoted(s.schemas)) == s.schemas;
    assert s.schemas == [EMPTY] ==> Quoted(s.schemas) == [Text(EMPTY)];
    assert Texts(Quoted(s.searchPath)) == s.searchPath;
  }

  // ------------------------------------------------------------ the catalog row

  function FromRow(schemas: string, searchPath: string, maxRows: Option<int>): Result<Settings> {
    Validate(Stored(Settings(Listed(schemas), Listed(searchPath), maxRows)))
  }

  lemma AdmittedNamesAreSeparable(names: seq<string>, allowed: set<string>)
    requires names == [EMPTY] || NamesAdmitted(names, allowed)
    ensures forall name <- names :: Separable(name)
  {
    forall name <- names ensures Separable(name) {
      var i :| 0 <= i < |names| && names[i] == name;
      assert names == [EMPTY] || NameAdmitted(names[i], allowed);
      assert names == [EMPTY] ==> Identifier(EMPTY);
    }
  }

  /** Saving settings in the catalog and reading the row back is the identity. */
  lemma RowRoundTrip(s: Settings)
    requires Admitted(s)
    ensures FromRow(Join(s.schemas), Join(s.searchPath), s.maxRows) == Ok(s)
  {
    AdmittedNamesAreSeparable(s.schemas, {});
    AdmittedNamesAreSeparable(s.searchPath, SEARCH_PATH_ALLOWED);
    JoinThenListed(s.schemas);
    JoinThenListed(s.searchPath);
    AdmittedPassesAgain(s);
  }

  // ------------------------------------------------------------ the rows of settings()

  const DB_SCHEMAS := "pgrst.db_schemas"
  const DB_SEARCH_PATH := "pgrst.db_extra_search_path"
  const DB_MAX_ROWS := "pgrst.db_max_rows"

  /** The rows `settings()` answers once the settings were written. */
  function Rows(s: Settings): seq<(string, string)> {
    [(DB_SCHEMAS, Join(s.schemas)), (DB_SEARCH_PATH, Join(s.searchPath))]
    + if s.maxRows.Some? && s.maxRows.value >= 0 then [(DB_MAX_ROWS, Decimal(s.maxRows.value))] else []
  }

  function Line(row: (string, string)): string { row.0 + "=" + row.1 }

  function Lines(rows: seq<(string, string)>): seq<string> {
    seq(|rows|, i requires 0 <= i < |rows| => Line(rows[i]))
  }

  /** `line.split("=", 1)`. */
  function SplitLine(line: string): (string, string)
    requires '=' in line
  {
    if line[0] == '=' then ("", line[1..])
    else
      var rest := SplitLine(line[1..]);
      ([line[0]] + rest.0, rest.1)
  }

  /** `dict(...)[key]` over the lines: the last line of a key wins. */
  function Lookup(lines: seq<string>, key: string): Option<string> {
    if lines == [] then None else
    var last := lines[|lines| - 1];
    if '=' in last && SplitLine(last).0 == key then Some(SplitLine(last).1)
    else Lookup(lines[..|lines| - 1], key)
  }

  function OrDefault(names: seq<string>, default: seq<string>): seq<string> {
    if names == [] then default else names
  }

  function TextOf(found: Option<string>): string {
    if found.Some? then found.value else ""
  }

  /** What PostgREST serves, read from the lines of the managed keys. */
  function Serving(lines: seq<string>): Settings {
    var rows := Lookup(lines, DB_MAX_ROWS);
    Settings(OrDefault(Listed(TextOf(Lookup(lines, DB_SCHEMAS))), DEFAULT.schemas),
             OrDefault(Listed(TextOf(Lookup(lines, DB_SEARCH_PATH))), DEFAULT.searchPath),
             if rows.Some? && AllDigits(rows.value) then Some(Value(rows.value)) else None)
  }

  lemma {:induction false} SplitLineOf(key: string, text: string)
    requires '=' !in key
    ensures '=' in key + "=" + text && SplitLine(key + "=" + text) == (key, text)
  {
    var line := key + "=" + text;
    assert line[|key|] == '=';
    if key == "" {
      assert line[1..] == text;
    } else {
      assert key[0] in key && line[0] == key[0];
      assert forall c <- key[1..] :: c in key;
      SplitLineOf(key[1..], text);
      assert line[1..] == key[1..] + "=" + text && [key[0]] + key[1..] == key;
    }
  }

  lemma {:induction false} LookupUnique(lines: seq<string>, key: string, text: string)
    requires '=' !in key && key + "=" + text in lines
    requires forall line <- lines :: '=' in line && SplitLine(line).0 == key ==> SplitLine(line).1 == text
    ensures Lookup(lines, key) == Some(text)
  {
    var last := lines[|lines| - 1];
    SplitLineOf(key, text);
    if !('=' in last && SplitLine(last).0 == key) {
      LookupUnique(lines[..|lines| - 1], key, text);
    }
  }

  lemma {:induction false} LookupAbsent(lines: seq<string>, key: string)
    requires forall line <- lines :: '=' in line ==> SplitLine(line).0 != key
    ensures Lookup(lines, key) == None
  {
    if lines != [] {
      LookupAbsent(lines[..|lines| - 1], key);
    }
  }

  /** The lines that carry exactly these rows, in whatever order the database answers them. */
  ghost predicate Carries(lines: seq<string>, rows: seq<(string, string)>) {
    forall line :: line in lines <==> line in Lines(rows)
  }

  ghost predicate KeysDistinct(rows: seq<(string, string)>) {
    && (forall i :: 0 <= i < |rows| ==> '=' !in rows[i].0)
    && forall i, j :: 0 <= i < j < |rows| ==> rows[i].0 != rows[j].0
  }

  lemma CarriedLine(lines: seq<string>, rows: seq<(string, string)>, line: string) returns (i: nat)
    requires KeysDistinct(rows) && Carries(lines, rows) && line in lines
    ensures i < |rows| && '=' in line && SplitLine(line) == rows[i]
  {
    var k :| 0 <= k < |rows| && Lines(rows)[k] == line;
    SplitLineOf(rows[k].0, rows[k].1);
    i := k;
  }

  lemma LookupCarried(lines: seq<string>, rows: seq<(string, string)>, i: nat)
    requires KeysDistinct(rows) && Carries(lines, rows) && i < |rows|
    ensures Lookup(lines, rows[i].0) == Some(rows[i].1)
  {
    assert Lines(rows)[i] == Line(rows[i]);
    forall line <- lines | '=' in line && SplitLine(line).0 == rows[i].0
      ensures SplitLine(line).1 == rows[i].1
    {
      var j := CarriedLine(lines, rows, line);
    }
    LookupUnique(lines, rows[i].0, rows[i].1);
  }

  lemma LookupNotCarried(lines: seq<string>, rows: seq<(string, string)>, key: string)
    requires KeysDistinct(rows) && Carries(lines, rows) && forall i :: 0 <= i < |rows| ==> rows[i].0 != key
    ensures Lookup(lines, key) == None
  {
    forall line <- lines | '=' in line ensures SplitLine(line).0 != key {
      var j := CarriedLine(lines, rows, line);
    }
    LookupAbsent(lines, key);
  }

  lemma ManagedKeysDistinct()
    ensures DB_SCHEMAS != DB_SEARCH_PATH && DB_SCHEMAS != DB_MAX_ROWS && DB_SEARCH_PATH != DB_MAX_ROWS
    ensures '=' !in DB_SCHEMAS && '=' !in DB_SEARCH_PATH && '=' !in DB_MAX_ROWS
  {
    assert DB_SCHEMAS[9] == 's' && DB_SEARCH_PATH[9] == 'e' && DB_MAX_ROWS[9] == 'm';
  }

  /** Writing settings and reading back what PostgREST serves gives the settings, whatever order the
      rows come in; with the limit left out, the reader reports no limit. */
  lemma ServingRoundTrip(s: Settings, lines: seq<string>)
    requires Admitted(s) && Carries(lines, Rows(s))
    ensures Serving(lines) == s
  {
    var rows := Rows(s);
    ManagedKeysDistinct();
    LookupCarried(lines, rows, 0);
    LookupCarried(lines, rows, 1);
    AdmittedNamesAreSeparable(s.schemas, {});
    AdmittedNamesAreSeparable(s.searchPath, SEARCH_PATH_ALLOWED);
    JoinThenListed(s.schemas);
    JoinThenListed(s.searchPath);
    if s.maxRows.Some? {
      LookupCarried(lines, rows, 2);
      DecimalThenValue(s.maxRows.value);
    } else {
      LookupNotCarried(lines, rows, DB_MAX_ROWS);
    }
  }

  // ------------------------------------------------------------ what may be served

  /** `[name for name in names if (name in existing) == present]`. */
  function Keep(names: seq<string>, existing: set<string>, present: bool): seq<string> {
    if names == [] then []
    else (if (names[0] in existing) == present then [names[0]] else []) + Keep(names[1..], existing, present)
  }

  /** The settings PostgREST may serve while only `existing` schemas exist, and the schemas left out. */
  function Effective(s: Settings, existing: set<string>): (Settings, seq<string>) {
    var missing := Keep(s.schemas, existing, false);
    var more := if s.schemas == [EMPTY] then [] else Keep(s.searchPath, existing + (set name <- missing), false);
    (Settings(OrDefault(Keep(s.schemas, existing, true), [EMPTY]),
              OrDefault(Keep(s.searchPath, existing, true), [EMPTY]), s.maxRows),
     missing + more)
  }

  lemma {:induction false} KeepSelects(names: seq<string>, existing: set<string>, present: bool)
    ensures forall name :: name in Keep(names, existing, present) <==> name in names && (name in existing) == present
    ensures IsSubsequence(Keep(names, existing, present), names)
    ensures |Keep(names, existing, present)| <= |names|
    ensures NoDuplicates(names) ==> NoDuplicates(Keep(names, existing, present))
  {
    if names != [] {
      KeepSelects(names[1..], existing, present);
      var kept := Keep(names[1..], existing, present);
      if (names[0] in existing) == present {
        assert Keep(names, existing, present)[1..] == kept;
      } else {
        assert Keep(names, existing, present) == kept;
        SubsequenceOfLonger(kept, names[1..], names[0]);
        assert [names[0]] + names[1..] == names;
      }
    }
  }

  lemma {:induction false} SubsequenceOfLonger(xs: seq<string>, ys: seq<string>, y: string)
    requires IsSubsequence(xs, ys)
    ensures IsSubsequence(xs, [y] + ys)
    decreases |ys|, 1
  {
    assert ([y] + ys)[1..] == ys;
    if xs != [] && xs[0] == y {
      SubsequenceTail(xs, ys);
    }
  }

  lemma {:induction false} SubsequenceTail(xs: seq<string>, ys: seq<string>)
    requires xs != [] && IsSubsequence(xs, ys)
    ensures IsSubsequence(xs[1..], ys)
    decreases |ys|, 0
  {
    if xs[0] == ys[0] {
      SubsequenceOfLonger(xs[1..], ys[1..], ys[0]);
      assert [ys[0]] + ys[1..] == ys;
    } else {
      SubsequenceTail(xs, ys[1..]);
      SubsequenceOfLonger(xs[1..], ys[1..], ys[0]);
      assert [ys[0]] + ys[1..] == ys;
    }
  }

  lemma KeptNamesAdmitted(names: seq<string>, existing: set<string>, allowed: set<string>)
    requires NamesAdmitted(names, allowed) && Keep(names, existing, true) != []
    ensures NamesAdmitted(Keep(names, existing, true), allowed)
  {
    KeepSelects(names, existing, true);
    var kept := Keep(names, existing, true);
    forall i | 0 <= i < |kept| ensures NameAdmitted(kept[i], allowed) {
      assert kept[i] in names;
    }
  }

  lemma KeepOne(name: string, existing: set<string>)
    ensures Keep([name], existing, true) == if name in existing then [name] else []
  {
    assert [name][1..] == [];
  }

  lemma ServedIsAdmitted(s: Settings, existing: set<string>)
    requires Admitted(s)
    ensures Admitted(Effective(s, existing).0)
  {
    if s.schemas != [EMPTY] && Keep(s.schemas, existing, true) != [] {
      KeptNamesAdmitted(s.schemas, existing, {});
    }
    if Keep(s.searchPath, existing, true) != [] {
      KeptNamesAdmitted(s.searchPath, existing, SEARCH_PATH_ALLOWED);
    } else {
      assert Identifier(EMPTY) && EMPTY != GRAPHQL;
      assert NameAdmitted([EMPTY][0], SEARCH_PATH_ALLOWED);
    }
    KeepOne(EMPTY, existing);
  }

  /** What may be served: exactly the chosen schemas that exist, in the owner's order, or the platform's
      empty schema when none is left; never a schema the owner did not list; and always settings that
      pass validation again unchanged. */
  lemma EffectiveServesOnlyWhatTheOwnerListed(s: Settings, existing: set<string>)
    requires Admitted(s)
    ensures var served := Effective(s, existing).0;
            && Validate(Stored(served)) == Ok(served)
            && served.maxRows == s.maxRows
            && ServesExactly(served.schemas, s.schemas, existing)
            && ServesExactly(served.searchPath, s.searchPath, existing)
            && (PUBLIC in served.schemas ==> PUBLIC in s.schemas)
  {
    ServedExactly(s.schemas, existing);
    ServedExactly(s.searchPath, existing);
    ServedIsAdmitted(s, existing);
    AdmittedPassesAgain(Effective(s, existing).0);
    assert PUBLIC[0] != EMPTY[0];
  }

  lemma ServedExactly(names: seq<string>, existing: set<string>)
    ensures ServesExactly(OrDefault(Keep(names, existing, true), [EMPTY]), names, existing)
  {
    var kept := Keep(names, existing, true);
    KeepSelects(names, existing, true);
    if kept != [] {
      assert kept[0] in names && kept[0] in existing;
    }
  }

  ghost predicate ServesExactly(served: seq<string>, chosen: seq<string>, existing: set<string>) {
    if forall name <- chosen :: name !in existing then served == [EMPTY]
    else IsSubsequence(served, chosen) && forall name :: name in served <==> name in chosen && name in existing
  }

  /** The report of what is left out names every chosen schema that is gone once, and nothing else; with
      the Data API off only the empty schema itself could be missing. */
  lemma LeftOutIsExactlyWhatIsMissing(s: Settings, existing: set<string>)
    requires Admitted(s)
    ensures var missing := Effective(s, existing).1;
            && (forall name :: name in missing <==>
                  name !in existing && (name in s.schemas || (s.schemas != [EMPTY] && name in s.searchPath)))
            && NoDuplicates(missing)
  {
    var missing := Keep(s.schemas, existing, false);
    KeepSelects(s.schemas, existing, false);
    KeepSelects(s.searchPath, existing + (set name <- missing), false);
    var more := if s.schemas == [EMPTY] then [] else Keep(s.searchPath, existing + (set name <- missing), false);
    DistinctTogether(missing, more);
  }

  lemma DistinctTogether(xs: seq<string>, ys: seq<string>)
    requires NoDuplicates(xs) && NoDuplicates(ys) && forall y :: y in ys ==> y !in xs
    ensures NoDuplicates(xs + ys)
  {
    assert forall i :: 0 <= i < |xs| ==> xs[i] in xs;
    assert forall j :: 0 <= j < |ys| ==> ys[j] in ys && ys[j] !in xs;
  }
}
