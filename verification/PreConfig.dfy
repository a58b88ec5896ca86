/** lab/data_api.py, the db-pre-config function `sbarbase_rest.pre_config()`: it loads the platform's
    settings into the session of a pooled connection and refuses a session that carries anything else. */
module PreConfig {
  import opened Prelude
  import Api = DataApiSettings

  type Rows = seq<(string, string)>
  type Values = map<string, string>

  /** What runs between the steps of the function in the same session, a tenant's code included. */
  type Meddling = Values -> Values

  /** Code that runs once the values are set, once the scan is over, and before each check of the last loop. Code
      between two settings or two checks of the scan adds nothing: it leads to some session, as these two do. */
  datatype Interference = Interference(after: Meddling, before: Meddling, between: nat -> Meddling)

  const PGRST_KEYS: seq<string> := [
    "pgrst.db_aggregates_enabled", "pgrst.db_anon_role", "pgrst.db_pre_config", Api.DB_SEARCH_PATH, Api.DB_MAX_ROWS,
    "pgrst.db_plan_enabled", "pgrst.db_pre_request", "pgrst.db_prepared_statements", "pgrst.db_root_spec",
    Api.DB_SCHEMAS, "pgrst.db_tx_end", "pgrst.db_hoisted_tx_settings", "pgrst.jwt_aud", "pgrst.jwt_role_claim_key",
    "pgrst.jwt_secret", "pgrst.jwt_secret_is_base64", "pgrst.jwt_cache_max_lifetime", "pgrst.openapi_mode",
    "pgrst.openapi_security_active", "pgrst.openapi_server_proxy_uri", "pgrst.server_cors_allowed_origins",
    "pgrst.server_trace_header", "pgrst.server_timing_enabled"]

  predicate Managed(key: string) {
    key == Api.DB_SCHEMAS || key == Api.DB_SEARCH_PATH || key == Api.DB_MAX_ROWS
  }

  /** The managed rows of `settings()`; rows an archive brought under other keys are ignored. */
  function Taken(rows: Rows): Rows {
    if rows == [] then []
    else (if Managed(rows[0].0) then [rows[0]] else []) + Taken(rows[1..])
  }

  predicate Given(rows: Rows, key: string) {
    exists i :: 0 <= i < |rows| && rows[i].0 == key
  }

  // ------------------------------------------------------------ the steps as functions

  function SetAll(rows: Rows, values: Values): Values {
    if rows == [] then values
    else SetAll(rows[..|rows| - 1], values)[rows[|rows| - 1].0 := rows[|rows| - 1].1]
  }

  function DefaultOf(rows: Rows, key: string, values: Values): Values {
    if Given(rows, key) then values else values[key := Api.PUBLIC]
  }

  function Loaded(rows: Rows, values: Values): Values {
    DefaultOf(rows, Api.DB_SEARCH_PATH, DefaultOf(rows, Api.DB_SCHEMAS, SetAll(rows, values)))
  }

  /** A key the platform did not set must not be set by the session either. */
  predicate Foreign(rows: Rows, values: Values, key: string) {
    && !Given(rows, key) && key != Api.DB_SCHEMAS && key != Api.DB_SEARCH_PATH
    && key in values && (values[key] != "" || key != Api.DB_MAX_ROWS)
  }

  predicate CleanOf(rows: Rows, values: Values, keys: seq<string>) {
    forall i :: 0 <= i < |keys| ==> !Foreign(rows, values, keys[i])
  }

  predicate Clean(rows: Rows, values: Values) {
    CleanOf(rows, values, PGRST_KEYS)
  }

  predicate InForce(values: Values, row: (string, string)) {
    row.0 in values && values[row.0] == row.1
  }

  predicate Proved(rows: Rows, values: Values) {
    forall i :: 0 <= i < |rows| ==> InForce(values, rows[i])
  }

  /** The last loop: each row is checked against the session as it is when its turn comes. */
  function Checked(taken: Rows, values: Values, between: nat -> Meddling): Option<Values>
    decreases |taken|
  {
    if taken == [] then Some(values) else
    var i := |taken| - 1;
    var reached := Checked(taken[..i], values, between);
    if reached.None? then None else
    var now := between(i)(reached.value);
    if InForce(now, taken[i]) then Some(now) else None
  }

  /** The session after the load, or nothing when the load is refused. */
  function Load(rows: Rows, searchPath: string, values: Values, run: Interference): Option<Values> {
    var taken := Taken(rows);
    var loaded := run.after(Loaded(taken, values));
    if searchPath != "pg_catalog" || !Clean(taken, loaded) then None
    else Checked(taken, run.before(loaded), run.between)
  }

  // ------------------------------------------------------------ the session

  class Session {
    var values: Values
    var searchPath: string

    constructor (values: Values, searchPath: string)
      ensures this.values == values && this.searchPath == searchPath
    {
      this.values := values;
      this.searchPath := searchPath;
    }

    /** Applies the managed rows, then the defaults of the two lists no row gave. */
    method Apply(rows: Rows) returns (taken: Rows)
      modifies this`values
      ensures taken == Taken(rows) && values == Loaded(taken, old(values))
    {
      taken := [];
      for i := 0 to |rows|
        invariant values == SetAll(taken, old(values))
        invariant Taken(rows) == taken + Taken(rows[i..])
      {
        assert rows[i..][0] == rows[i] && rows[i..][1..] == rows[i + 1..];
        if Managed(rows[i].0) {
          values := values[rows[i].0 := rows[i].1];
          assert (taken + [rows[i]])[..|taken|] == taken;
          taken := taken + [rows[i]];
        }
      }
      if !Given(taken, Api.DB_SCHEMAS) { values := values[Api.DB_SCHEMAS := Api.PUBLIC]; }
      if !Given(taken, Api.DB_SEARCH_PATH) { values := values[Api.DB_SEARCH_PATH := Api.PUBLIC]; }
    }

    method Carries(taken: Rows, keys: seq<string>) returns (foreign: bool)
      ensures foreign <==> !CleanOf(taken, values, keys)
    {
      for i := 0 to |keys|
        invariant forall j :: 0 <= j < i ==> !Foreign(taken, values, keys[j])
      {
        if Foreign(taken, values, keys[i]) {
          return true;
        }
      }
      return false;
    }

    /** The last loop; it returns at the first row that is not in force. */
    method Holds(taken: Rows, between: nat -> Meddling) returns (held: bool)
      modifies this`values
      ensures held <==> Checked(taken, old(values), between).Some?
      ensures held ==> Some(values) == Checked(taken, old(values), between)
    {
      for i := 0 to |taken|
        invariant Checked(taken[..i], old(values), between) == Some(values)
      {
        values := between(i)(values);
        assert taken[..i + 1][..i] == taken[..i];
        if !InForce(values, taken[i]) {
          StaysRefused(taken, i + 1, old(values), between);
          return false;
        }
      }
      assert taken[..|taken|] == taken;
      return true;
    }

    /** The function's body. A refusal raises, which undoes the transaction's own settings. */
    method Run(rows: Rows, run: Interference) returns (ok: bool)
      modifies this`values
      ensures ok <==> Load(rows, searchPath, old(values), run).Some?
      ensures ok ==> Some(values) == Load(rows, searchPath, old(values), run)
      ensures !ok ==> values == old(values)
    {
      if searchPath != "pg_catalog" {
        return false;
      }
      var saved := values;
      var taken := Apply(rows);
      values := run.after(values);
      var foreign := Carries(taken, PGRST_KEYS);
      if foreign {
        values := saved;
        return false;
      }
      values := run.before(values);
      ok := Holds(taken, run.between);
      if !ok {
        values := saved;
      }
    }
  }

  // ------------------------------------------------------------ what a load guarantees

  lemma {:induction false} StaysRefused(taken: Rows, n: nat, values: Values, between: nat -> Meddling)
    requires n <= |taken| && Checked(taken[..n], values, between).None?
    ensures Checked(taken, values, between).None?
    decreases |taken|
  {
    if n == |taken| {
      assert taken[..n] == taken;
    } else {
      assert taken[..|taken| - 1][..n] == taken[..n];
      StaysRefused(taken[..|taken| - 1], n, values, between);
    }
  }

  const Nothing: Meddling := (values: Values) => values
  const Nobody: nat -> Meddling := (i: nat) => Nothing
  const Undisturbed: Interference := Interference(Nothing, Nothing, Nobody)

  /** Every key PostgREST reads has the platform's value: a managed key the row's, or the default; the row
      limit, left out, unset or empty; any other key unset. */
  ghost predicate PlatformValues(rows: Rows, values: Values) {
    ManagedValues(rows, values) && OthersUnset(values)
  }

  ghost predicate OthersUnset(values: Values) {
    forall key <- PGRST_KEYS :: !Managed(key) ==> key !in values
  }

  ghost predicate ManagedValues(rows: Rows, values: Values) {
    && (forall i :: 0 <= i < |rows| && Managed(rows[i].0) ==> rows[i].0 in values && values[rows[i].0] == rows[i].1)
    && (!Given(rows, Api.DB_SCHEMAS) ==> Api.DB_SCHEMAS in values && values[Api.DB_SCHEMAS] == Api.PUBLIC)
    && (!Given(rows, Api.DB_SEARCH_PATH) ==> Api.DB_SEARCH_PATH in values && values[Api.DB_SEARCH_PATH] == Api.PUBLIC)
    && (!Given(rows, Api.DB_MAX_ROWS) && Api.DB_MAX_ROWS in values ==> values[Api.DB_MAX_ROWS] == "")
  }

  /** Two managed rows of one key with different values. */
  ghost predicate Contradictory(rows: Rows) {
    exists i, j :: 0 <= i < |rows| && 0 <= j < |rows| && Managed(rows[i].0) && rows[i].0 == rows[j].0 && rows[i].1 != rows[j].1
  }

  ghost predicate AllGiven(rows: Rows) {
    Given(rows, Api.DB_SCHEMAS) && Given(rows, Api.DB_SEARCH_PATH) && Given(rows, Api.DB_MAX_ROWS)
  }

  /** A session the load accepts: nothing foreign in it, and rows that do not contradict each other. */
  ghost predicate Acceptable(rows: Rows, searchPath: string, values: Values) {
    && searchPath == "pg_catalog"
    && !Contradictory(rows)
    && OthersUnset(values)
    && (!Given(rows, Api.DB_MAX_ROWS) && Api.DB_MAX_ROWS in values ==> values[Api.DB_MAX_ROWS] == "")
  }

  lemma {:induction false} TakenHolds(rows: Rows)
    ensures forall row :: row in Taken(rows) <==> row in rows && Managed(row.0)
  {
    if rows != [] {
      TakenHolds(rows[1..]);
      assert rows == [rows[0]] + rows[1..];
    }
  }

  lemma GivenTaken(rows: Rows, key: string)
    requires Managed(key)
    ensures Given(Taken(rows), key) == Given(rows, key)
  {
    TakenHolds(rows);
    if Given(rows, key) {
      var i :| 0 <= i < |rows| && rows[i].0 == key;
      assert rows[i] in Taken(rows);
    }
    if Given(Taken(rows), key) {
      var i :| 0 <= i < |Taken(rows)| && Taken(rows)[i].0 == key;
      assert Taken(rows)[i] in rows;
    }
  }

  /** The last row of a key decides; a key no row names keeps its value. */
  lemma {:induction false} SetAllEffect(rows: Rows, values: Values, key: string)
    ensures Given(rows, key) ==> key in SetAll(rows, values) && (key, SetAll(rows, values)[key]) in rows
    ensures !Given(rows, key) ==> (key in SetAll(rows, values) <==> key in values)
                                  && (key in values ==> SetAll(rows, values)[key] == values[key])
  {
    if rows != [] {
      var most, last := rows[..|rows| - 1], rows[|rows| - 1];
      SetAllEffect(most, values, key);
      assert forall row :: row in most ==> row in rows;
      if last.0 == key {
        assert Given(rows, key) && (key, last.1) == last;
      } else {
        assert Given(rows, key) ==> Given(most, key) by {
          if Given(rows, key) {
            var i :| 0 <= i < |rows| && rows[i].0 == key;
            assert most[i].0 == key;
          }
        }
        assert Given(most, key) ==> Given(rows, key) by {
          if Given(most, key) {
            var i :| 0 <= i < |most| && most[i].0 == key;
            assert rows[i].0 == key;
          }
        }
      }
    }
  }

  lemma ManagedKeysAreRead()
    ensures Api.DB_MAX_ROWS in PGRST_KEYS && Api.DB_SCHEMAS in PGRST_KEYS && Api.DB_SEARCH_PATH in PGRST_KEYS
    ensures Api.DB_SCHEMAS != Api.DB_SEARCH_PATH && Api.DB_SCHEMAS != Api.DB_MAX_ROWS && Api.DB_SEARCH_PATH != Api.DB_MAX_ROWS
  {
    assert PGRST_KEYS[3] == Api.DB_SEARCH_PATH && PGRST_KEYS[4] == Api.DB_MAX_ROWS && PGRST_KEYS[9] == Api.DB_SCHEMAS;
    Api.ManagedKeysDistinct();
  }

  lemma LoadedManaged(rows: Rows, values: Values, key: string)
    requires Managed(key)
    ensures key in Loaded(Taken(rows), values) <==> key in values || Given(rows, key) || key != Api.DB_MAX_ROWS
    ensures Given(rows, key) ==> key in Loaded(Taken(rows), values) && (key, Loaded(Taken(rows), values)[key]) in rows
    ensures key != Api.DB_MAX_ROWS && !Given(rows, key) ==> Loaded(Taken(rows), values)[key] == Api.PUBLIC
    ensures key == Api.DB_MAX_ROWS && !Given(rows, key) && key in values ==> Loaded(Taken(rows), values)[key] == values[key]
  {
    ManagedKeysAreRead();
    TakenHolds(rows);
    SetAllEffect(Taken(rows), values, key);
    GivenTaken(rows, key);
  }

  lemma LoadedOther(rows: Rows, values: Values, key: string)
    requires !Managed(key)
    ensures key in Loaded(Taken(rows), values) <==> key in values
    ensures key in values ==> Loaded(Taken(rows), values)[key] == values[key]
  {
    ManagedKeysAreRead();
    TakenHolds(rows);
    SetAllEffect(Taken(rows), values, key);
    forall i | 0 <= i < |Taken(rows)| ensures Taken(rows)[i].0 != key { assert Taken(rows)[i] in Taken(rows); }
  }

  lemma CleanMeans(rows: Rows, values: Values)
    ensures Clean(Taken(rows), values) <==>
              OthersUnset(values) && (!Given(rows, Api.DB_MAX_ROWS) && Api.DB_MAX_ROWS in values ==> values[Api.DB_MAX_ROWS] == "")
  {
    ManagedKeysAreRead();
    GivenTaken(rows, Api.DB_MAX_ROWS);
    TakenHolds(rows);
    var taken := Taken(rows);
    forall key <- PGRST_KEYS
      ensures Foreign(taken, values, key) <==> key in values && if Managed(key)
                then key == Api.DB_MAX_ROWS && !Given(rows, key) && values[key] != "" else true
    {
      if Given(taken, key) {
        var i :| 0 <= i < |taken| && taken[i].0 == key;
        assert taken[i] in taken;
      }
    }
    if Clean(taken, values) {
      forall key <- PGRST_KEYS ensures !Foreign(taken, values, key) {
        var i :| 0 <= i < |PGRST_KEYS| && PGRST_KEYS[i] == key;
      }
    } else {
      var i :| 0 <= i < |PGRST_KEYS| && Foreign(taken, values, PGRST_KEYS[i]);
      assert PGRST_KEYS[i] in PGRST_KEYS;
    }
  }

  lemma ProvedMeans(rows: Rows, values: Values)
    ensures Proved(Taken(rows), values) <==>
              forall i :: 0 <= i < |rows| && Managed(rows[i].0) ==> rows[i].0 in values && values[rows[i].0] == rows[i].1
  {
    TakenHolds(rows);
    var taken := Taken(rows);
    if Proved(taken, values) {
      forall i | 0 <= i < |rows| && Managed(rows[i].0)
        ensures rows[i].0 in values && values[rows[i].0] == rows[i].1
      {
        assert rows[i] in rows;
        var j :| 0 <= j < |taken| && taken[j] == rows[i];
      }
    }
    if forall i :: 0 <= i < |rows| && Managed(rows[i].0) ==> rows[i].0 in values && values[rows[i].0] == rows[i].1 {
      forall j | 0 <= j < |taken| ensures taken[j].0 in values && values[taken[j].0] == taken[j].1 {
        assert taken[j] in taken;
        var i :| 0 <= i < |rows| && rows[i] == taken[j];
      }
    }
  }

  lemma {:induction false} CheckedUndisturbed(taken: Rows, values: Values)
    ensures Checked(taken, values, Nobody) == if Proved(taken, values) then Some(values) else None
    decreases |taken|
  {
    if taken != [] {
      var i := |taken| - 1;
      CheckedUndisturbed(taken[..i], values);
      assert forall j :: 0 <= j < i ==> taken[..i][j] == taken[j];
      assert Proved(taken, values) <==> Proved(taken[..i], values) && InForce(values, taken[i]);
    }
  }

  lemma CleanLoaded(rows: Rows, values: Values)
    ensures var loaded := Loaded(Taken(rows), values);
            && (OthersUnset(loaded) <==> OthersUnset(values))
            && (Clean(Taken(rows), loaded) <==>
                  OthersUnset(values) && (!Given(rows, Api.DB_MAX_ROWS) && Api.DB_MAX_ROWS in values ==> values[Api.DB_MAX_ROWS] == ""))
  {
    var loaded := Loaded(Taken(rows), values);
    CleanMeans(rows, loaded);
    LoadedManaged(rows, values, Api.DB_MAX_ROWS);
    forall key <- PGRST_KEYS | !Managed(key) ensures key in loaded <==> key in values { LoadedOther(rows, values, key); }
  }

  lemma ProvedLoaded(rows: Rows, values: Values)
    ensures Proved(Taken(rows), Loaded(Taken(rows), values)) <==> !Contradictory(rows)
  {
    var loaded := Loaded(Taken(rows), values);
    ProvedMeans(rows, loaded);
    if !Contradictory(rows) {
      forall i | 0 <= i < |rows| && Managed(rows[i].0) ensures rows[i].0 in loaded && loaded[rows[i].0] == rows[i].1 {
        LoadedManaged(rows, values, rows[i].0);
        var j :| 0 <= j < |rows| && rows[j] == (rows[i].0, loaded[rows[i].0]);
      }
    }
  }

  /** Undisturbed, a load is accepted exactly for an acceptable session, and then every key PostgREST reads
      is the platform's, while everything else in the session is as it was. */
  lemma LoadEndsInPlatformValues(rows: Rows, searchPath: string, values: Values)
    ensures var load := Load(rows, searchPath, values, Undisturbed);
            && (load.Some? <==> Acceptable(rows, searchPath, values))
            && (load.Some? ==> PlatformValues(rows, load.value))
            && (load.Some? ==> forall key :: !Managed(key) ==>
                  (key in load.value <==> key in values) && (key in values ==> load.value[key] == values[key]))
  {
    var loaded := Loaded(Taken(rows), values);
    CleanLoaded(rows, values);
    ProvedLoaded(rows, values);
    ProvedMeans(rows, loaded);
    CheckedUndisturbed(Taken(rows), loaded);
    LoadedManaged(rows, values, Api.DB_SCHEMAS);
    LoadedManaged(rows, values, Api.DB_SEARCH_PATH);
    LoadedManaged(rows, values, Api.DB_MAX_ROWS);
    forall key | !Managed(key)
      ensures (key in loaded <==> key in values) && (key in values ==> loaded[key] == values[key])
    {
      LoadedOther(rows, values, key);
    }
  }

  /** Code that runs anywhere but between two checks of the last loop cannot keep an accepted load from holding
      the rows given. */
  lemma MeddlingKeepsTheGivenKeys(rows: Rows, searchPath: string, values: Values, after: Meddling, before: Meddling)
    requires Load(rows, searchPath, values, Interference(after, before, Nobody)).Some?
    ensures var final := Load(rows, searchPath, values, Interference(after, before, Nobody)).value;
            forall i :: 0 <= i < |rows| && Managed(rows[i].0) ==> rows[i].0 in final && final[rows[i].0] == rows[i].1
    ensures !Contradictory(rows)
  {
    var reached := before(after(Loaded(Taken(rows), values)));
    CheckedUndisturbed(Taken(rows), reached);
    ProvedMeans(rows, reached);
  }

  /** Code that runs after the scan and leaves the rows given in force is not noticed. */
  lemma UnseenAfterTheScan(rows: Rows, changed: Values)
    requires forall i :: 0 <= i < |rows| && Managed(rows[i].0) ==> rows[i].0 in changed && changed[rows[i].0] == rows[i].1
    ensures Load(rows, "pg_catalog", map[], Interference((v: Values) => map[], (v: Values) => changed, Nobody)) == Some(changed)
  {
    CleanMeans(rows, map[]);
    ProvedMeans(rows, changed);
    CheckedUndisturbed(Taken(rows), changed);
  }

  function WithKey(rows: Rows, key: string, text: string): Values {
    SetAll(Taken(rows), map[])[key := text]
  }

  lemma WithKeyHoldsTheRows(rows: Rows, key: string, text: string)
    requires !Contradictory(rows) && (Managed(key) ==> !Given(rows, key))
    ensures forall i :: 0 <= i < |rows| && Managed(rows[i].0) ==>
              rows[i].0 in WithKey(rows, key, text) && WithKey(rows, key, text)[rows[i].0] == rows[i].1
  {
    TakenHolds(rows);
    forall i | 0 <= i < |rows| && Managed(rows[i].0)
      ensures rows[i].0 in WithKey(rows, key, text) && WithKey(rows, key, text)[rows[i].0] == rows[i].1
    {
      assert rows[i].0 != key;
      GivenTaken(rows, rows[i].0);
      SetAllEffect(Taken(rows), map[], rows[i].0);
      var j :| 0 <= j < |rows| && rows[j] == (rows[i].0, SetAll(Taken(rows), map[])[rows[i].0]);
    }
  }

  /** A managed key that no row gives, or any other key PostgREST reads, can be set to any text by code that runs
      after the scan, and the load is accepted. */
  lemma AnyOtherKeyCanBeSet(rows: Rows, key: string, text: string) returns (after: Meddling, before: Meddling, final: Values)
    requires !Contradictory(rows) && (Managed(key) ==> !Given(rows, key))
    ensures Load(rows, "pg_catalog", map[], Interference(after, before, Nobody)) == Some(final)
    ensures key in final && final[key] == text
  {
    final := WithKey(rows, key, text);
    WithKeyHoldsTheRows(rows, key, text);
    UnseenAfterTheScan(rows, final);
    var changed := final;
    after, before := (v: Values) => map[], (v: Values) => changed;
  }

  /** Code that runs outside the last loop cannot change the managed values of an accepted load exactly when the
      platform wrote a row for each of the three keys, or rows that contradict each other and are never accepted. */
  lemma ManagedValuesAreKeptExactly(rows: Rows)
    ensures (forall values: Values, after: Meddling, before: Meddling ::
               var load := Load(rows, "pg_catalog", values, Interference(after, before, Nobody));
               load.Some? ==> ManagedValues(rows, load.value))
            <==> AllGiven(rows) || Contradictory(rows)
  {
    if AllGiven(rows) || Contradictory(rows) {
      forall values: Values, after: Meddling, before: Meddling
        | Load(rows, "pg_catalog", values, Interference(after, before, Nobody)).Some?
        ensures ManagedValues(rows, Load(rows, "pg_catalog", values, Interference(after, before, Nobody)).value)
      {
        MeddlingKeepsTheGivenKeys(rows, "pg_catalog", values, after, before);
      }
    } else {
      var key := if !Given(rows, Api.DB_SCHEMAS) then Api.DB_SCHEMAS
                 else if !Given(rows, Api.DB_SEARCH_PATH) then Api.DB_SEARCH_PATH else Api.DB_MAX_ROWS;
      var after, before, final := AnyOtherKeyCanBeSet(rows, key, "private");
      assert "private"[1] != Api.PUBLIC[1];
      assert !ManagedValues(rows, final);
    }
  }

  /** Such code, with no rows: a default is changed after it was set, before the scan, and the load is accepted. */
  lemma DefaultsAreNotProvedAgain()
    ensures var meddle: Meddling := (values: Values) => values[Api.DB_SCHEMAS := "private"];
            var load := Load([], "pg_catalog", map[], Interference(meddle, Nothing, Nobody));
            load.Some? && !PlatformValues([], load.value)
  {
    var meddle: Meddling := (values: Values) => values[Api.DB_SCHEMAS := "private"];
    var changed := meddle(Loaded([], map[]));
    ManagedKeysAreRead();
    assert "private"[1] != Api.PUBLIC[1];
    assert Taken([]) == [];
    CleanMeans([], changed);
    CleanLoaded([], map[]);
    LoadedManaged([], map[], Api.DB_MAX_ROWS);
  }

  /** No row covers the other keys PostgREST reads: they are kept unset exactly when no load is accepted. */
  lemma OtherKeysAreNeverKept(rows: Rows)
    ensures (forall values: Values, after: Meddling, before: Meddling ::
               var load := Load(rows, "pg_catalog", values, Interference(after, before, Nobody));
               load.Some? ==> OthersUnset(load.value))
            <==> Contradictory(rows)
  {
    if Contradictory(rows) {
      forall values: Values, after: Meddling, before: Meddling
        ensures Load(rows, "pg_catalog", values, Interference(after, before, Nobody)).None?
      {
        if Load(rows, "pg_catalog", values, Interference(after, before, Nobody)).Some? {
          MeddlingKeepsTheGivenKeys(rows, "pg_catalog", values, after, before);
        }
      }
    } else {
      var key := PGRST_KEYS[14];
      SecretIsNotManaged();
      var after, before, final := AnyOtherKeyCanBeSet(rows, key, "private");
      assert key in PGRST_KEYS && !OthersUnset(final);
    }
  }

  lemma SecretIsNotManaged()
    ensures PGRST_KEYS[14] == "pgrst.jwt_secret" && !Managed(PGRST_KEYS[14])
  {
    assert PGRST_KEYS[14][6] == 'j' && Api.DB_SCHEMAS[6] == 'd' && Api.DB_SEARCH_PATH[6] == 'd' && Api.DB_MAX_ROWS[6] == 'd';
  }

  /** A session with the last row alone. */
  function LastOnly(taken: Rows): Values {
    if taken == [] then map[] else map[taken[|taken| - 1].0 := taken[|taken| - 1].1]
  }

  /** Before each check, only the row it asks for. */
  function Flickering(taken: Rows): nat -> Meddling {
    (i: nat) => (values: Values) => if i < |taken| then LastOnly(taken[..i + 1]) else values
  }

  lemma {:induction false} FlickeringPasses(taken: Rows, n: nat)
    requires n <= |taken|
    ensures Checked(taken[..n], map[], Flickering(taken)) == Some(LastOnly(taken[..n]))
    decreases n
  {
    if n > 0 {
      FlickeringPasses(taken, n - 1);
      assert taken[..n][..n - 1] == taken[..n - 1];
    }
  }

  lemma FlickeringIsAccepted(rows: Rows) returns (run: Interference)
    ensures Load(rows, "pg_catalog", map[], run) == Some(LastOnly(Taken(rows)))
  {
    var taken := Taken(rows);
    run := Interference((v: Values) => map[], (v: Values) => map[], Flickering(taken));
    CleanMeans(rows, map[]);
    FlickeringPasses(taken, |taken|);
    assert taken[..|taken|] == taken;
  }

  lemma LastOnlyHolds(taken: Rows, row: (string, string))
    ensures InForce(LastOnly(taken), row) <==> taken != [] && taken[|taken| - 1] == row
  {
  }

  lemma LastOnlyIsTooFew(rows: Rows)
    ensures !ManagedValues(rows, LastOnly(Taken(rows)))
  {
    Api.ManagedKeysDistinct();
    var values := LastOnly(Taken(rows));
    if ManagedValues(rows, values) {
      forall key | key == Api.DB_SCHEMAS || key == Api.DB_SEARCH_PATH ensures key in values {
        if Given(rows, key) {
          var i :| 0 <= i < |rows| && rows[i].0 == key;
          assert Managed(rows[i].0);
        }
      }
    }
  }

  /** Code that runs between the checks of the last loop too leaves one value proved, that of the last row checked:
      a key has a text in every accepted load exactly when they are that row. */
  lemma OnlyTheLastRowIsProved(rows: Rows, row: (string, string))
    ensures (forall values: Values, run: Interference ::
               var load := Load(rows, "pg_catalog", values, run); load.Some? ==> InForce(load.value, row))
            <==> Taken(rows) != [] && Taken(rows)[|Taken(rows)| - 1] == row
  {
    var run := FlickeringIsAccepted(rows);
    LastOnlyHolds(Taken(rows), row);
  }

  /** So no rows keep all the managed values against it. */
  lemma NoRowsKeepTheManagedValues(rows: Rows) returns (run: Interference)
    ensures var load := Load(rows, "pg_catalog", map[], run);
            load.Some? && !ManagedValues(rows, load.value)
  {
    run := FlickeringIsAccepted(rows);
    LastOnlyIsTooFew(rows);
  }

  // ------------------------------------------------------------ agreement with what `serving` reports

  /** After a load of written settings, the values in force name exactly what `serving` reports. */
  lemma InForceIsWhatServingReports(s: Api.Settings, searchPath: string, values: Values, lines: seq<string>)
    requires Api.Admitted(s) && Api.Carries(lines, Api.Rows(s))
    requires Load(Api.Rows(s), searchPath, values, Undisturbed).Some?
    ensures Agrees(Load(Api.Rows(s), searchPath, values, Undisturbed).value, Api.Serving(lines))
  {
    var rows := Api.Rows(s);
    LoadEndsInPlatformValues(rows, searchPath, values);
    Api.ServingRoundTrip(s, lines);
    PlatformValuesOfRows(s, Load(rows, searchPath, values, Undisturbed).value);
  }

  ghost predicate Agrees(force: Values, serving: Api.Settings) {
    && Api.DB_SCHEMAS in force && Listed(force[Api.DB_SCHEMAS]) == serving.schemas
    && Api.DB_SEARCH_PATH in force && Listed(force[Api.DB_SEARCH_PATH]) == serving.searchPath
    && match serving.maxRows
       case None => Api.DB_MAX_ROWS in force ==> force[Api.DB_MAX_ROWS] == ""
       case Some(n) => Api.DB_MAX_ROWS in force && AllDigits(force[Api.DB_MAX_ROWS]) && Value(force[Api.DB_MAX_ROWS]) == n
  }

  lemma RowsInForce(s: Api.Settings, force: Values)
    requires Api.Admitted(s) && ManagedValues(Api.Rows(s), force)
    ensures Api.DB_SCHEMAS in force && force[Api.DB_SCHEMAS] == Join(s.schemas)
    ensures Api.DB_SEARCH_PATH in force && force[Api.DB_SEARCH_PATH] == Join(s.searchPath)
    ensures s.maxRows.Some? ==> Api.DB_MAX_ROWS in force && force[Api.DB_MAX_ROWS] == Decimal(s.maxRows.value)
    ensures s.maxRows.None? && Api.DB_MAX_ROWS in force ==> force[Api.DB_MAX_ROWS] == ""
  {
    var rows := Api.Rows(s);
    assert Managed(rows[0].0) && Managed(rows[1].0);
    if s.maxRows.Some? {
      assert Managed(rows[2].0);
    } else {
      Api.ManagedKeysDistinct();
      assert |rows| == 2 && !Given(rows, Api.DB_MAX_ROWS);
    }
  }

  lemma PlatformValuesOfRows(s: Api.Settings, force: Values)
    requires Api.Admitted(s) && ManagedValues(Api.Rows(s), force)
    ensures Agrees(force, s)
  {
    RowsInForce(s, force);
    Api.AdmittedNamesAreSeparable(s.schemas, {});
    Api.AdmittedNamesAreSeparable(s.searchPath, Api.SEARCH_PATH_ALLOWED);
    JoinThenListed(s.schemas);
    JoinThenListed(s.searchPath);
    if s.maxRows.Some? {
      DecimalThenValue(s.maxRows.value);
    }
  }

  /** A list a restored archive brought may hold empty items; for one accepted row of schemas, what is in
      force and what `serving` reports are the same text exactly when it holds none. */
  lemma ArchivedListAgreesExactly(text: string)
    ensures var reported := Join(Api.OrDefault(Listed(text), Api.DEFAULT.schemas));
            reported == text <==> "" !in Split(text)
  {
    SplitThenJoin(text);
    NonEmptyLength(Split(text));
    if "" !in Split(text) {
      NonEmptyKeepsAll(Split(text));
    } else if Listed(text) == [] {
      NoneLeft(Split(text));
      if text == Api.PUBLIC {
        JoinThenListed([Api.PUBLIC]);
      }
    }
  }

  /** Such a list: two empty items are in force, and the default is reported. */
  lemma EmptyItemsDisagree()
    ensures Join(Api.OrDefault(Listed(","), Api.DEFAULT.schemas)) != ","
  {
    assert ","[1..] == "";
    assert Split("") == [""] && Split(",") == ["", ""];
    ArchivedListAgreesExactly(",");
  }

  lemma {:induction false} NonEmptyKeepsAll(items: seq<string>)
    requires "" !in items
    ensures NonEmpty(items) == items
  {
    if items != [] {
      NonEmptyKeepsAll(items[1..]);
    }
  }

  lemma {:induction false} NoneLeft(items: seq<string>)
    requires NonEmpty(items) == []
    ensures forall item <- items :: item == ""
  {
    if items != [] {
      NoneLeft(items[1..]);
      assert items == [items[0]] + items[1..];
    }
  }

  lemma {:induction false} NonEmptyLength(items: seq<string>)
    ensures |Join(NonEmpty(items))| <= |Join(items)|
    ensures "" in items && NonEmpty(items) != [] ==> |Join(NonEmpty(items))| < |Join(items)|
  {
    if items != [] {
      NonEmptyLength(items[1..]);
      var rest := NonEmpty(items[1..]);
      if items[0] != "" {
        assert NonEmpty(items)[1..] == rest;
      }
      if "" in items[1..] && rest == [] && items[0] != "" {
        assert NonEmpty(items) == [items[0]];
      }
    }
  }
}
