/** lab/cluster_inventory.py: the managed roles of a cluster as a backup run records them, the rule each kind keeps,
    and when a rebuild may rely on a record. The names of the managed roles are a parameter of the model; what
    QUERY returns is typed, so a malformed row is not part of it. */
module RoleInventory {
  import opened Prelude

  datatype Kind =
    | Auth | Rest | Storage | Studio | Realtime | Developer | Cron
    | StorageControl | ManagementAuth | RealtimeAdmin

  datatype Attributes = Attributes(superuser: bool, inherits: bool, createRole: bool, createDb: bool, replication: bool,
                                   bypassRls: bool)

  datatype Grant = Grant(role: string, inherits: bool, sets: bool, admin: bool)

  datatype Role = Role(name: string, kind: Kind, environment: Option<string>, attributes: Attributes,
                       canLogin: Option<bool>, limit: int, memberOf: seq<Grant>, settings: seq<string>)

  datatype Parameter = Parameter(parameter: string, grantee: string, privilege: string)

  datatype Refusal =
    | UnexpectedRow(name: string)
    | BreaksItsRule(name: string)
    | NoLoginState(name: string)
    | CanLogin(name: string)

  datatype Inventory = Inventory(image: string, roles: seq<Role>, parameters: seq<Parameter>, refusals: seq<Refusal>)

  /** A role as QUERY returns it. */
  datatype Row = Row(name: string, attributes: Attributes, canLogin: bool, limit: int, memberOf: seq<Grant>,
                     settings: seq<string>)

  /** The names of the cluster roles, and the endings of an environment's roles. */
  datatype Names = Names(cluster: map<string, Kind>, endings: map<string, Kind>)

  const MANAGED := Names(
    map["storage_control" := StorageControl, "management_auth" := ManagementAuth, "supabase_realtime_admin" := RealtimeAdmin],
    map["auth" := Auth, "rest" := Rest, "storage" := Storage, "studio" := Studio, "realtime" := Realtime,
        "developer" := Developer, "cron" := Cron])

  predicate Hex(text: string) {
    forall i :: 0 <= i < |text| ==> 'a' <= text[i] <= 'f' || '0' <= text[i] <= '9'
  }

  /** The kind and environment of a managed role name. */
  function Classify(name: string, names: Names): Option<(Kind, Option<string>)> {
    if name in names.cluster then Some((names.cluster[name], None))
    else if |name| >= 27 && name[0] == 'e' && name[1] == '_' && Hex(name[2..26]) && name[26] == '_' && name[27..] in names.endings
    then Some((names.endings[name[27..]], Some(name[..26])))
    else None
  }

  /** The attributes the runtime gives a kind. */
  function Rule(kind: Kind): Attributes {
    match kind
    case Studio => Attributes(false, false, false, false, false, true)
    case Developer => Attributes(false, true, false, false, false, true)
    case Realtime => Attributes(false, true, false, false, true, false)
    case _ => Attributes(false, false, false, false, false, false)
  }

  function RoleRefusals(role: Role, names: Names): seq<Refusal> {
    var found := Classify(role.name, names);
    if found.None? then [UnexpectedRow(role.name)]
    else
      (if role.attributes != Rule(found.value.0) then [BreaksItsRule(role.name)] else [])
      + (if role.canLogin.None? then [NoLoginState(role.name)]
         else if found.value.0.RealtimeAdmin? && role.canLogin.value then [CanLogin(role.name)] else [])
  }

  /** A role recorded as its kind's rule keeps it. */
  predicate Holds(role: Role, names: Names) {
    && Classify(role.name, names) == Some((role.kind, role.environment))
    && role.attributes == Rule(role.kind)
    && role.canLogin.Some? && (role.kind.RealtimeAdmin? ==> !role.canLogin.value)
  }

  /** What no kept role may be, and the few that are more than plain logins. */
  lemma NoManagedRoleRules(role: Role, names: Names)
    requires Holds(role, names)
    ensures !role.attributes.superuser && !role.attributes.createRole && !role.attributes.createDb
    ensures role.attributes.bypassRls <==> role.kind.Studio? || role.kind.Developer?
    ensures role.attributes.replication <==> role.kind.Realtime?
    ensures role.attributes.inherits <==> role.kind.Realtime? || role.kind.Developer?
  {
  }

  /** An environment's role is named by its environment, `e_` and 24 hexadecimal digits, and the ending of its kind; any
      other name is one of the cluster's own, or no managed role. */
  lemma ClassifiedExactly(name: string, names: Names, kind: Kind, environment: Option<string>)
    ensures Classify(name, names) == Some((kind, environment)) <==>
            || (name in names.cluster && kind == names.cluster[name] && environment.None?)
            || (&& name !in names.cluster && environment.Some? && |environment.value| == 26 && environment.value[..2] == "e_"
                && (forall c <- environment.value[2..] :: c in "0123456789abcdef")
                && exists ending <- names.endings :: name == environment.value + "_" + ending && kind == names.endings[ending])
  {
    if environment.Some? && |environment.value| == 26 {
      HexMeans(environment.value[2..]);
    }
    if Classify(name, names) == Some((kind, environment)) && name !in names.cluster {
      var ending := name[27..];
      assert environment.value == name[..26] && name == name[..26] + "_" + ending;
      assert environment.value[2..] == name[2..26];
      HexMeans(name[2..26]);
      assert environment.value[..2] == "e_";
    }
    if name !in names.cluster && environment.Some? && |environment.value| == 26 && environment.value[..2] == "e_" {
      var e := environment.value;
      if ending :| ending in names.endings && name == e + "_" + ending {
        assert name[27..] == ending && name[..26] == e && name[2..26] == e[2..] && name[26] == '_';
        assert e[..2][0] == 'e' && e[..2][1] == '_';
      }
    }
  }

  lemma HexMeans(text: string)
    ensures Hex(text) <==> forall c <- text :: c in "0123456789abcdef"
  {
    if Hex(text) {
      forall c <- text ensures c in "0123456789abcdef" {
        var i :| 0 <= i < |text| && text[i] == c;
        HexDigit(c);
      }
    }
    if forall c <- text :: c in "0123456789abcdef" {
      forall i | 0 <= i < |text| ensures 'a' <= text[i] <= 'f' || '0' <= text[i] <= '9' {
        assert text[i] in text;
        HexDigit(text[i]);
      }
    }
  }

  lemma HexDigit(c: char)
    ensures c in "0123456789abcdef" <==> 'a' <= c <= 'f' || '0' <= c <= '9'
  {
    var digits := "0123456789abcdef";
    if '0' <= c <= '9' { assert digits[c as int - '0' as int] == c; }
    if 'a' <= c <= 'f' { assert digits[10 + (c as int - 'a' as int)] == c; }
  }

  predicate ImageNamed(image: string) {
    |image| == 71 && image[..7] == "sha256:" && Hex(image[7..])
  }

  ghost predicate DistinctNames(roles: seq<Role>) {
    forall i, j :: 0 <= i < j < |roles| ==> roles[i].name != roles[j].name
  }

  /** A rebuild may rely on the record. */
  ghost predicate Reliable(record: Inventory, names: Names) {
    && record.refusals == [] && ImageNamed(record.image) && DistinctNames(record.roles)
    && forall i :: 0 <= i < |record.roles| ==> Holds(record.roles[i], names)
  }

  /** `usable` finds no problem exactly when every role is named once, recorded under its kind and environment, and
      keeps its rule. */
  method Usable(record: Inventory, names: Names) returns (usable: bool)
    ensures usable <==> Reliable(record, names)
  {
    usable := record.refusals == [] && ImageNamed(record.image);
    var seen: set<string> := {};
    for i := 0 to |record.roles|
      invariant seen == set j | 0 <= j < i :: record.roles[j].name
      invariant usable <==> (record.refusals == [] && ImageNamed(record.image)
                             && (forall j :: 0 <= j < i ==> Holds(record.roles[j], names))
                             && (forall j, k :: 0 <= j < k < i ==> record.roles[j].name != record.roles[k].name))
    {
      var role := record.roles[i];
      var found := Classify(role.name, names);
      if found.Some? && (role.kind, role.environment) != found.value { usable := false; }
      if role.name in seen { usable := false; }
      seen := seen + {role.name};
      if RoleRefusals(role, names) != [] { usable := false; }
    }
  }

  // ------------------------------------------------------------ sorting

  /** The order of two texts by their characters. */
  predicate AtMost(a: string, b: string) {
    a == "" || (b != "" && (a[0] < b[0] || (a[0] == b[0] && AtMost(a[1..], b[1..]))))
  }

  lemma {:induction false} OrderIsTotal(a: string, b: string)
    ensures AtMost(a, b) || AtMost(b, a)
    ensures AtMost(a, b) && AtMost(b, a) ==> a == b
    decreases |a|
  {
    if a != "" && b != "" && a[0] == b[0] {
      OrderIsTotal(a[1..], b[1..]);
      assert a == [a[0]] + a[1..] && b == [b[0]] + b[1..];
    }
  }

  lemma {:induction false} OrderIsTransitive(a: string, b: string, c: string)
    requires AtMost(a, b) && AtMost(b, c)
    ensures AtMost(a, c)
    decreases |a|
  {
    if a != "" && a[0] == b[0] && b[0] == c[0] { OrderIsTransitive(a[1..], b[1..], c[1..]); }
  }

  function Insert<T>(x: T, xs: seq<T>, key: T -> string): seq<T> {
    if xs == [] || AtMost(key(x), key(xs[0])) then [x] + xs else [xs[0]] + Insert(x, xs[1..], key)
  }

  /** `sorted(xs, key=key)`. */
  function SortBy<T>(xs: seq<T>, key: T -> string): seq<T> {
    if xs == [] then [] else Insert(xs[0], SortBy(xs[1..], key), key)
  }

  predicate Ascends<T>(xs: seq<T>, key: T -> string) {
    |xs| < 2 || (AtMost(key(xs[0]), key(xs[1])) && Ascends(xs[1..], key))
  }

  lemma {:induction false} InsertSorts<T>(x: T, xs: seq<T>, key: T -> string)
    requires Ascends(xs, key)
    ensures Ascends(Insert(x, xs, key), key) && multiset(Insert(x, xs, key)) == multiset{x} + multiset(xs)
    decreases |xs|
  {
    if xs == [] || AtMost(key(x), key(xs[0])) {
      assert ([x] + xs)[1..] == xs;
    } else {
      InsertSorts(x, xs[1..], key);
      var tail := Insert(x, xs[1..], key);
      assert ([xs[0]] + tail)[1..] == tail;
      OrderIsTotal(key(x), key(xs[0]));
      assert xs == [xs[0]] + xs[1..];
      if xs[1..] != [] && !AtMost(key(x), key(xs[1..][0])) { assert tail[0] == xs[1]; }
    }
  }

  lemma {:induction false} SortSorts<T>(xs: seq<T>, key: T -> string)
    ensures Ascends(SortBy(xs, key), key) && multiset(SortBy(xs, key)) == multiset(xs)
    decreases |xs|
  {
    if xs != [] {
      SortSorts(xs[1..], key);
      InsertSorts(xs[0], SortBy(xs[1..], key), key);
      assert xs == [xs[0]] + xs[1..];
    }
  }

  lemma {:induction false} FirstIsLeast<T>(xs: seq<T>, key: T -> string, x: T)
    requires Ascends(xs, key) && x in multiset(xs)
    ensures xs != [] && AtMost(key(xs[0]), key(x))
    decreases |xs|
  {
    assert xs == [xs[0]] + xs[1..];
    if x == xs[0] {
      OrderIsTotal(key(x), key(x));
    } else {
      FirstIsLeast(xs[1..], key, x);
      OrderIsTransitive(key(xs[0]), key(xs[1]), key(x));
    }
  }

  ghost predicate KeysTell<T(!new)>(xs: seq<T>, key: T -> string) {
    forall x, y :: x in multiset(xs) && y in multiset(xs) && key(x) == key(y) ==> x == y
  }

  lemma HeadsAgree<T(!new)>(xs: seq<T>, ys: seq<T>, key: T -> string)
    requires xs != [] && Ascends(xs, key) && Ascends(ys, key) && multiset(xs) == multiset(ys) && KeysTell(xs, key)
    ensures ys != [] && xs[0] == ys[0]
  {
    assert xs[0] in multiset(xs);
    FirstIsLeast(ys, key, xs[0]);
    assert ys[0] in multiset(ys);
    FirstIsLeast(xs, key, ys[0]);
    OrderIsTotal(key(xs[0]), key(ys[0]));
  }

  lemma TailsAgree<T>(xs: seq<T>, ys: seq<T>)
    requires xs != [] && ys != [] && xs[0] == ys[0] && multiset(xs) == multiset(ys)
    ensures multiset(xs[1..]) == multiset(ys[1..]) && multiset(xs[1..]) <= multiset(xs)
  {
    assert xs == [xs[0]] + xs[1..] && ys == [ys[0]] + ys[1..];
    assert multiset(xs[1..]) == multiset(xs) - multiset{xs[0]};
    assert multiset(ys[1..]) == multiset(ys) - multiset{ys[0]};
  }

  /** Two sorted lists of the same elements are the same list, when elements with the same key are the same. */
  lemma {:induction false} SortedIsUnique<T(!new)>(xs: seq<T>, ys: seq<T>, key: T -> string)
    requires Ascends(xs, key) && Ascends(ys, key) && multiset(xs) == multiset(ys) && KeysTell(xs, key)
    ensures xs == ys
    decreases |xs|
  {
    if xs == [] {
      assert |multiset(ys)| == 0;
    } else {
      HeadsAgree(xs, ys, key);
      TailsAgree(xs, ys);
      assert KeysTell(xs[1..], key);
      SortedIsUnique(xs[1..], ys[1..], key);
      assert xs == [xs[0]] + xs[1..] && ys == [ys[0]] + ys[1..];
    }
  }

  /** A list is what sorting makes of another exactly when it is sorted and holds the same elements. */
  lemma SortedExactly<T(!new)>(xs: seq<T>, ys: seq<T>, key: T -> string)
    requires KeysTell(xs, key)
    ensures SortBy(xs, key) == ys <==> Ascends(ys, key) && multiset(xs) == multiset(ys)
  {
    SortSorts(xs, key);
    if Ascends(ys, key) && multiset(xs) == multiset(ys) {
      assert KeysTell(SortBy(xs, key), key);
      SortedIsUnique(SortBy(xs, key), ys, key);
    }
  }

  // ------------------------------------------------------------ the record of a cluster

  function TextKey(text: string): string { text }

  function GrantKey(grant: Grant): string { grant.role }

  function RoleKey(role: Role): string { role.name }

  /** A row as the record keeps it. */
  function Recorded(row: Row, names: Names): Role
    requires Classify(row.name, names).Some?
  {
    var found := Classify(row.name, names).value;
    Role(row.name, found.0, found.1, row.attributes, Some(row.canLogin), row.limit, SortBy(row.memberOf, GrantKey),
         SortBy(row.settings, TextKey))
  }

  function RolesOf(rows: seq<Row>, names: Names): seq<Role> {
    if rows == [] then []
    else
      var front := RolesOf(rows[..|rows| - 1], names);
      var row := rows[|rows| - 1];
      if Classify(row.name, names).None? then front else front + [Recorded(row, names)]
  }

  function RefusalsOf(rows: seq<Row>, names: Names): seq<Refusal> {
    if rows == [] then []
    else
      var front := RefusalsOf(rows[..|rows| - 1], names);
      var row := rows[|rows| - 1];
      if Classify(row.name, names).None? then front + [UnexpectedRow(row.name)]
      else front + RoleRefusals(Recorded(row, names), names)
  }

  method FromRows(rows: seq<Row>, parameters: seq<Parameter>, image: string, names: Names) returns (record: Inventory)
    ensures record == Inventory(image, SortBy(RolesOf(rows, names), RoleKey), parameters, RefusalsOf(rows, names))
  {
    var roles: seq<Role>, refusals: seq<Refusal> := [], [];
    for i := 0 to |rows|
      invariant roles == RolesOf(rows[..i], names) && refusals == RefusalsOf(rows[..i], names)
    {
      assert rows[..i + 1][..i] == rows[..i];
      if Classify(rows[i].name, names).None? {
        refusals := refusals + [UnexpectedRow(rows[i].name)];
      } else {
        var role := Recorded(rows[i], names);
        refusals := refusals + RoleRefusals(role, names);
        roles := roles + [role];
      }
    }
    assert rows[..|rows|] == rows;
    record := Inventory(image, SortBy(roles, RoleKey), parameters, refusals);
  }

  /** The record of rows that all keep their rule refuses nothing, and it is itself one a rebuild may rely on. */
  lemma {:induction false} KeptRowsRefuseNothing(rows: seq<Row>, names: Names)
    requires forall i :: 0 <= i < |rows| ==> Classify(rows[i].name, names).Some? && Holds(Recorded(rows[i], names), names)
    ensures RefusalsOf(rows, names) == []
    ensures |RolesOf(rows, names)| == |rows| && forall i :: 0 <= i < |rows| ==> RolesOf(rows, names)[i] == Recorded(rows[i], names)
    decreases |rows|
  {
    if rows != [] { KeptRowsRefuseNothing(rows[..|rows| - 1], names); }
  }
}
