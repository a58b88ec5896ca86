/** lab/cluster_rebuild.py: an inventory becomes the SQL that creates its roles, and the record read back from the
    cluster that ran it is compared with the inventory. The cluster is an abstract machine over the statements the
    compiler writes; quoting is SqlText's. */
module RoleCompiler {
  import opened Prelude
  import opened SqlText
  import opened RoleInventory

  // ------------------------------------------------------------ statements

  datatype Options = Options(inherits: bool, sets: bool, admin: bool)

  /** The right hand side of SET: a literal, or the text of a list of names. */
  datatype Setting = LiteralText(text: string) | ListText(text: string)

  datatype Statement =
    | CreateIfMissing(name: string)
    | AlterRole(name: string, attributes: Attributes, login: bool, limit: int, password: Option<string>)
    | SetConfig(name: string, key: string, value: Setting)
    | GrantRole(role: string, member: string, options: Options)
    | GrantParameter(privilege: string, parameter: string, grantee: string)

  const LIST_SETTINGS: set<string> :=
    {"search_path", "temp_tablespaces", "session_preload_libraries", "local_preload_libraries"}

  /** `text.partition("=")[0]`. */
  function KeyOf(text: string): (key: string)
    ensures |key| <= |text|
  {
    if text == "" || text[0] == '=' then "" else [text[0]] + KeyOf(text[1..])
  }

  predicate HasValue(text: string) {
    |KeyOf(text)| < |text|
  }

  function ValueOf(text: string): string
    requires HasValue(text)
  {
    text[|KeyOf(text)| + 1..]
  }

  predicate KeyWritable(key: string) {
    && key != "" && ('a' <= key[0] <= 'z' || key[0] == '_')
    && forall i :: 0 <= i < |key| ==> 'a' <= key[i] <= 'z' || '0' <= key[i] <= '9' || key[i] == '_' || key[i] == '.'
  }

  /** `setting_sql`: none when the recorded text is malformed or cannot be written back. */
  function SettingSql(text: string, lists: set<string>): Option<Setting> {
    if !HasValue(text) || !KeyWritable(KeyOf(text)) then None
    else if KeyOf(text) in lists then (if Elements(ValueOf(text)).None? then None else Some(ListText(ValueOf(text))))
    else Some(LiteralText(ValueOf(text)))
  }

  predicate Writable(settings: seq<string>, lists: set<string>) {
    forall i :: 0 <= i < |settings| ==> SettingSql(settings[i], lists).Some?
  }

  function SettingStatements(name: string, settings: seq<string>, lists: set<string>): seq<Statement>
    requires Writable(settings, lists)
  {
    seq(|settings|, i requires 0 <= i < |settings| =>
      SetConfig(name, KeyOf(settings[i]), SettingSql(settings[i], lists).value))
  }

  predicate MayBeClosed(kind: Kind) {
    kind.Studio? || kind.Developer? || kind.Cron?
  }

  predicate OpenWithoutPassword(role: Role, known: map<string, string>) {
    role.canLogin == Some(true) && role.name !in known
  }

  /** A login that is created closed, because no password is kept for it. */
  predicate IsClosed(role: Role, known: map<string, string>) {
    OpenWithoutPassword(role, known) && MayBeClosed(role.kind)
  }

  predicate Compiles(role: Role, known: map<string, string>, lists: set<string>) {
    (OpenWithoutPassword(role, known) ==> MayBeClosed(role.kind)) && Writable(role.settings, lists)
  }

  function Opens(role: Role, known: map<string, string>): bool {
    role.canLogin == Some(true) && role.name in known
  }

  function RoleStatements(role: Role, known: map<string, string>, lists: set<string>): seq<Statement>
    requires Writable(role.settings, lists)
  {
    [CreateIfMissing(role.name),
     AlterRole(role.name, role.attributes, Opens(role, known), role.limit,
               if role.name in known then Some(known[role.name]) else None)]
    + SettingStatements(role.name, role.settings, lists)
  }

  function RoleGrants(role: Role): seq<Statement> {
    seq(|role.memberOf|, i requires 0 <= i < |role.memberOf| =>
      GrantRole(role.memberOf[i].role, role.name,
                Options(role.memberOf[i].inherits, role.memberOf[i].sets, role.memberOf[i].admin)))
  }

  predicate AllCompile(roles: seq<Role>, known: map<string, string>, lists: set<string>) {
    forall i :: 0 <= i < |roles| ==> Compiles(roles[i], known, lists)
  }

  function StatementsOf(roles: seq<Role>, known: map<string, string>, lists: set<string>): seq<Statement>
    requires AllCompile(roles, known, lists)
  {
    if roles == [] then []
    else
      assert Compiles(roles[|roles| - 1], known, lists);
      StatementsOf(roles[..|roles| - 1], known, lists) + RoleStatements(roles[|roles| - 1], known, lists)
  }

  function GrantsOf(roles: seq<Role>): seq<Statement> {
    if roles == [] then [] else GrantsOf(roles[..|roles| - 1]) + RoleGrants(roles[|roles| - 1])
  }

  function ClosedOf(roles: seq<Role>, known: map<string, string>): seq<string> {
    if roles == [] then []
    else
      var last := roles[|roles| - 1];
      ClosedOf(roles[..|roles| - 1], known) + (if IsClosed(last, known) then [last.name] else [])
  }

  function ParameterStatements(parameters: seq<Parameter>): seq<Statement> {
    seq(|parameters|, i requires 0 <= i < |parameters| =>
      GrantParameter(parameters[i].privilege, parameters[i].parameter, parameters[i].grantee))
  }

  function Compiled(inventory: Inventory, known: map<string, string>, lists: set<string>): seq<Statement>
    requires AllCompile(inventory.roles, known, lists)
  {
    StatementsOf(inventory.roles, known, lists) + GrantsOf(inventory.roles) + ParameterStatements(inventory.parameters)
  }

  /** `role_sql`: the statements and the logins created closed, or a refusal: a login that must open has no password,
      or a setting cannot be written. */
  method RoleSql(inventory: Inventory, known: map<string, string>, lists: set<string>)
    returns (refused: bool, statements: seq<Statement>, closed: seq<string>)
    ensures refused <==> !AllCompile(inventory.roles, known, lists)
    ensures !refused ==> statements == Compiled(inventory, known, lists) && closed == ClosedOf(inventory.roles, known)
  {
    var roles := inventory.roles;
    var grants: seq<Statement> := [];
    refused, statements, closed := false, [], [];
    for i := 0 to |roles|
      invariant AllCompile(roles[..i], known, lists)
      invariant statements == StatementsOf(roles[..i], known, lists)
      invariant grants == GrantsOf(roles[..i]) && closed == ClosedOf(roles[..i], known)
    {
      var role := roles[i];
      var settings, malformed := SettingsSql(role, lists);
      if (OpenWithoutPassword(role, known) && !MayBeClosed(role.kind)) || malformed {
        assert !Compiles(roles[i], known, lists);
        return true, [], [];
      }
      assert roles[..i + 1][..i] == roles[..i];
      if OpenWithoutPassword(role, known) { closed := closed + [role.name]; }
      statements := statements
        + ([CreateIfMissing(role.name),
            AlterRole(role.name, role.attributes, Opens(role, known), role.limit,
                      if role.name in known then Some(known[role.name]) else None)] + settings);
      grants := grants + RoleGrants(role);
    }
    assert roles[..|roles|] == roles;
    statements := statements + grants + ParameterStatements(inventory.parameters);
  }

  method SettingsSql(role: Role, lists: set<string>) returns (statements: seq<Statement>, malformed: bool)
    ensures malformed <==> !Writable(role.settings, lists)
    ensures !malformed ==> statements == SettingStatements(role.name, role.settings, lists)
  {
    statements, malformed := [], false;
    for i := 0 to |role.settings|
      invariant Writable(role.settings[..i], lists)
      invariant |statements| == i && forall j :: 0 <= j < i ==>
                  statements[j] == SetConfig(role.name, KeyOf(role.settings[j]), SettingSql(role.settings[j], lists).value)
    {
      var written := SettingSql(role.settings[i], lists);
      if written.None? { return [], true; }
      statements := statements + [SetConfig(role.name, KeyOf(role.settings[i]), written.value)];
    }
  }

  /** What is refused: a login recorded open whose password is not kept, unless it is a Studio, developer or scheduler
      login, which is created closed instead; or a setting that cannot be written. */
  lemma RefusedExactly(roles: seq<Role>, known: map<string, string>, lists: set<string>)
    ensures AllCompile(roles, known, lists) <==>
              forall i :: 0 <= i < |roles| ==>
                && (roles[i].canLogin == Some(true) && roles[i].name !in known ==>
                      roles[i].kind == Studio || roles[i].kind == Developer || roles[i].kind == Cron)
                && Writable(roles[i].settings, lists)
    ensures forall i :: 0 <= i < |roles| ==>
              (IsClosed(roles[i], known) <==>
                 && roles[i].canLogin == Some(true) && roles[i].name !in known
                 && (roles[i].kind == Studio || roles[i].kind == Developer || roles[i].kind == Cron))
  {
    forall i | 0 <= i < |roles|
      ensures Compiles(roles[i], known, lists) <==>
                && (roles[i].canLogin == Some(true) && roles[i].name !in known ==>
                      roles[i].kind == Studio || roles[i].kind == Developer || roles[i].kind == Cron)
                && Writable(roles[i].settings, lists)
    {
    }
  }

  /** What a recorded setting is written back as: its key is a plain lower case name, and a list setting's value a list of
      names, or it cannot be. */
  lemma SettingsWrittenExactly(key: string, value: string, lists: set<string>)
    requires '=' !in key
    ensures SettingSql(key + "=" + value, lists) ==
            if key == "" || !('a' <= key[0] <= 'z' || key[0] == '_')
               || (exists c <- key :: !('a' <= c <= 'z' || '0' <= c <= '9' || c == '_' || c == '.')) then None
            else if key !in lists then Some(LiteralText(value))
            else if Elements(value).Some? then Some(ListText(value)) else None
  {
    KeyOfJoined(key, value);
    assert (key + "=" + value)[|key| + 1..] == value;
    if exists c <- key :: !('a' <= c <= 'z' || '0' <= c <= '9' || c == '_' || c == '.') {
      var c :| c in key && !('a' <= c <= 'z' || '0' <= c <= '9' || c == '_' || c == '.');
      var i :| 0 <= i < |key| && key[i] == c;
      assert !KeyWritable(key);
    } else {
      forall i | 0 <= i < |key| ensures 'a' <= key[i] <= 'z' || '0' <= key[i] <= '9' || key[i] == '_' || key[i] == '.' {
        assert key[i] in key;
      }
    }
  }

  lemma {:induction false} KeyOfJoined(key: string, value: string)
    requires forall i :: 0 <= i < |key| ==> key[i] != '='
    ensures KeyOf(key + "=" + value) == key
    decreases |key|
  {
    var text := key + "=" + value;
    if key == "" {
      assert text[0] == '=';
    } else {
      assert text[1..] == key[1..] + "=" + value;
      KeyOfJoined(key[1..], value);
      assert [key[0]] + key[1..] == key;
    }
  }

  /** The logins created closed are exactly the passwordless Studio, developer and scheduler logins recorded open. */
  lemma {:induction false} ClosedExactly(roles: seq<Role>, known: map<string, string>, name: string)
    ensures name in ClosedOf(roles, known) <==> exists i :: 0 <= i < |roles| && roles[i].name == name && IsClosed(roles[i], known)
    decreases |roles|
  {
    if roles != [] {
      ClosedExactly(roles[..|roles| - 1], known, name);
      assert roles[|roles| - 1] == roles[..][|roles| - 1];
    }
  }

  // ------------------------------------------------------------ the cluster that runs them

  datatype Account = Account(attributes: Attributes, login: bool, limit: int, password: Option<string>, settings: seq<string>)

  /** Memberships are by member and role, parameter privileges by parameter, grantee and privilege. */
  datatype Cluster = Cluster(roles: map<string, Account>, members: map<(string, string), Options>, acl: set<Parameter>)

  datatype Server = Server(words: Words, privileges: set<string>)

  const FRESH := Account(Attributes(false, true, false, false, false, false), false, -1, None, [])

  /** ALTER ROLE SET replaces a setting of the same name where it stands, or adds it at the end. */
  function Put(settings: seq<string>, text: string): seq<string> {
    if settings == [] then [text]
    else if KeyOf(settings[0]) == KeyOf(text) then [text] + settings[1..]
    else [settings[0]] + Put(settings[1..], text)
  }

  function StoredValue(value: Setting, server: Server): Option<string> {
    match value
    case LiteralText(text) => Some(text)
    case ListText(text) => StoredList(text, server.words)
  }

  predicate LimitTaken(limit: int) {
    -1 <= limit <= 0x7fff_ffff
  }

  /** One statement; none when PostgreSQL refuses it. */
  function Exec(c: Cluster, s: Statement, server: Server): Option<Cluster> {
    match s
    case CreateIfMissing(name) => if name in c.roles then Some(c) else Some(c.(roles := c.roles[name := FRESH]))
    case AlterRole(name, attributes, login, limit, password) =>
      if name !in c.roles || !LimitTaken(limit) then None
      else
        var kept := if password.Some? then password else c.roles[name].password;
        Some(c.(roles := c.roles[name := Account(attributes, login, limit, kept, c.roles[name].settings)]))
    case SetConfig(name, key, value) =>
      if name !in c.roles || StoredValue(value, server).None? then None
      else
        var text := key + "=" + StoredValue(value, server).value;
        Some(c.(roles := c.roles[name := c.roles[name].(settings := Put(c.roles[name].settings, text))]))
    case GrantRole(role, member, options) =>
      if role !in c.roles || member !in c.roles || role == member then None
      else Some(c.(members := c.members[(member, role) := options]))
    case GrantParameter(privilege, parameter, grantee) =>
      if privilege !in server.privileges || grantee !in c.roles then None
      else Some(c.(acl := c.acl + {Parameter(parameter, grantee, privilege)}))
  }

  function Execute(c: Cluster, statements: seq<Statement>, server: Server): Option<Cluster> {
    if statements == [] then Some(c)
    else
      var before := Execute(c, statements[..|statements| - 1], server);
      if before.None? then None else Exec(before.value, statements[|statements| - 1], server)
  }

  function Then(c: Option<Cluster>, statements: seq<Statement>, server: Server): Option<Cluster> {
    if c.None? then None else Execute(c.value, statements, server)
  }

  lemma {:induction false} ExecuteConcat(c: Cluster, a: seq<Statement>, b: seq<Statement>, server: Server)
    ensures Execute(c, a + b, server) == Then(Execute(c, a, server), b, server)
    decreases |b|
  {
    if b == [] {
      assert a + b == a;
    } else {
      ExecuteConcat(c, a, b[..|b| - 1], server);
      assert (a + b)[..|a + b| - 1] == a + b[..|b| - 1];
    }
  }
}
