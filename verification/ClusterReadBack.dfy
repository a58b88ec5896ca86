/** lab/cluster_rebuild.py, `rebuild`: the compiled statements run on a cluster that held only the image's roles, and
    the record read back from it compares equal to the inventory exactly when that is canonical. */
module ClusterReadBack {
  import opened Prelude
  import opened SqlText
  import opened RoleInventory
  import opened RoleCompiler
  import opened RoleRebuild

  // ------------------------------------------------------------ one role

  /** What a SET statement makes PostgreSQL store, if it takes the value. */
  function TextOf(s: Statement, server: Server): Option<string>
    requires s.SetConfig?
  {
    if StoredValue(s.value, server).None? then None else Some(s.key + "=" + StoredValue(s.value, server).value)
  }

  /** Statements that set `texts`, of which none is refused. */
  ghost predicate Sets(statements: seq<Statement>, name: string, texts: seq<string>, server: Server) {
    && |texts| == |statements|
    && forall i :: 0 <= i < |texts| ==> SetsText(statements[i], name, texts[i], server)
  }

  ghost predicate SetsText(s: Statement, name: string, text: string, server: Server) {
    s.SetConfig? && s.name == name && TextOf(s, server) == Some(text)
  }

  function WithSettings(c: Cluster, name: string, settings: seq<string>): Cluster
    requires name in c.roles
  {
    c.(roles := c.roles[name := c.roles[name].(settings := settings)])
  }

  lemma SetsOneMore(c: Cluster, name: string, settings: seq<string>, s: Statement, text: string, server: Server)
    requires name in c.roles && SetsText(s, name, text, server)
    ensures Exec(WithSettings(c, name, settings), s, server) == Some(WithSettings(c, name, Put(settings, text)))
  {
    var d := WithSettings(c, name, settings);
    assert d.roles[name := d.roles[name].(settings := Put(settings, text))] ==
           c.roles[name := c.roles[name].(settings := Put(settings, text))];
  }

  lemma {:induction false} SetsExecuted(c: Cluster, name: string, statements: seq<Statement>, texts: seq<string>, server: Server)
    requires name in c.roles && Sets(statements, name, texts, server)
    ensures Execute(c, statements, server) == Some(WithSettings(c, name, PutAll(c.roles[name].settings, texts)))
    decreases |texts|
  {
    if texts == [] {
      assert c.roles[name := c.roles[name].(settings := PutAll(c.roles[name].settings, []))] == c.roles;
    } else {
      var n := |texts| - 1;
      assert Sets(statements[..n], name, texts[..n], server) by {
        assert forall i :: 0 <= i < n ==> SetsText(statements[i], name, texts[i], server);
      }
      SetsExecuted(c, name, statements[..n], texts[..n], server);
      SetsOneMore(c, name, PutAll(c.roles[name].settings, texts[..n]), statements[n], texts[n], server);
    }
  }

  lemma {:induction false} RefusedStops(c: Cluster, statements: seq<Statement>, i: nat, server: Server)
    requires i < |statements| && statements[i].SetConfig? && TextOf(statements[i], server).None?
    ensures Execute(c, statements, server).None?
    decreases |statements|
  {
    if i < |statements| - 1 { RefusedStops(c, statements[..|statements| - 1], i, server); }
  }

  lemma SettingsExecuted(c: Cluster, name: string, settings: seq<string>, lists: set<string>, server: Server)
    requires Writable(settings, lists) && name in c.roles
    ensures Execute(c, SettingStatements(name, settings, lists), server) ==
            if AllStored(settings, lists, server)
            then Some(WithSettings(c, name, PutAll(c.roles[name].settings, StoredAll(settings, lists, server))))
            else None
  {
    var statements := SettingStatements(name, settings, lists);
    if AllStored(settings, lists, server) {
      var texts := StoredAll(settings, lists, server);
      forall i | 0 <= i < |texts| ensures SetsText(statements[i], name, texts[i], server) {
        assert StoredText(settings[i], lists, server).Some?;
      }
      SetsExecuted(c, name, statements, texts, server);
    } else {
      var i :| 0 <= i < |settings| && StoredText(settings[i], lists, server).None?;
      RefusedStops(c, statements, i, server);
    }
  }

  predicate RoleRuns(role: Role, lists: set<string>, server: Server) {
    LimitTaken(role.limit) && AllStored(role.settings, lists, server)
  }

  /** The password the cluster held for a role before. */
  function Held(c: Cluster, name: string): Option<string> {
    if name in c.roles then c.roles[name].password else None
  }

  /** The account a recorded role becomes: open exactly when it is recorded open and its password is kept, with the
      kept password, or the one it had where none is kept. */
  predicate MadeAs(account: Account, held: Option<string>, role: Role, known: map<string, string>, lists: set<string>,
                   server: Server) {
    && account.attributes == role.attributes && account.limit == role.limit
    && (account.login <==> role.canLogin == Some(true) && role.name in known)
    && (if role.name in known then account.password == Some(known[role.name]) else account.password == held)
    && AllStored(role.settings, lists, server)
    && account.settings == PutAll([], StoredAll(role.settings, lists, server))
  }

  ghost predicate OnlyRole(c: Cluster, d: Cluster, name: string) {
    && d.members == c.members && d.acl == c.acl && name in d.roles
    && d.roles.Keys == c.roles.Keys + {name} && forall n :: n in c.roles && n != name ==> d.roles[n] == c.roles[n]
  }

  lemma RoleExecuted(c: Cluster, role: Role, known: map<string, string>, lists: set<string>, server: Server)
    requires Writable(role.settings, lists) && (role.name in c.roles ==> c.roles[role.name].settings == [])
    ensures var d := Execute(c, RoleStatements(role, known, lists), server);
            && (d.Some? <==> RoleRuns(role, lists, server))
            && (d.Some? ==> OnlyRole(c, d.value, role.name) && MadeAs(d.value.roles[role.name], Held(c, role.name), role, known, lists, server))
  {
    var password := if role.name in known then Some(known[role.name]) else None;
    var create := CreateIfMissing(role.name);
    var alter := AlterRole(role.name, role.attributes, Opens(role, known), role.limit, password);
    var settings := SettingStatements(role.name, role.settings, lists);
    assert RoleStatements(role, known, lists) == [create, alter] + settings;
    ExecuteConcat(c, [create, alter], settings, server);
    var c1 := Exec(c, create, server).value;
    var after := Exec(c1, alter, server);
    TwoStatements(c, create, alter, server);
    if after.Some? {
      assert after.value.roles[role.name].settings == [];
      SettingsExecuted(after.value, role.name, role.settings, lists, server);
    }
  }

  lemma TwoStatements(c: Cluster, a: Statement, b: Statement, server: Server)
    requires Exec(c, a, server).Some?
    ensures Execute(c, [a, b], server) == Exec(Exec(c, a, server).value, b, server)
  {
    assert [a, b][..1] == [a] && [a][..0] == [];
    assert Execute(c, [a], server) == Exec(c, a, server) by { assert Execute(c, [], server) == Some(c); }
  }

  // ------------------------------------------------------------ every role

  function NamesOf(roles: seq<Role>): set<string> {
    set i | 0 <= i < |roles| :: roles[i].name
  }

  ghost predicate Bare(c: Cluster, roles: seq<Role>) {
    forall i :: 0 <= i < |roles| && roles[i].name in c.roles ==> c.roles[roles[i].name].settings == []
  }

  ghost predicate RolesMade(c: Cluster, d: Cluster, roles: seq<Role>, known: map<string, string>, lists: set<string>, server: Server) {
    && d.members == c.members && d.acl == c.acl
    && d.roles.Keys == c.roles.Keys + NamesOf(roles)
    && (forall n :: n in c.roles && n !in NamesOf(roles) ==> d.roles[n] == c.roles[n])
    && (forall i :: 0 <= i < |roles| ==> Made(c, d, roles[i], known, lists, server))
  }

  ghost predicate Made(c: Cluster, d: Cluster, role: Role, known: map<string, string>, lists: set<string>, server: Server) {
    role.name in d.roles && MadeAs(d.roles[role.name], Held(c, role.name), role, known, lists, server)
  }

  ghost predicate RolesRun(roles: seq<Role>, lists: set<string>, server: Server) {
    forall i :: 0 <= i < |roles| ==> RoleRuns(roles[i], lists, server)
  }

  lemma FrontOfRoles(roles: seq<Role>, n: nat)
    requires DistinctNames(roles) && |roles| == n + 1
    ensures DistinctNames(roles[..n]) && roles[n].name !in NamesOf(roles[..n])
    ensures NamesOf(roles) == NamesOf(roles[..n]) + {roles[n].name}
    ensures forall i :: 0 <= i < n ==> roles[..n][i] == roles[i]
  {
  }

  lemma RolesRunSplit(roles: seq<Role>, n: nat, lists: set<string>, server: Server)
    requires |roles| == n + 1
    ensures RolesRun(roles, lists, server) <==> RolesRun(roles[..n], lists, server) && RoleRuns(roles[n], lists, server)
  {
    assert forall i :: 0 <= i < |roles| ==> roles[i] == if i < n then roles[..n][i] else roles[n];
  }

  lemma {:induction false} RolesExecuted(c: Cluster, roles: seq<Role>, known: map<string, string>, lists: set<string>, server: Server)
    requires AllCompile(roles, known, lists) && DistinctNames(roles) && Bare(c, roles)
    ensures var d := Execute(c, StatementsOf(roles, known, lists), server);
            && (d.Some? <==> RolesRun(roles, lists, server))
            && (d.Some? ==> RolesMade(c, d.value, roles, known, lists, server))
    decreases |roles|
  {
    if roles != [] {
      var n := |roles| - 1;
      var front, last := roles[..n], roles[n];
      FrontOfRoles(roles, n);
      assert Compiles(last, known, lists);
      RolesExecuted(c, front, known, lists, server);
      var before := Execute(c, StatementsOf(front, known, lists), server);
      ExecuteConcat(c, StatementsOf(front, known, lists), RoleStatements(last, known, lists), server);
      RolesRunSplit(roles, n, lists, server);
      if before.Some? {
        assert last.name in before.value.roles ==> last.name in c.roles && before.value.roles[last.name] == c.roles[last.name];
        RoleExecuted(before.value, last, known, lists, server);
        var after := Execute(before.value, RoleStatements(last, known, lists), server);
        if after.Some? { OneMoreRole(c, before.value, after.value, roles, known, lists, server); }
      }
    }
  }

  lemma OneMoreRole(c: Cluster, d: Cluster, e: Cluster, roles: seq<Role>, known: map<string, string>, lists: set<string>, server: Server)
    requires roles != [] && DistinctNames(roles)
    requires RolesMade(c, d, roles[..|roles| - 1], known, lists, server)
    requires var last := roles[|roles| - 1];
             OnlyRole(d, e, last.name) && MadeAs(e.roles[last.name], Held(d, last.name), last, known, lists, server)
    ensures RolesMade(c, e, roles, known, lists, server)
  {
    var n := |roles| - 1;
    FrontOfRoles(roles, n);
    assert Held(d, roles[n].name) == Held(c, roles[n].name);
    assert Made(c, e, roles[n], known, lists, server);
    forall i | 0 <= i < n ensures Made(c, e, roles[i], known, lists, server) {
      EarlierRoleStaysMade(c, d, e, roles, n, i, known, lists, server);
    }
  }

  lemma EarlierRoleStaysMade(c: Cluster, d: Cluster, e: Cluster, roles: seq<Role>, n: nat, i: nat, known: map<string, string>,
                             lists: set<string>, server: Server)
    requires DistinctNames(roles) && i < n < |roles| && OnlyRole(d, e, roles[n].name)
    requires RolesMade(c, d, roles[..n], known, lists, server)
    ensures Made(c, e, roles[i], known, lists, server)
  {
    assert Made(c, d, roles[..n][i], known, lists, server);
    EarlierRoleStays(d, e, roles, n, i);
  }

  lemma EarlierRoleStays(d: Cluster, e: Cluster, roles: seq<Role>, n: nat, i: nat)
    requires DistinctNames(roles) && i < n < |roles| && OnlyRole(d, e, roles[n].name) && roles[..n][i].name in d.roles
    ensures roles[i].name in e.roles && e.roles[roles[i].name] == d.roles[roles[i].name] && roles[..n][i] == roles[i]
  {
    assert roles[..n][i] == roles[i] && roles[i].name != roles[n].name;
  }

  // ------------------------------------------------------------ memberships

  predicate GrantRuns(keys: set<string>, member: string, grant: Grant) {
    grant.role in keys && grant.role != member
  }

  ghost predicate GrantsRun(keys: set<string>, role: Role) {
    forall i :: 0 <= i < |role.memberOf| ==> GrantRuns(keys, role.name, role.memberOf[i])
  }

  /** The memberships of `member` are those before and the granted ones; every other member keeps its own. */
  ghost predicate MembersAre(before: map<(string, string), Options>, after: map<(string, string), Options>, member: string,
                             granted: map<string, Options>) {
    && (forall m, x :: (m, x) in after <==> (m, x) in before || (m == member && x in granted))
    && (forall m, x :: (m, x) in after ==> after[(m, x)] == if m == member && x in granted then granted[x] else before[(m, x)])
  }

  lemma OneMoreGrant(before: map<(string, string), Options>, members: map<(string, string), Options>, member: string,
                     grants: seq<Grant>)
    requires grants != [] && MembersAre(before, members, member, Granted(grants[..|grants| - 1]))
    ensures var last := grants[|grants| - 1];
            MembersAre(before, members[(member, last.role) := OptionsOf(last)], member, Granted(grants))
  {
  }

  lemma {:induction false} RoleGrantsExecuted(c: Cluster, role: Role, server: Server)
    requires role.name in c.roles
    ensures var d := Execute(c, RoleGrants(role), server);
            && (d.Some? <==> GrantsRun(c.roles.Keys, role))
            && (d.Some? ==> d.value == c.(members := d.value.members) && MembersAre(c.members, d.value.members, role.name, Granted(role.memberOf)))
    decreases |role.memberOf|
  {
    var grants := role.memberOf;
    if grants != [] {
      var n := |grants| - 1;
      var less := role.(memberOf := grants[..n]);
      assert RoleGrants(role)[..n] == RoleGrants(less);
      RoleGrantsExecuted(c, less, server);
      var before := Execute(c, RoleGrants(less), server);
      if before.Some? { OneMoreGrant(c.members, before.value.members, role.name, grants); }
      assert GrantsRun(c.roles.Keys, role) <==> GrantsRun(c.roles.Keys, less) && GrantRuns(c.roles.Keys, role.name, grants[n]) by {
        assert forall i :: 0 <= i < |grants| ==> grants[i] == if i < n then less.memberOf[i] else grants[n];
      }
    }
  }

  /** What the grants of distinct roles leave: each role's own, on top of what was there. */
  ghost predicate AllMembers(before: map<(string, string), Options>, after: map<(string, string), Options>, roles: seq<Role>) {
    && (forall m, x :: m !in NamesOf(roles) ==> ((m, x) in after <==> (m, x) in before))
    && (forall i :: 0 <= i < |roles| ==> MemberMade(before, after, roles[i]))
  }

  ghost predicate MemberMade(before: map<(string, string), Options>, after: map<(string, string), Options>, role: Role) {
    var granted := Granted(role.memberOf);
    && (forall x :: (role.name, x) in after <==> (role.name, x) in before || x in granted)
    && (forall x :: x in granted ==> after[(role.name, x)] == granted[x])
  }

  lemma OneMoreMember(a: map<(string, string), Options>, b: map<(string, string), Options>, c: map<(string, string), Options>, roles: seq<Role>)
    requires roles != [] && DistinctNames(roles) && AllMembers(a, b, roles[..|roles| - 1])
    requires MembersAre(b, c, roles[|roles| - 1].name, Granted(roles[|roles| - 1].memberOf))
    ensures AllMembers(a, c, roles)
  {
    var n := |roles| - 1;
    FrontOfRoles(roles, n);
    forall i | 0 <= i < |roles| ensures MemberMade(a, c, roles[i]) {
      if i < n {
        assert MemberMade(a, b, roles[..n][i]);
        assert roles[i].name != roles[n].name;
      }
    }
  }

  ghost predicate AllGrantsRun(keys: set<string>, roles: seq<Role>) {
    forall i :: 0 <= i < |roles| ==> GrantsRun(keys, roles[i])
  }

  lemma AllGrantsRunSplit(keys: set<string>, roles: seq<Role>, n: nat)
    requires |roles| == n + 1
    ensures AllGrantsRun(keys, roles) <==> AllGrantsRun(keys, roles[..n]) && GrantsRun(keys, roles[n])
  {
    assert forall i :: 0 <= i < |roles| ==> roles[i] == if i < n then roles[..n][i] else roles[n];
  }

  lemma {:induction false} GrantsExecuted(c: Cluster, roles: seq<Role>, server: Server)
    requires DistinctNames(roles) && NamesOf(roles) <= c.roles.Keys
    ensures var d := Execute(c, GrantsOf(roles), server);
            && (d.Some? <==> AllGrantsRun(c.roles.Keys, roles))
            && (d.Some? ==> d.value == c.(members := d.value.members) && AllMembers(c.members, d.value.members, roles))
    decreases |roles|
  {
    if roles != [] {
      var n := |roles| - 1;
      var front, last := roles[..n], roles[n];
      FrontOfRoles(roles, n);
      GrantsExecuted(c, front, server);
      ExecuteConcat(c, GrantsOf(front), RoleGrants(last), server);
      AllGrantsRunSplit(c.roles.Keys, roles, n);
      var before := Execute(c, GrantsOf(front), server);
      if before.Some? {
        assert last.name in NamesOf(roles);
        RoleGrantsExecuted(before.value, last, server);
        var after := Execute(before.value, RoleGrants(last), server);
        if after.Some? { OneMoreMember(c.members, before.value.members, after.value.members, roles); }
      }
    }
  }

  // ------------------------------------------------------------ parameter privileges

  predicate ParameterRuns(keys: set<string>, p: Parameter, server: Server) {
    p.privilege in server.privileges && p.grantee in keys
  }

  ghost predicate ParametersRun(keys: set<string>, ps: seq<Parameter>, server: Server) {
    forall i :: 0 <= i < |ps| ==> ParameterRuns(keys, ps[i], server)
  }

  lemma {:induction false} ParametersExecuted(c: Cluster, ps: seq<Parameter>, server: Server)
    ensures Execute(c, ParameterStatements(ps), server) ==
            if ParametersRun(c.roles.Keys, ps, server) then Some(c.(acl := c.acl + (set p | p in ps))) else None
    decreases |ps|
  {
    if ps == [] {
      assert c.acl + (set p | p in ps) == c.acl;
    } else {
      var n := |ps| - 1;
      assert ParameterStatements(ps)[..n] == ParameterStatements(ps[..n]);
      ParametersExecuted(c, ps[..n], server);
      ParametersRunSplit(c.roles.Keys, ps, n, server);
      LastParameter(ps, n);
      assert c.acl + (set p | p in ps) == c.acl + (set p | p in ps[..n]) + {ps[n]};
    }
  }

  lemma LastParameter(ps: seq<Parameter>, n: nat)
    requires |ps| == n + 1
    ensures (set p | p in ps) == (set p | p in ps[..n]) + {ps[n]}
  {
    assert ps == ps[..n] + [ps[n]];
  }

  lemma ParametersRunSplit(keys: set<string>, ps: seq<Parameter>, n: nat, server: Server)
    requires |ps| == n + 1
    ensures ParametersRun(keys, ps, server) <==> ParametersRun(keys, ps[..n], server) && ParameterRuns(keys, ps[n], server)
  {
    assert forall i :: 0 <= i < |ps| ==> ps[i] == if i < n then ps[..n][i] else ps[n];
  }

  // ------------------------------------------------------------ the whole inventory

  ghost predicate Runs(inventory: Inventory, c: Cluster, lists: set<string>, server: Server) {
    var keys := c.roles.Keys + NamesOf(inventory.roles);
    RolesRun(inventory.roles, lists, server) && AllGrantsRun(keys, inventory.roles) && ParametersRun(keys, inventory.parameters, server)
  }

  /** What the statements leave: each recorded role made, its memberships and the parameter privileges added. */
  ghost predicate Built(c: Cluster, d: Cluster, inventory: Inventory, known: map<string, string>, lists: set<string>, server: Server) {
    && RolesMade(c, d.(members := c.members, acl := c.acl), inventory.roles, known, lists, server)
    && AllMembers(c.members, d.members, inventory.roles)
    && d.acl == c.acl + (set p | p in inventory.parameters)
  }

  /** The statements all run exactly when PostgreSQL takes each limit and setting, every granted role and grantee
      exists in the image or the inventory, no role is granted to itself, and the privileges are parameter privileges. */
  lemma ExecutesExactly(inventory: Inventory, c: Cluster, known: map<string, string>, lists: set<string>, server: Server)
    requires AllCompile(inventory.roles, known, lists) && DistinctNames(inventory.roles) && Bare(c, inventory.roles)
    ensures var d := Execute(c, Compiled(inventory, known, lists), server);
            && (d.Some? <==> Runs(inventory, c, lists, server))
            && (d.Some? ==> Built(c, d.value, inventory, known, lists, server))
  {
    var roles := inventory.roles;
    var first, second, third := StatementsOf(roles, known, lists), GrantsOf(roles), ParameterStatements(inventory.parameters);
    ExecuteConcat(c, first + second, third, server);
    ExecuteConcat(c, first, second, server);
    RolesExecuted(c, roles, known, lists, server);
    var made := Execute(c, first, server);
    if made.Some? {
      GrantsExecuted(made.value, roles, server);
      var granted := Execute(made.value, second, server);
      if granted.Some? {
        ParametersExecuted(granted.value, inventory.parameters, server);
        var done := Execute(granted.value, third, server);
        if done.Some? { assert done.value.(members := c.members, acl := c.acl) == made.value; }
      }
    }
  }

  /** Who can log in to a cluster that ran them: a recorded role with the password that is kept for it, exactly when it
      is recorded open. */
  lemma RebuiltLogins(inventory: Inventory, c: Cluster, d: Cluster, known: map<string, string>, lists: set<string>,
                      server: Server, i: nat, password: string)
    requires AllCompile(inventory.roles, known, lists) && DistinctNames(inventory.roles) && Bare(c, inventory.roles)
    requires Execute(c, Compiled(inventory, known, lists), server) == Some(d) && i < |inventory.roles|
    ensures var role := inventory.roles[i];
            && role.name in d.roles
            && (d.roles[role.name].login && d.roles[role.name].password == Some(password) <==>
                  role.canLogin == Some(true) && role.name in known && known[role.name] == password)
  {
    ExecutesExactly(inventory, c, known, lists, server);
    assert Built(c, d, inventory, known, lists, server);
  }

  /** A cluster that holds only the image's roles: a managed role in it is one the inventory records, still bare. */
  ghost predicate ImageOnly(c: Cluster, inventory: Inventory, names: Names) {
    && (forall n :: n in c.roles && Classify(n, names).Some? ==> n in NamesOf(inventory.roles) && c.roles[n].settings == [])
    && (forall m, x :: (m, x) in c.members ==> Classify(m, names).None?)
    && (forall p :: p in c.acl ==> Classify(p.grantee, names).None?)
  }

  /** A membership as QUERY shows it. */
  predicate Shows(options: Options, grant: Grant) {
    options.inherits == grant.inherits && options.sets == grant.sets && options.admin == grant.admin
  }

  ghost predicate RowOf(d: Cluster, row: Row) {
    && row.name in d.roles
    && var account := d.roles[row.name];
    && row.attributes == account.attributes && row.canLogin == account.login && row.limit == account.limit
    && row.settings == account.settings && DistinctBy(row.memberOf, GrantKey)
    && forall g: Grant :: g in row.memberOf <==>
        (row.name, g.role) in d.members && Shows(d.members[(row.name, g.role)], g)
  }

  ghost predicate NamedBy(rows: seq<Row>, name: string) {
    exists i :: 0 <= i < |rows| && rows[i].name == name
  }

  /** What QUERY may return of a cluster: every managed role once, its memberships once each, and the parameter
      privileges of managed roles once each, in any order. */
  ghost predicate QueryReturns(d: Cluster, names: Names, rows: seq<Row>, ps: seq<Parameter>) {
    && (forall i, j :: 0 <= i < j < |rows| ==> rows[i].name != rows[j].name)
    && (forall i :: 0 <= i < |rows| ==> Classify(rows[i].name, names).Some? && RowOf(d, rows[i]))
    && (forall n :: n in d.roles && Classify(n, names).Some? ==> NamedBy(rows, n))
    && NoDuplicates(ps) && forall p :: p in ps <==> p in d.acl && Classify(p.grantee, names).Some?
  }

  predicate Toggled(kind: Kind) {
    kind.Studio? || kind.Developer? || kind.Realtime? || kind.Cron?
  }

  function Masked(role: Role, closed: seq<string>): Role {
    if Toggled(role.kind) || role.name in closed then role.(canLogin := None) else role
  }

  /** The roles sorted by name, each name once, are told by the set of them, and the sorted privileges by how often
      each occurs. */
  datatype Compared = Compared(roles: set<Role>, parameters: multiset<Parameter>)

  function Comparable(roles: seq<Role>, parameters: seq<Parameter>, closed: seq<string>): Compared {
    Compared(MaskedAll(roles, closed), multiset(parameters))
  }

  /** The comparison leaves out the login state of Studio, developer, Realtime and scheduler logins and of those created
      closed, and nothing else. */
  lemma MaskedExactly(a: Role, b: Role, closed: seq<string>)
    ensures Masked(a, closed) == Masked(b, closed) <==>
            a == b || (a == b.(canLogin := a.canLogin)
                       && (a.kind == Studio || a.kind == Developer || a.kind == Realtime || a.kind == Cron || a.name in closed))
  {
  }

  ghost predicate RoleCanonical(role: Role, lists: set<string>, server: Server) {
    SettingsRoundTrip(role.settings, lists, server) && GrantsRoundTrip(role.memberOf)
  }

  ghost predicate ParametersCanonical(ps: seq<Parameter>, names: Names) {
    NoDuplicates(ps) && forall i :: 0 <= i < |ps| ==> Classify(ps[i].grantee, names).Some?
  }

  /** Settings and memberships sorted, each named once, list settings as PostgreSQL writes them, and each parameter
      privilege once and granted to a managed role. */
  ghost predicate CanonicalInventory(inventory: Inventory, names: Names, lists: set<string>, server: Server) {
    && (forall i :: 0 <= i < |inventory.roles| ==> RoleCanonical(inventory.roles[i], lists, server))
    && ParametersCanonical(inventory.parameters, names)
  }

  lemma MaskedAlike(role: Role, login: bool, memberOf: seq<Grant>, settings: seq<string>, closed: seq<string>)
    requires Toggled(role.kind) || role.name in closed || role.canLogin == Some(login)
    ensures Masked(role.(canLogin := Some(login), memberOf := memberOf, settings := settings), closed) == Masked(role, closed) <==>
            memberOf == role.memberOf && settings == role.settings
  {
  }

  /** The record of a row, by what it shares with the recorded role. */
  lemma RecordedAs(role: Role, row: Row, names: Names)
    requires Holds(role, names) && row.name == role.name && row.attributes == role.attributes && row.limit == role.limit
    ensures Classify(row.name, names).Some?
    ensures Recorded(row, names) ==
            role.(canLogin := Some(row.canLogin), memberOf := SortBy(row.memberOf, GrantKey), settings := SortBy(row.settings, TextKey))
  {
  }

  lemma LoginReadsBack(role: Role, known: map<string, string>, closed: seq<string>, lists: set<string>, names: Names)
    requires Holds(role, names) && Compiles(role, known, lists) && (IsClosed(role, known) ==> role.name in closed)
    ensures Toggled(role.kind) || role.name in closed || role.canLogin == Some(Opens(role, known))
    ensures role.kind.RealtimeAdmin? ==> !Opens(role, known)
  {
    if role.canLogin.value && role.name !in known {
      assert OpenWithoutPassword(role, known) && MayBeClosed(role.kind);
    } else {
      assert Opens(role, known) == role.canLogin.value;
    }
  }

  lemma RoleReadsBack(role: Role, row: Row, known: map<string, string>, closed: seq<string>, names: Names,
                      lists: set<string>, server: Server)
    requires Holds(role, names) && Compiles(role, known, lists) && (IsClosed(role, known) ==> role.name in closed)
    requires AllStored(role.settings, lists, server) && server.words.refused <= server.words.quoted
    requires row.name == role.name && row.attributes == role.attributes && row.canLogin == Opens(role, known)
    requires row.limit == role.limit && row.settings == PutAll([], StoredAll(role.settings, lists, server))
    requires Lists(row.memberOf, Granted(role.memberOf))
    ensures Classify(row.name, names).Some? && Holds(Recorded(row, names), names)
    ensures Masked(Recorded(row, names), closed) == Masked(role, closed) <==> RoleCanonical(role, lists, server)
  {
    SettingsReadBack(role.settings, lists, server);
    GrantsReadBack(role.memberOf, row.memberOf);
    RecordedAs(role, row, names);
    LoginReadsBack(role, known, closed, lists, names);
    MaskedAlike(role, row.canLogin, SortBy(row.memberOf, GrantKey), SortBy(row.settings, TextKey), closed);
  }

  lemma RowMatches(c: Cluster, d: Cluster, role: Role, row: Row, names: Names)
    requires row.name == role.name && RowOf(d, row) && MemberMade(c.members, d.members, role)
    requires forall x :: (role.name, x) !in c.members
    ensures Lists(row.memberOf, Granted(role.memberOf))
  {
  }

  lemma {:induction false} DuplicatesCount<T>(xs: seq<T>, x: T)
    requires NoDuplicates(xs)
    ensures multiset(xs)[x] <= 1
    decreases |xs|
  {
    if xs != [] {
      var front := xs[..|xs| - 1];
      DuplicatesCount(front, x);
      assert xs == front + [xs[|xs| - 1]];
      if x == xs[|xs| - 1] { assert x !in front; }
    }
  }

  lemma SameWhenDistinct<T(!new)>(xs: seq<T>, ys: seq<T>)
    requires NoDuplicates(xs)
    ensures multiset(xs) == multiset(ys) <==> NoDuplicates(ys) && forall x :: x in xs <==> x in ys
  {
    if multiset(xs) == multiset(ys) {
      forall i, j | 0 <= i < j < |ys| ensures ys[i] != ys[j] {
        if ys[i] == ys[j] {
          CountedTwice(ys, i, j);
          DuplicatesCount(xs, ys[i]);
        }
      }
      forall x ensures x in xs <==> x in ys { assert x in multiset(xs) <==> x in multiset(ys); }
    } else if NoDuplicates(ys) && forall x :: x in xs <==> x in ys {
      forall x ensures multiset(xs)[x] == multiset(ys)[x] {
        DuplicatesCount(xs, x);
        DuplicatesCount(ys, x);
        assert x in multiset(xs) <==> x in xs;
        assert x in multiset(ys) <==> x in ys;
      }
    }
  }

  lemma ParametersReadBack(c: Cluster, d: Cluster, inventory: Inventory, names: Names, ps: seq<Parameter>)
    requires ImageOnly(c, inventory, names) && d.acl == c.acl + (set p | p in inventory.parameters)
    requires NoDuplicates(ps) && forall p :: p in ps <==> p in d.acl && Classify(p.grantee, names).Some?
    ensures multiset(ps) == multiset(inventory.parameters) <==> ParametersCanonical(inventory.parameters, names)
  {
    SameWhenDistinct(ps, inventory.parameters);
  }

  ghost predicate ReadsBack(c: Cluster, d: Cluster, inventory: Inventory, known: map<string, string>, closed: seq<string>,
                            names: Names, lists: set<string>, server: Server, rows: seq<Row>, ps: seq<Parameter>) {
    && Reliable(inventory, names) && AllCompile(inventory.roles, known, lists) && server.words.refused <= server.words.quoted
    && (forall i :: 0 <= i < |inventory.roles| && IsClosed(inventory.roles[i], known) ==> inventory.roles[i].name in closed)
    && ImageOnly(c, inventory, names) && Built(c, d, inventory, known, lists, server) && QueryReturns(d, names, rows, ps)
  }

  /** The row of a recorded role, and how it reads back. */
  lemma RoleHasRow(c: Cluster, d: Cluster, inventory: Inventory, known: map<string, string>, closed: seq<string>, names: Names,
                   lists: set<string>, server: Server, rows: seq<Row>, ps: seq<Parameter>, i: nat) returns (j: nat)
    requires ReadsBack(c, d, inventory, known, closed, names, lists, server, rows, ps) && i < |inventory.roles|
    ensures j < |rows| && rows[j].name == inventory.roles[i].name && Holds(Recorded(rows[j], names), names)
    ensures Masked(Recorded(rows[j], names), closed) == Masked(inventory.roles[i], closed) <==> RoleCanonical(inventory.roles[i], lists, server)
  {
    var role := inventory.roles[i];
    assert Holds(role, names) && Compiles(role, known, lists);
    assert role.name in d.roles && MadeAs(d.roles[role.name], Held(c, role.name), role, known, lists, server);
    assert NamedBy(rows, role.name);
    j :| 0 <= j < |rows| && rows[j].name == role.name;
    assert MemberMade(c.members, d.members, role);
    RowMatches(c, d, role, rows[j], names);
    RoleReadsBack(role, rows[j], known, closed, names, lists, server);
  }

  /** Every row is of a recorded role. */
  lemma RowHasRole(c: Cluster, d: Cluster, inventory: Inventory, known: map<string, string>, closed: seq<string>, names: Names,
                   lists: set<string>, server: Server, rows: seq<Row>, ps: seq<Parameter>, j: nat) returns (i: nat)
    requires ReadsBack(c, d, inventory, known, closed, names, lists, server, rows, ps) && j < |rows|
    ensures i < |inventory.roles| && inventory.roles[i].name == rows[j].name
  {
    assert Classify(rows[j].name, names).Some? && RowOf(d, rows[j]);
    assert rows[j].name in NamesOf(inventory.roles);
    i :| 0 <= i < |inventory.roles| && inventory.roles[i].name == rows[j].name;
  }

  /** The record read back keeps every rule. */
  lemma ReadBackRefusesNothing(c: Cluster, d: Cluster, inventory: Inventory, known: map<string, string>, closed: seq<string>,
                               names: Names, lists: set<string>, server: Server, rows: seq<Row>, ps: seq<Parameter>)
    requires ReadsBack(c, d, inventory, known, closed, names, lists, server, rows, ps)
    ensures RefusalsOf(rows, names) == []
    ensures |RolesOf(rows, names)| == |rows|
    ensures forall j :: 0 <= j < |rows| ==> Classify(rows[j].name, names).Some? && RolesOf(rows, names)[j] == Recorded(rows[j], names)
  {
    forall j | 0 <= j < |rows| ensures Classify(rows[j].name, names).Some? && Holds(Recorded(rows[j], names), names) {
      var i := RowHasRole(c, d, inventory, known, closed, names, lists, server, rows, ps, j);
      var k := RoleHasRow(c, d, inventory, known, closed, names, lists, server, rows, ps, i);
      assert k == j;
    }
    KeptRowsRefuseNothing(rows, names);
  }

  lemma SortKeepsTheRoles(roles: seq<Role>, role: Role)
    ensures role in SortBy(roles, RoleKey) <==> role in roles
  {
    SortSorts(roles, RoleKey);
    assert role in SortBy(roles, RoleKey) <==> role in multiset(SortBy(roles, RoleKey));
    assert role in roles <==> role in multiset(roles);
  }

  ghost predicate RolePaired(roles: seq<Role>, back: seq<Role>, closed: seq<string>, lists: set<string>, server: Server, i: nat)
    requires i < |roles|
  {
    exists j :: 0 <= j < |back| && back[j].name == roles[i].name
                && (Masked(back[j], closed) == Masked(roles[i], closed) <==> RoleCanonical(roles[i], lists, server))
  }

  ghost predicate RowPaired(roles: seq<Role>, back: seq<Role>, j: nat)
    requires j < |back|
  {
    exists i :: 0 <= i < |roles| && back[j].name == roles[i].name
  }

  /** The recorded roles and those read back are the same names, each once. */
  ghost predicate Paired(roles: seq<Role>, back: seq<Role>, closed: seq<string>, lists: set<string>, server: Server) {
    && DistinctNames(roles) && DistinctNames(back)
    && (forall i :: 0 <= i < |roles| ==> RolePaired(roles, back, closed, lists, server, i))
    && (forall j :: 0 <= j < |back| ==> RowPaired(roles, back, j))
  }

  lemma RolesArePaired(c: Cluster, d: Cluster, inventory: Inventory, known: map<string, string>, closed: seq<string>,
                       names: Names, lists: set<string>, server: Server, rows: seq<Row>, ps: seq<Parameter>)
    requires ReadsBack(c, d, inventory, known, closed, names, lists, server, rows, ps)
    ensures Paired(inventory.roles, RolesOf(rows, names), closed, lists, server)
  {
    var roles, back := inventory.roles, RolesOf(rows, names);
    ReadBackRefusesNothing(c, d, inventory, known, closed, names, lists, server, rows, ps);
    forall i | 0 <= i < |roles| ensures RolePaired(roles, back, closed, lists, server, i) {
      var j := RoleHasRow(c, d, inventory, known, closed, names, lists, server, rows, ps, i);
      assert back[j].name == roles[i].name;
    }
    forall j | 0 <= j < |back| ensures RowPaired(roles, back, j) {
      var i := RowHasRole(c, d, inventory, known, closed, names, lists, server, rows, ps, j);
    }
  }

  function MaskedAll(roles: seq<Role>, closed: seq<string>): set<Role> {
    set r | r in roles :: Masked(r, closed)
  }

  lemma MaskedIn(roles: seq<Role>, closed: seq<string>, i: nat)
    requires i < |roles|
    ensures Masked(roles[i], closed) in MaskedAll(roles, closed)
  {
    assert roles[i] in roles;
  }

  lemma EqualMeansCanonical(roles: seq<Role>, back: seq<Role>, closed: seq<string>, lists: set<string>, server: Server, i: nat)
    requires Paired(roles, back, closed, lists, server) && MaskedAll(back, closed) == MaskedAll(roles, closed) && i < |roles|
    ensures RoleCanonical(roles[i], lists, server)
  {
    assert RolePaired(roles, back, closed, lists, server, i);
    var j :| 0 <= j < |back| && back[j].name == roles[i].name
             && (Masked(back[j], closed) == Masked(roles[i], closed) <==> RoleCanonical(roles[i], lists, server));
    MaskedIn(roles, closed, i);
    var r :| r in back && Masked(r, closed) == Masked(roles[i], closed);
    var k :| 0 <= k < |back| && back[k] == r;
    assert back[k].name == back[j].name;
  }

  lemma CanonicalMeansEqual(roles: seq<Role>, back: seq<Role>, closed: seq<string>, lists: set<string>, server: Server)
    requires Paired(roles, back, closed, lists, server)
    requires forall i :: 0 <= i < |roles| ==> RoleCanonical(roles[i], lists, server)
    ensures MaskedAll(back, closed) == MaskedAll(roles, closed)
  {
    forall i | 0 <= i < |roles| ensures Masked(roles[i], closed) in MaskedAll(back, closed) {
      assert RolePaired(roles, back, closed, lists, server, i);
      var j :| 0 <= j < |back| && back[j].name == roles[i].name
               && (Masked(back[j], closed) == Masked(roles[i], closed) <==> RoleCanonical(roles[i], lists, server));
      MaskedIn(back, closed, j);
    }
    forall j | 0 <= j < |back| ensures Masked(back[j], closed) in MaskedAll(roles, closed) {
      assert RowPaired(roles, back, j);
      var i :| 0 <= i < |roles| && back[j].name == roles[i].name;
      assert RolePaired(roles, back, closed, lists, server, i);
      var k :| 0 <= k < |back| && back[k].name == roles[i].name
               && (Masked(back[k], closed) == Masked(roles[i], closed) <==> RoleCanonical(roles[i], lists, server));
      assert k == j;
      MaskedIn(roles, closed, i);
    }
  }

  lemma SameSortedRoles(roles: seq<Role>, closed: seq<string>)
    ensures MaskedAll(SortBy(roles, RoleKey), closed) == MaskedAll(roles, closed)
  {
    forall role ensures role in SortBy(roles, RoleKey) <==> role in roles { SortKeepsTheRoles(roles, role); }
  }

  /** Run on a cluster that held only the image's roles, the compiled statements make managed roles whose record
      refuses nothing, and it compares equal to the inventory exactly when the inventory is canonical. */
  lemma ReadBackComparesExactly(inventory: Inventory, c: Cluster, known: map<string, string>, names: Names,
                                lists: set<string>, server: Server, rows: seq<Row>, ps: seq<Parameter>)
    requires Reliable(inventory, names) && AllCompile(inventory.roles, known, lists) && server.words.refused <= server.words.quoted
    requires ImageOnly(c, inventory, names) && Runs(inventory, c, lists, server)
    requires Execute(c, Compiled(inventory, known, lists), server).Some? ==>
             QueryReturns(Execute(c, Compiled(inventory, known, lists), server).value, names, rows, ps)
    ensures RefusalsOf(rows, names) == []
    ensures var closed := ClosedOf(inventory.roles, known);
            Comparable(SortBy(RolesOf(rows, names), RoleKey), ps, closed) == Comparable(inventory.roles, inventory.parameters, closed)
            <==> CanonicalInventory(inventory, names, lists, server)
  {
    var roles, closed := inventory.roles, ClosedOf(inventory.roles, known);
    var d := BuiltFromImage(inventory, c, known, names, lists, server);
    ReadBackRefusesNothing(c, d, inventory, known, closed, names, lists, server, rows, ps);
    RolesArePaired(c, d, inventory, known, closed, names, lists, server, rows, ps);
    ParametersReadBack(c, d, inventory, names, ps);
    var back := RolesOf(rows, names);
    SameSortedRoles(back, closed);
    if MaskedAll(back, closed) == MaskedAll(roles, closed) {
      forall i | 0 <= i < |roles| ensures RoleCanonical(roles[i], lists, server) {
        EqualMeansCanonical(roles, back, closed, lists, server, i);
      }
    } else if forall i :: 0 <= i < |roles| ==> RoleCanonical(roles[i], lists, server) {
      CanonicalMeansEqual(roles, back, closed, lists, server);
    }
  }

  lemma BuiltFromImage(inventory: Inventory, c: Cluster, known: map<string, string>, names: Names, lists: set<string>,
                       server: Server) returns (d: Cluster)
    requires Reliable(inventory, names) && AllCompile(inventory.roles, known, lists)
    requires ImageOnly(c, inventory, names) && Runs(inventory, c, lists, server)
    ensures Execute(c, Compiled(inventory, known, lists), server) == Some(d) && Built(c, d, inventory, known, lists, server)
    ensures forall i :: 0 <= i < |inventory.roles| && IsClosed(inventory.roles[i], known) ==>
              inventory.roles[i].name in ClosedOf(inventory.roles, known)
  {
    var roles := inventory.roles;
    forall i | 0 <= i < |roles| && roles[i].name in c.roles ensures c.roles[roles[i].name].settings == [] {
      assert Holds(roles[i], names);
    }
    ExecutesExactly(inventory, c, known, lists, server);
    d := Execute(c, Compiled(inventory, known, lists), server).value;
    forall i | 0 <= i < |roles| && IsClosed(roles[i], known) ensures roles[i].name in ClosedOf(roles, known) {
      ClosedExactly(roles, known, roles[i].name);
    }
  }

  // ------------------------------------------------------------ usable is not enough

  function OneRole(image: string, name: string, settings: seq<string>): Inventory {
    Inventory(image, [Role(name, ManagementAuth, None, Rule(ManagementAuth), Some(true), -1, [], settings)], [], [])
  }

  const EMPTY := Cluster(map[], map[], {})

  lemma OneRoleIsReliable(image: string, name: string, settings: seq<string>, names: Names, lists: set<string>, server: Server)
    requires ImageNamed(image) && Classify(name, names) == Some((ManagementAuth, None))
    requires Writable(settings, lists) && AllStored(settings, lists, server)
    ensures var inventory := OneRole(image, name, settings);
            && Reliable(inventory, names) && AllCompile(inventory.roles, map[name := "p"], lists)
            && ImageOnly(EMPTY, inventory, names) && Runs(inventory, EMPTY, lists, server)
  {
    var inventory := OneRole(image, name, settings);
    var role := inventory.roles[0];
    assert Compiles(role, map[name := "p"], lists);
    assert GrantsRun(EMPTY.roles.Keys + NamesOf(inventory.roles), role);
  }

  /** A usable record that names a setting twice compiles and runs, and whatever the query returns then does not
      compare equal to it. */
  lemma RepeatedSettingDoesNotReadBack(image: string, name: string, key: string, one: string, two: string, names: Names,
                                       lists: set<string>, server: Server, rows: seq<Row>, ps: seq<Parameter>)
    requires ImageNamed(image) && Classify(name, names) == Some((ManagementAuth, None)) && server.words.refused <= server.words.quoted
    requires KeyWritable(key) && key !in lists
    ensures var inventory, known := OneRole(image, name, [key + "=" + one, key + "=" + two]), map[name := "p"];
            && Reliable(inventory, names) && AllCompile(inventory.roles, known, lists)
            && var made := Execute(EMPTY, Compiled(inventory, known, lists), server);
            && made.Some?
            && (QueryReturns(made.value, names, rows, ps) ==>
                  var closed := ClosedOf(inventory.roles, known);
                  Comparable(SortBy(RolesOf(rows, names), RoleKey), ps, closed)
                    != Comparable(inventory.roles, inventory.parameters, closed))
  {
    var settings := [key + "=" + one, key + "=" + two];
    var inventory, known := OneRole(image, name, settings), map[name := "p"];
    KeyOfJoined(key, one);
    KeyOfJoined(key, two);
    OneRoleIsReliable(image, name, settings, names, lists, server);
    var d := BuiltFromImage(inventory, EMPTY, known, names, lists, server);
    assert KeyOf(settings[0]) == KeyOf(settings[1]) && !DistinctBy(settings, KeyOf);
    assert !RoleCanonical(inventory.roles[0], lists, server);
    if QueryReturns(d, names, rows, ps) {
      ReadBackComparesExactly(inventory, EMPTY, known, names, lists, server, rows, ps);
    }
  }

  lemma TimeoutIsNoList()
    ensures KeyWritable("statement_timeout") && "statement_timeout" !in LIST_SETTINGS
  {
    assert |"statement_timeout"| == 17;
    assert |"search_path"| == 11 && |"temp_tablespaces"| == 16;
    assert |"session_preload_libraries"| == 25 && |"local_preload_libraries"| == 23;
  }

  lemma ManagementAuthIsManaged()
    ensures Classify("management_auth", MANAGED) == Some((ManagementAuth, None))
  {
    assert |"management_auth"| == 15 && |"supabase_realtime_admin"| == 23;
  }

  /** Such a record under the names and list settings the platform has: `statement_timeout` recorded twice. */
  lemma RepeatedTimeoutDoesNotReadBack(image: string, server: Server, rows: seq<Row>, ps: seq<Parameter>)
    requires ImageNamed(image) && server.words.refused <= server.words.quoted
    ensures var inventory := OneRole(image, "management_auth", ["statement_timeout=1", "statement_timeout=2"]);
            var known := map["management_auth" := "p"];
            && Reliable(inventory, MANAGED) && AllCompile(inventory.roles, known, LIST_SETTINGS)
            && var made := Execute(EMPTY, Compiled(inventory, known, LIST_SETTINGS), server);
            && made.Some?
            && (QueryReturns(made.value, MANAGED, rows, ps) ==>
                  var closed := ClosedOf(inventory.roles, known);
                  Comparable(SortBy(RolesOf(rows, MANAGED), RoleKey), ps, closed)
                    != Comparable(inventory.roles, inventory.parameters, closed))
  {
    TimeoutIsNoList();
    ManagementAuthIsManaged();
    assert "statement_timeout" + "=" + "1" == "statement_timeout=1" && "statement_timeout" + "=" + "2" == "statement_timeout=2";
    RepeatedSettingDoesNotReadBack(image, "management_auth", "statement_timeout", "1", "2", MANAGED, LIST_SETTINGS, server, rows, ps);
  }

  /** A usable record of an empty list, as PostgreSQL itself stores `SET search_path = ''`, compiles, but its statement
      is refused: an empty quoted name is not one. */
  lemma EmptyListDoesNotRun(image: string, name: string, key: string, names: Names, lists: set<string>, server: Server)
    requires ImageNamed(image) && Classify(name, names) == Some((ManagementAuth, None)) && KeyWritable(key) && key in lists
    ensures var inventory := OneRole(image, name, [key + "=" + "\"\""]);
            && Reliable(inventory, names) && AllCompile(inventory.roles, map[name := "p"], lists)
            && !Runs(inventory, EMPTY, lists, server)
  {
    var text := key + "=" + "\"\"";
    KeyOfJoined(key, "\"\"");
    assert ValueOf(text) == "\"\"";
    WrittenElementsReadBack([Quoted("")]);
    assert WrittenList([Quoted("")]) == "\"\"";
    var inventory := OneRole(image, name, [text]);
    assert SettingSql(text, lists) == Some(ListText("\"\""));
    assert Compiles(inventory.roles[0], map[name := "p"], lists);
    assert Name(Quoted(""), server.words).None?;
    assert StoredElements([Quoted("")], server.words).None?;
    assert StoredText(text, lists, server).None?;
    assert StoredText(inventory.roles[0].settings[0], lists, server).None?;
    assert !RoleRuns(inventory.roles[0], lists, server);
  }
}
