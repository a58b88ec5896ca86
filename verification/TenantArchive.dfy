/** lab/backup_consistency.py, ARCHIVE_SCRIPT and EXTRACT_SCRIPT: a tenant's files become a tar stream, and the stream
    becomes the same tree in an empty root. Times are exact nanoseconds and attribute values bytes: the decimal and
    base64 forms the headers carry are not part of this model. */
module TenantArchive {
  import opened Prelude

  type Bytes = seq<bv8>

  /** Names from the root down; the tenant's own directory is the one that has a single name. */
  type Path = seq<string>

  datatype Meta = Meta(uid: nat, gid: nat, mode: nat, mtime: int)

  /** What stands at a path of the tenant's tree. */
  datatype Entry =
    | Directory(meta: Meta)
    | Regular(inode: nat, bytes: Bytes, attributes: map<string, Bytes>, meta: Meta)
    | SymbolicLink
    | Special

  type Tree = map<Path, Entry>

  datatype MemberType = DirectoryMember | FileMember | LinkMember | OtherMember

  datatype Member = Member(path: Path, kind: MemberType, bytes: Bytes, attributes: map<string, Bytes>, meta: Meta)

  const KEPT: set<string> := {"user.supabase.cache-control", "user.supabase.content-type", "user.supabase.etag"}

  // ------------------------------------------------------------ the tree and its listing

  function Parent(path: Path): Path
    requires path != []
  {
    path[..|path| - 1]
  }

  predicate PlainName(name: string) {
    name != "" && name != "." && name != ".." && '/' !in name
  }

  predicate PlainPath(path: Path) {
    path != [] && forall i :: 0 <= i < |path| ==> PlainName(path[i])
  }

  /** A directory tree below one directory of the root, as a file system holds it. */
  ghost predicate TenantTree(tree: Tree, tenant: string) {
    && [tenant] in tree
    && forall p :: p in tree ==> PlainPath(p) && p[0] == tenant && (|p| > 1 ==> Parent(p) in tree && tree[Parent(p)].Directory?)
  }

  /** `[source, *sorted(source.rglob("*"))]`: every path once, each after the directory that holds it. */
  ghost predicate Lists(order: seq<Path>, tree: Tree) {
    && NoDuplicates(order)
    && (forall p :: p in tree <==> p in order)
    && (forall i :: 0 <= i < |order| ==> ParentListed(order, i))
  }

  ghost predicate ParentListed(order: seq<Path>, i: nat)
    requires i < |order|
  {
    |order[i]| > 1 ==> Parent(order[i]) in order[..i]
  }

  /** The order of two paths by their names, one after another; a prefix comes first. */
  ghost predicate Sooner(a: Path, b: Path, less: (string, string) -> bool) {
    if b == [] then false
    else if a == [] then true
    else less(a[0], b[0]) || (a[0] == b[0] && Sooner(a[1..], b[1..], less))
  }

  lemma {:induction false} SoonerIsOneWay(a: Path, b: Path, less: (string, string) -> bool)
    requires forall x, y :: less(x, y) ==> !less(y, x)
    ensures !(Sooner(a, b, less) && Sooner(b, a, less))
    decreases |a|
  {
    if a != [] && b != [] && a[0] == b[0] { SoonerIsOneWay(a[1..], b[1..], less); }
  }

  lemma {:induction false} ParentIsSooner(path: Path, less: (string, string) -> bool)
    requires path != []
    ensures Sooner(Parent(path), path, less)
    decreases |path|
  {
    if |path| > 1 {
      ParentIsSooner(path[1..], less);
      assert Parent(path)[1..] == Parent(path[1..]);
    }
  }

  /** Sorting by the names lists every directory before what it holds, whatever the order of two names. */
  lemma SortedListsParentsFirst(order: seq<Path>, less: (string, string) -> bool)
    requires forall x, y :: less(x, y) ==> !less(y, x)
    requires forall i, j :: 0 <= i < j < |order| ==> Sooner(order[i], order[j], less)
    requires forall i :: 0 <= i < |order| ==> order[i] != [] && (|order[i]| > 1 ==> Parent(order[i]) in order)
    ensures forall i :: 0 <= i < |order| ==> ParentListed(order, i)
  {
    forall i | 0 <= i < |order| ensures ParentListed(order, i) {
      if |order[i]| > 1 {
        var k :| 0 <= k < |order| && order[k] == Parent(order[i]);
        ParentIsSooner(order[i], less);
        SoonerIsOneWay(order[k], order[i], less);
        assert |order[k]| < |order[i]|;
        assert k < i;
        assert order[..i][k] == order[k];
      }
    }
  }

  // ------------------------------------------------------------ the archive

  function Chosen(attributes: map<string, Bytes>, kept: set<string>): map<string, Bytes> {
    map k | k in attributes && k in kept :: attributes[k]
  }

  ghost predicate Archivable(tree: Tree) {
    forall p :: p in tree ==> tree[p].Directory? || tree[p].Regular?
  }

  /** The stream has already written a file of the same inode. */
  ghost predicate Linked(tree: Tree, order: seq<Path>, i: nat)
    requires i < |order| && forall k :: 0 <= k < |order| ==> order[k] in tree
  {
    tree[order[i]].Regular?
    && exists j :: 0 <= j < i && tree[order[j]].Regular? && tree[order[j]].inode == tree[order[i]].inode
  }

  ghost predicate Describes(m: Member, path: Path, entry: Entry, linked: bool, kept: set<string>) {
    && m.path == path
    && (entry.Directory? ==> m.kind.DirectoryMember? && m.meta == entry.meta)
    && (entry.Regular? ==> m.meta == entry.meta && m.attributes == Chosen(entry.attributes, kept)
                           && if linked then m.kind.LinkMember? && m.bytes == [] else m.kind.FileMember? && m.bytes == entry.bytes)
  }

  ghost predicate ArchiveOf(members: seq<Member>, tree: Tree, order: seq<Path>, kept: set<string>)
    requires forall k :: 0 <= k < |order| ==> order[k] in tree
  {
    |members| == |order|
    && forall i :: 0 <= i < |order| ==> Describes(members[i], order[i], tree[order[i]], Linked(tree, order, i), kept)
  }

  /** An entry that is no directory and no regular file refuses the whole stream; a file whose inode was already
      written becomes a link to the first one. */
  method Archive(tree: Tree, order: seq<Path>, kept: set<string>) returns (refused: bool, members: seq<Member>)
    requires Lists(order, tree)
    ensures refused <==> !Archivable(tree)
    ensures !refused ==> ArchiveOf(members, tree, order, kept)
    ensures !refused ==> forall i :: 0 <= i < |members| && members[i].kind.DirectoryMember? ==> members[i].attributes == map[]
  {
    members, refused := [], false;
    var inodes: set<nat> := {};
    for i := 0 to |order|
      invariant |members| == i && !refused
      invariant forall j :: 0 <= j < i && members[j].kind.DirectoryMember? ==> members[j].attributes == map[]
      invariant forall j :: 0 <= j < i ==> tree[order[j]].Directory? || tree[order[j]].Regular?
      invariant forall n :: n in inodes <==> exists j :: 0 <= j < i && tree[order[j]].Regular? && tree[order[j]].inode == n
      invariant forall j :: 0 <= j < i ==> Describes(members[j], order[j], tree[order[j]], Linked(tree, order, j), kept)
    {
      var entry := tree[order[i]];
      match entry {
        case Directory(meta) => members := members + [Member(order[i], DirectoryMember, [], map[], meta)];
        case Regular(inode, bytes, attributes, meta) =>
          var linked := inode in inodes;
          assert linked <==> Linked(tree, order, i);
          members := members + [Member(order[i], if linked then LinkMember else FileMember, if linked then [] else bytes,
                                       Chosen(attributes, kept), meta)];
          inodes := inodes + {inode};
        case _ =>
          assert order[i] in order;
          return true, members;
      }
    }
    assert forall p :: p in tree ==> p in order;
  }

  /** An absent tenant is archived as an empty directory. */
  function AbsentTenant(tenant: string): Member {
    Member([tenant], DirectoryMember, [], map[], Meta(0, 0, PRIVATE, 0))
  }

  // ------------------------------------------------------------ the extracted tree

  const PRIVATE: nat := 0x1C0   // 0700

  /** What stands at a path of the target. */
  datatype Node = Folder(meta: Meta) | Document(bytes: Bytes, attributes: map<string, Bytes>, meta: Meta)

  predicate Searchable(mode: nat) {
    mode / 64 % 2 == 1
  }

  /** `mode & 0o777`. */
  function Permissions(mode: nat): nat {
    mode % 512
  }

  function Restored(meta: Meta): Meta {
    meta.(mode := Permissions(meta.mode))
  }

  /** What a member becomes. */
  function NodeOf(m: Member): Node {
    if m.kind.DirectoryMember? then Folder(Restored(m.meta)) else Document(m.bytes, m.attributes, Restored(m.meta))
  }

  /** A new entry changes the time of the directory that holds it. */
  function TouchParent(nodes: map<Path, Node>, path: Path, now: int): map<Path, Node>
    requires path != []
  {
    var q := Parent(path);
    if q in nodes && nodes[q].Folder? then nodes[q := Folder(nodes[q].meta.(mtime := now))] else nodes
  }

  /** Every directory above the path can be searched. */
  ghost predicate Reachable(nodes: map<Path, Node>, path: Path) {
    forall n :: 0 < n < |path| ==> SearchedAt(nodes, path, n)
  }

  predicate SearchedAt(nodes: map<Path, Node>, path: Path, n: nat)
    requires n <= |path|
  {
    path[..n] in nodes && nodes[path[..n]].Folder? && Searchable(nodes[path[..n]].meta.mode)
  }

  /** Members as the archive writes them: each path once, plain, after the directory that holds it, attributes only
      of the kept ones. */
  ghost predicate WellListed(members: seq<Member>, kept: set<string>) {
    && (forall i, j :: 0 <= i < j < |members| ==> members[i].path != members[j].path)
    && forall i :: 0 <= i < |members| ==> MemberListed(members, i, kept)
  }

  ghost predicate MemberListed(members: seq<Member>, i: nat, kept: set<string>)
    requires i < |members|
  {
    var m := members[i];
    && PlainPath(m.path) && m.attributes.Keys <= kept
    && (|m.path| > 1 ==> exists j :: 0 <= j < i && members[j].path == Parent(m.path) && members[j].kind.DirectoryMember?)
  }

  /** A path that cannot lead out of the directory it is joined to. */
  predicate StaysBelow(path: Path) {
    path != [] && forall name <- path :: name != "" && name != "." && name != ".." && forall c <- name :: c != '/'
  }

  lemma PlainStaysBelow(path: Path)
    requires PlainPath(path)
    ensures StaysBelow(path)
  {
    forall name <- path ensures name != "" && name != "." && name != ".." && forall c <- name :: c != '/' {
      var i :| 0 <= i < |path| && path[i] == name;
      assert PlainName(path[i]);
    }
  }

  predicate Supported(m: Member) {
    m.kind.DirectoryMember? || m.kind.FileMember?
  }

  lemma {:induction false} PrefixesListed(members: seq<Member>, kept: set<string>, i: nat, n: nat) returns (j: nat)
    requires WellListed(members, kept) && i < |members| && 0 < n < |members[i].path|
    ensures j < i && members[j].path == members[i].path[..n] && members[j].kind.DirectoryMember?
    decreases i
  {
    var path := members[i].path;
    assert MemberListed(members, i, kept);
    var k :| 0 <= k < i && members[k].path == Parent(path) && members[k].kind.DirectoryMember?;
    if n == |path| - 1 {
      j := k;
    } else {
      j := PrefixesListed(members, kept, k, n);
      assert Parent(path)[..n] == path[..n];
    }
  }

  /** The nodes are those of the first `n` members: files as they are, directories still private. */
  ghost predicate Built(nodes: map<Path, Node>, members: seq<Member>, n: nat)
    requires n <= |members|
  {
    && (forall p :: p in nodes <==> exists j :: 0 <= j < n && members[j].path == p)
    && (forall j :: 0 <= j < n ==> MemberBuilt(nodes, members[j], false))
  }

  ghost predicate MemberBuilt(nodes: map<Path, Node>, m: Member, finished: bool) {
    && m.path in nodes
    && if m.kind.DirectoryMember? && !finished then nodes[m.path].Folder? && nodes[m.path].meta.mode == PRIVATE
       else nodes[m.path] == NodeOf(m)
  }

  /** All members are there, and the directories from the `t`th member on have their own metadata. */
  ghost predicate Finishing(nodes: map<Path, Node>, members: seq<Member>, t: nat) {
    && (forall p :: p in nodes <==> exists j :: 0 <= j < |members| && members[j].path == p)
    && (forall j :: 0 <= j < |members| ==> MemberBuilt(nodes, members[j], j >= t))
  }

  ghost predicate Reproduces(nodes: map<Path, Node>, members: seq<Member>) {
    && (forall p :: p in nodes <==> exists j :: 0 <= j < |members| && members[j].path == p)
    && (forall j :: 0 <= j < |members| ==> members[j].path in nodes && nodes[members[j].path] == NodeOf(members[j]))
  }

  /** The directories above a member are the earlier members of the listing, still searchable. */
  lemma AboveIsReachable(nodes: map<Path, Node>, members: seq<Member>, kept: set<string>, i: nat)
    requires WellListed(members, kept) && i < |members|
    requires forall j :: 0 <= j < i ==> MemberBuilt(nodes, members[j], false)
    ensures Reachable(nodes, members[i].path)
  {
    var path := members[i].path;
    forall n | 0 < n < |path| ensures SearchedAt(nodes, path, n) {
      var j := PrefixesListed(members, kept, i, n);
      assert MemberBuilt(nodes, members[j], false);
    }
  }

  lemma ParentIsBuilt(nodes: map<Path, Node>, members: seq<Member>, kept: set<string>, i: nat)
    requires WellListed(members, kept) && i < |members| && Built(nodes, members, i)
    ensures PlainPath(members[i].path) && members[i].path !in nodes
    ensures |members[i].path| > 1 ==> Parent(members[i].path) in nodes && nodes[Parent(members[i].path)].Folder?
  {
    assert MemberListed(members, i, kept);
    if |members[i].path| > 1 {
      var j :| 0 <= j < i && members[j].path == Parent(members[i].path) && members[j].kind.DirectoryMember?;
      assert MemberBuilt(nodes, members[j], false);
    }
  }

  /** Creating the next member's entry touches the directory above it, whose metadata is not its own yet. */
  lemma OneMoreBuilt(nodes: map<Path, Node>, members: seq<Member>, kept: set<string>, i: nat, now: int, node: Node)
    requires WellListed(members, kept) && i < |members| && Built(nodes, members, i)
    requires MemberBuilt(map[members[i].path := node], members[i], false)
    ensures members[i].path != [] && Built(TouchParent(nodes, members[i].path, now)[members[i].path := node], members, i + 1)
  {
    ParentIsBuilt(nodes, members, kept, i);
    var path := members[i].path;
    var after := TouchParent(nodes, path, now)[path := node];
    forall j | 0 <= j < i + 1 ensures MemberBuilt(after, members[j], false) {
      if j < i {
        assert MemberBuilt(nodes, members[j], false) && members[j].path != path;
        if members[j].path == Parent(path) && !members[j].kind.DirectoryMember? {
          assert nodes[members[j].path] == NodeOf(members[j]) && NodeOf(members[j]).Document?;
        }
      }
    }
  }

  /** A file system: what stands below a directory of the root stands in a directory. */
  ghost predicate Rooted(nodes: map<Path, Node>) {
    forall p :: p in nodes ==> p != [] && (|p| > 1 ==> Parent(p) in nodes && nodes[Parent(p)].Folder?)
  }

  predicate FileAt(nodes: map<Path, Node>, path: Path, n: nat)
    requires n <= |path|
  {
    path[..n] in nodes && nodes[path[..n]].Document?
  }

  predicate OnWay(p: Path, path: Path) {
    0 < |p| <= |path| && p == path[..|p|]
  }

  /** The node made at a path on the way to another: that one itself, or one above it. */
  function MadeAt(p: Path, path: Path, made: Meta, above: Meta): Node {
    Folder(if p == path then made else above)
  }

  /** A directory in which the next one of the way was made. */
  predicate Touched(before: map<Path, Node>, p: Path, path: Path) {
    && p in before && before[p].Folder? && OnWay(p, path) && |p| < |path| && path[..|p| + 1] !in before
  }

  /** Every directory up to the path is there: those that were, the last of them touched when one was made in it, and
      the missing ones. */
  ghost predicate Made(before: map<Path, Node>, after: map<Path, Node>, path: Path, made: Meta, above: Meta) {
    && (forall p :: p in after <==> p in before || OnWay(p, path))
    && (forall p :: p in after && p !in before ==> after[p] == MadeAt(p, path, made, above))
    && (forall p :: p in before && p in after ==>
          after[p] == if Touched(before, p, path) then Folder(before[p].meta.(mtime := made.mtime)) else before[p])
  }

  lemma FileAbove(nodes: map<Path, Node>, path: Path)
    requires path != [] && path !in nodes
    ensures (exists n :: 0 < n <= |path| && FileAt(nodes, path, n)) <==>
            (exists n :: 0 < n <= |Parent(path)| && FileAt(nodes, Parent(path), n))
  {
    assert path[..|path|] == path;
    forall n | 0 < n < |path| ensures FileAt(nodes, path, n) <==> FileAt(nodes, Parent(path), n) {
      assert Parent(path)[..n] == path[..n];
    }
  }

  lemma {:induction false} PrefixesStand(nodes: map<Path, Node>, path: Path, n: nat)
    requires Rooted(nodes) && path in nodes && 0 < n <= |path|
    ensures path[..n] in nodes && (n < |path| ==> nodes[path[..n]].Folder?)
    decreases |path|
  {
    if n == |path| {
      assert path[..n] == path;
    } else {
      PrefixesStand(nodes, Parent(path), n);
      assert Parent(path)[..n] == path[..n];
    }
  }

  lemma StandingIsMade(nodes: map<Path, Node>, path: Path, made: Meta, above: Meta)
    requires Rooted(nodes) && path in nodes
    ensures Made(nodes, nodes, path, made, above)
    ensures (exists n :: 0 < n <= |path| && FileAt(nodes, path, n)) <==> nodes[path].Document?
  {
    forall p | OnWay(p, path) ensures p in nodes { PrefixesStand(nodes, path, |p|); }
    forall p ensures !Touched(nodes, p, path) {
      if OnWay(p, path) && |p| < |path| { PrefixesStand(nodes, path, |p| + 1); }
    }
    forall n | 0 < n < |path| ensures !FileAt(nodes, path, n) { PrefixesStand(nodes, path, n); }
    assert path[..|path|] == path;
    assert nodes[path].Document? <==> FileAt(nodes, path, |path|);
  }

  lemma OnWayToParent(p: Path, path: Path)
    requires path != []
    ensures OnWay(p, path) <==> p == path || OnWay(p, Parent(path))
  {
    if |p| < |path| { assert Parent(path)[..|p|] == path[..|p|]; }
    assert path[..|path|] == path;
  }

  lemma TouchedAbove(before: map<Path, Node>, p: Path, path: Path)
    requires path != [] && path !in before
    ensures Touched(before, p, path) <==>
            Touched(before, p, Parent(path)) || (|path| > 1 && p == Parent(path) && p in before && before[p].Folder?)
  {
    OnWayToParent(p, path);
    assert path[..|path|] == path;
    if |p| + 1 < |path| { assert Parent(path)[..|p| + 1] == path[..|p| + 1]; }
  }

  lemma OneMoreMade(before: map<Path, Node>, nodes: map<Path, Node>, path: Path, made: Meta, above: Meta)
    requires [] !in before && path != [] && path !in before && above.mtime == made.mtime && Made(before, nodes, Parent(path), above, above)
    requires |path| > 1 ==> Parent(path) in nodes && nodes[Parent(path)].Folder?
    ensures Made(before, TouchParent(nodes, path, made.mtime)[path := Folder(made)], path, made, above)
  {
    var q, after := Parent(path), TouchParent(nodes, path, made.mtime)[path := Folder(made)];
    forall p ensures p in after <==> p in before || OnWay(p, path) {
      OnWayToParent(p, path);
    }
    forall p | p in before
      ensures after[p] == if Touched(before, p, path) then Folder(before[p].meta.(mtime := made.mtime)) else before[p]
    {
      TouchedAbove(before, p, path);
    }
  }

  class Target {
    const uid: nat
    const gid: nat
    const defaultMode: nat     // 0777 without the process's mask
    var nodes: map<Path, Node>

    constructor (uid: nat, gid: nat, defaultMode: nat)
      ensures nodes == map[] && this.uid == uid && this.gid == gid && this.defaultMode == defaultMode
    {
      this.uid := uid;
      this.gid := gid;
      this.defaultMode := defaultMode;
      nodes := map[];
    }

    /** `mkdir(mode=mode, parents=True, exist_ok=True)`; a missing parent is made with the default mode. */
    method MakeDirectories(path: Path, mode: nat, now: int) returns (failed: bool)
      modifies `nodes
      ensures path == [] || path in old(nodes) ==> nodes == old(nodes) && (failed <==> path != [] && !nodes[path].Folder?)
      ensures path != [] && path !in old(nodes) && (|path| == 1 || (Parent(path) in old(nodes) && old(nodes)[Parent(path)].Folder?)) ==>
                !failed && nodes == TouchParent(old(nodes), path, now)[path := Folder(Meta(uid, gid, mode, now))]
      ensures !failed && path != [] ==> path in nodes && nodes[path].Folder?
      ensures failed ==> nodes == old(nodes)
      ensures old(nodes).Keys <= nodes.Keys
      ensures Rooted(old(nodes)) ==> (failed <==> exists n :: 0 < n <= |path| && FileAt(old(nodes), path, n))
      ensures Rooted(old(nodes)) && !failed ==>
                Made(old(nodes), nodes, path, Meta(uid, gid, mode, now), Meta(uid, gid, defaultMode, now))
      decreases |path|
    {
      ghost var before := nodes;
      ghost var made, above := Meta(uid, gid, mode, now), Meta(uid, gid, defaultMode, now);
      if path == [] { return false; }
      if path in nodes {
        if Rooted(before) { StandingIsMade(before, path, made, above); }
        return !nodes[path].Folder?;
      }
      failed := MakeDirectories(Parent(path), defaultMode, now);
      FileAbove(before, path);
      if !failed {
        if Rooted(before) { OneMoreMade(before, nodes, path, made, above); }
        nodes := TouchParent(nodes, path, now)[path := Folder(Meta(uid, gid, mode, now))];
      }
    }

    /** One member: a directory that is given its own metadata later, or a file with its bytes, attributes and
        metadata. */
    method Place(m: Member, kept: set<string>, now: int) returns (failed: bool)
      requires Supported(m) && PlainPath(m.path)
      modifies `nodes
      ensures old(nodes).Keys <= nodes.Keys
      ensures !failed ==> m.path in nodes
      ensures !failed && m.kind.FileMember? ==> m.path !in old(nodes) && m.attributes.Keys <= kept && nodes[m.path] == NodeOf(m)
      ensures m.path !in old(nodes) && (|m.path| == 1 || (Parent(m.path) in old(nodes) && old(nodes)[Parent(m.path)].Folder?))
              && m.attributes.Keys <= kept && Reachable(TouchParent(old(nodes), m.path, now), m.path) ==>
                !failed && nodes == TouchParent(old(nodes), m.path, now)[m.path := if m.kind.DirectoryMember? then Folder(Meta(uid, gid, PRIVATE, now)) else NodeOf(m)]
    {
      if m.kind.DirectoryMember? {
        failed := MakeDirectories(m.path, PRIVATE, now);
        return;
      }
      failed := MakeDirectories(Parent(m.path), PRIVATE, now);
      if failed || m.path in nodes { return true; }
      nodes := TouchParent(nodes, m.path, now)[m.path := Document(m.bytes, map[], Meta(uid, gid, PRIVATE, now))];
      if !(m.attributes.Keys <= kept) { return true; }
      nodes := nodes[m.path := Document(m.bytes, m.attributes, nodes[m.path].meta)];
      ReachableBeside(TouchParent(old(nodes), m.path, now), m.path, nodes[m.path]);
      ghost var touched := TouchParent(old(nodes), m.path, now);
      assert m.path !in old(nodes) && (|m.path| == 1 || (Parent(m.path) in old(nodes) && old(nodes)[Parent(m.path)].Folder?)) ==>
               nodes == touched[m.path := nodes[m.path]];
      var reached := CanReach(m.path);
      if !reached { return true; }
      nodes := nodes[m.path := NodeOf(m)];
    }

    method CanReach(path: Path) returns (reached: bool)
      requires path != []
      ensures reached <==> Reachable(nodes, path)
    {
      reached := true;
      for n := 1 to |path|
        invariant reached <==> forall k :: 0 < k < n ==> SearchedAt(nodes, path, k)
      {
        if !SearchedAt(nodes, path, n) { reached := false; }
      }
    }

    /** The whole stream. A member that is no directory and no regular file, a path that is not plain, a file that is
        already there or an attribute that is not kept refuses it; directories get their own metadata last, the
        deepest first. */
    method Extract(members: seq<Member>, kept: set<string>, clock: seq<int>) returns (refused: bool)
      requires |clock| == |members|
      modifies `nodes
      ensures old(nodes) == map[] && WellListed(members, kept) ==>
                && (refused <==> exists i :: 0 <= i < |members| && !Supported(members[i]))
                && (!refused ==> Reproduces(nodes, members))
      ensures !refused ==> forall i :: 0 <= i < |members| ==> StaysBelow(members[i].path) && Supported(members[i])
      ensures !refused ==> NothingTwice(members, |members|) && OnlyKept(members, kept, |members|)
    {
      ghost var good := nodes == map[] && WellListed(members, kept);
      var directories;
      ghost var at;
      refused, directories, at := Unpack(members, kept, clock, good);
      if !refused { refused := Finish(directories, members, kept, at, good); }
    }

    /** The first loop: everything is created, in the order of the stream. */
    method Unpack(members: seq<Member>, kept: set<string>, clock: seq<int>, ghost good: bool)
      returns (refused: bool, directories: seq<Member>, ghost at: seq<nat>)
      requires |clock| == |members| && (good ==> nodes == map[] && WellListed(members, kept))
      modifies `nodes
      ensures !refused ==> Gathered(directories, at, members, |members|) && forall i :: 0 <= i < |members| ==> Supported(members[i])
      ensures good && !refused ==> Built(nodes, members, |members|)
      ensures !refused ==> forall i :: 0 <= i < |members| ==> StaysBelow(members[i].path)
      ensures !refused ==> NothingTwice(members, |members|) && OnlyKept(members, kept, |members|)
      ensures good && refused ==> exists i :: 0 <= i < |members| && !Supported(members[i])
    {
      directories, at, refused := [], [], false;
      for i := 0 to |members|
        invariant !refused && (good ==> Built(nodes, members, i))
        invariant forall j :: 0 <= j < i ==> Supported(members[j])
        invariant forall j :: 0 <= j < i ==> StaysBelow(members[j].path)
        invariant Gathered(directories, at, members, i)
        invariant forall j :: 0 <= j < i ==> members[j].path in nodes
        invariant NothingTwice(members, i) && OnlyKept(members, kept, i)
      {
        var m := members[i];
        ghost var before := nodes;
        if good { StepIsReady(before, members, kept, i, clock[i]); }
        if !PlainPath(m.path) || !Supported(m) {
          return true, directories, at;
        }
        PlainStaysBelow(m.path);
        var failed := Place(m, kept, clock[i]);
        if failed { return true, directories, at; }
        OneMoreNew(before.Keys, members, kept, i);
        if good {
          OneMoreBuilt(before, members, kept, i, clock[i], if m.kind.DirectoryMember? then Folder(Meta(uid, gid, PRIVATE, clock[i])) else NodeOf(m));
        }
        if m.kind.DirectoryMember? {
          OneMoreGathered(directories, at, members, i);
          directories, at := directories + [m], at + [i];
        }
      }
    }

    /** The last loop: the metadata of the directories, in reverse order. */
    method Finish(directories: seq<Member>, ghost members: seq<Member>, ghost kept: set<string>, ghost at: seq<nat>, ghost good: bool)
      returns (failed: bool)
      requires Gathered(directories, at, members, |members|)
      requires good ==> WellListed(members, kept) && Built(nodes, members, |members|)
      modifies `nodes
      ensures good ==> !failed && Reproduces(nodes, members)
      ensures nodes.Keys == old(nodes).Keys
    {
      failed := false;
      var k := |directories|;
      ghost var t := |members|;
      while k > 0
        invariant 0 <= k <= |directories| && t <= |members|
        invariant t == if k == |directories| then |members| else at[k]
        invariant good ==> Finishing(nodes, members, t)
        invariant nodes.Keys == old(nodes).Keys
      {
        k := k - 1;
        var m := directories[k];
        if good {
          DirectoryAbove(nodes, members, kept, at[k], t);
          forall j | at[k] < j < |members| && members[j].kind.DirectoryMember? ensures j >= t {
            NoneBetween(directories, at, members, k, t, j);
          }
          NextDirectory(nodes, members, kept, at[k], t);
        }
        var reached := CanReach(m.path);
        if !reached || m.path !in nodes { return true; }
        nodes := nodes[m.path := NodeOf(m)];
        t := at[k];
      }
      if good { NoneLeft(nodes, members, directories, at, t); }
    }
  }

  /** No file takes the place of an earlier member. */
  ghost predicate NothingTwice(members: seq<Member>, n: nat)
    requires n <= |members|
  {
    forall i, j :: 0 <= i < j < n && members[j].kind.FileMember? ==> members[i].path != members[j].path
  }

  lemma OneMoreNew(there: set<Path>, members: seq<Member>, kept: set<string>, n: nat)
    requires n < |members| && NothingTwice(members, n) && OnlyKept(members, kept, n)
    requires forall j :: 0 <= j < n ==> members[j].path in there
    requires members[n].kind.FileMember? ==> members[n].path !in there && members[n].attributes.Keys <= kept
    ensures NothingTwice(members, n + 1) && OnlyKept(members, kept, n + 1)
  {
  }

  ghost predicate OnlyKept(members: seq<Member>, kept: set<string>, n: nat)
    requires n <= |members|
  {
    forall i :: 0 <= i < n && members[i].kind.FileMember? ==> members[i].attributes.Keys <= kept
  }

  /** The directory members, in order, and where they stand. */
  ghost predicate Gathered(directories: seq<Member>, at: seq<nat>, members: seq<Member>, n: nat)
    requires n <= |members|
  {
    && |at| == |directories|
    && (forall k :: 0 <= k < |at| ==> at[k] < n && members[at[k]] == directories[k] && directories[k].kind.DirectoryMember?
                                      && directories[k].path != [])
    && (forall k, l :: 0 <= k < l < |at| ==> at[k] < at[l])
    && (forall i :: 0 <= i < n && members[i].kind.DirectoryMember? ==> i in at)
  }

  lemma OneMoreGathered(directories: seq<Member>, at: seq<nat>, members: seq<Member>, n: nat)
    requires n < |members| && Gathered(directories, at, members, n) && members[n].kind.DirectoryMember? && members[n].path != []
    ensures Gathered(directories + [members[n]], at + [n], members, n + 1)
  {
  }

  lemma ReachableBeside(nodes: map<Path, Node>, path: Path, node: Node)
    ensures Reachable(nodes[path := node], path) <==> Reachable(nodes, path)
  {
    var after := nodes[path := node];
    forall n | 0 < n < |path| ensures SearchedAt(after, path, n) == SearchedAt(nodes, path, n) {
      assert |path[..n]| != |path|;
      assert path[..n] != path;
    }
    if Reachable(after, path) {
      forall n | 0 < n < |path| ensures SearchedAt(nodes, path, n) { assert SearchedAt(after, path, n); }
    }
    if Reachable(nodes, path) {
      forall n | 0 < n < |path| ensures SearchedAt(after, path, n) { assert SearchedAt(nodes, path, n); }
    }
  }

  lemma StepIsReady(nodes: map<Path, Node>, members: seq<Member>, kept: set<string>, i: nat, now: int)
    requires WellListed(members, kept) && i < |members| && Built(nodes, members, i)
    ensures PlainPath(members[i].path) && members[i].path !in nodes && members[i].attributes.Keys <= kept
    ensures |members[i].path| > 1 ==> Parent(members[i].path) in nodes && nodes[Parent(members[i].path)].Folder?
    ensures Reachable(TouchParent(nodes, members[i].path, now), members[i].path)
  {
    ParentIsBuilt(nodes, members, kept, i);
    assert MemberListed(members, i, kept);
    var touched := TouchParent(nodes, members[i].path, now);
    forall j | 0 <= j < i ensures MemberBuilt(touched, members[j], false) {
      assert MemberBuilt(nodes, members[j], false);
      if members[j].path == Parent(members[i].path) && !members[j].kind.DirectoryMember? {
        assert NodeOf(members[j]).Document?;
      }
    }
    AboveIsReachable(touched, members, kept, i);
  }

  lemma DirectoryAbove(nodes: map<Path, Node>, members: seq<Member>, kept: set<string>, i: nat, t: nat)
    requires WellListed(members, kept) && i < |members| && i < t && Finishing(nodes, members, t)
    ensures members[i].path in nodes && Reachable(nodes, members[i].path)
  {
    forall j | 0 <= j < i ensures MemberBuilt(nodes, members[j], false) { assert MemberBuilt(nodes, members[j], j >= t); }
    AboveIsReachable(nodes, members, kept, i);
    assert MemberBuilt(nodes, members[i], i >= t);
  }

  /** Between a directory and the next one of the list stands no other directory. */
  lemma NoneBetween(directories: seq<Member>, at: seq<nat>, members: seq<Member>, k: nat, t: nat, j: nat)
    requires Gathered(directories, at, members, |members|) && k < |directories| && j < |members|
    requires t == if k + 1 == |directories| then |members| else at[k + 1]
    requires members[j].kind.DirectoryMember? && at[k] < j
    ensures j >= t
  {
    var l :| 0 <= l < |at| && at[l] == j;
    assert l > k;
    assert l == k + 1 || at[k + 1] < at[l];
  }

  /** The next directory from the end gets its metadata, and what is finished stays so. */
  lemma NextDirectory(nodes: map<Path, Node>, members: seq<Member>, kept: set<string>, i: nat, t: nat)
    requires WellListed(members, kept) && i < t <= |members| && Finishing(nodes, members, t)
    requires members[i].kind.DirectoryMember?
    requires forall j :: i < j < |members| && members[j].kind.DirectoryMember? ==> j >= t
    ensures Finishing(nodes[members[i].path := NodeOf(members[i])], members, i)
  {
    var after := nodes[members[i].path := NodeOf(members[i])];
    forall j | 0 <= j < |members| ensures MemberBuilt(after, members[j], j >= i) {
      assert MemberBuilt(nodes, members[j], j >= t);
      assert j != i ==> members[j].path != members[i].path;
    }
  }

  lemma NoneLeft(nodes: map<Path, Node>, members: seq<Member>, directories: seq<Member>, at: seq<nat>, t: nat)
    requires Gathered(directories, at, members, |members|) && Finishing(nodes, members, t) && t <= |members|
    requires t == if |directories| == 0 then |members| else at[0]
    ensures Reproduces(nodes, members)
  {
    forall j | 0 <= j < |members| ensures members[j].path in nodes && nodes[members[j].path] == NodeOf(members[j]) {
      assert MemberBuilt(nodes, members[j], j >= t);
      if members[j].kind.DirectoryMember? {
        var l :| 0 <= l < |at| && at[l] == j;
        assert l == 0 || at[0] < at[l];
        assert j >= t;
      }
    }
  }

  // ------------------------------------------------------------ the round trip

  /** What a tree's entry should be in the target. */
  function CopyOf(entry: Entry, kept: set<string>): Node
    requires entry.Directory? || entry.Regular?
  {
    match entry
    case Directory(meta) => Folder(Restored(meta))
    case Regular(_, bytes, attributes, meta) => Document(bytes, Chosen(attributes, kept), Restored(meta))
  }

  ghost predicate CopyOfTree(nodes: map<Path, Node>, tree: Tree, kept: set<string>) {
    Archivable(tree) && nodes.Keys == tree.Keys && forall p :: p in tree ==> nodes[p] == CopyOf(tree[p], kept)
  }

  /** With the attributes kept by name: each directory and file of the tree, and nothing else, is in the copy, with its
      owner, its mode within 0777, its time and its bytes; a file has those of the three attributes that it had, and no
      other. */
  lemma CopiesAreFaithful(nodes: map<Path, Node>, tree: Tree, path: Path)
    requires CopyOfTree(nodes, tree, KEPT)
    ensures path in nodes <==> path in tree
    ensures path in tree ==> (nodes[path].Folder? <==> tree[path].Directory?) && (nodes[path].Document? <==> tree[path].Regular?)
    ensures path in tree ==> nodes[path].meta == Meta(tree[path].meta.uid, tree[path].meta.gid, tree[path].meta.mode % 0x200, tree[path].meta.mtime)
    ensures path in tree && tree[path].Regular? ==> nodes[path].bytes == tree[path].bytes
  {
  }

  lemma KeptAttributesAreCopied(nodes: map<Path, Node>, tree: Tree, path: Path, name: string)
    requires CopyOfTree(nodes, tree, KEPT) && path in tree && tree[path].Regular?
    ensures name in nodes[path].attributes <==> name in KEPT && name in tree[path].attributes
    ensures name in nodes[path].attributes ==> nodes[path].attributes[name] == tree[path].attributes[name]
  {
  }

  /** Two names of one file inside the tree. */
  ghost predicate HardLinked(tree: Tree) {
    exists p, q :: p in tree && q in tree && p != q && tree[p].Regular? && tree[q].Regular? && tree[p].inode == tree[q].inode
  }

  lemma LinkedExactlyWhenHardLinked(tree: Tree, order: seq<Path>)
    requires Lists(order, tree)
    ensures (exists i :: 0 <= i < |order| && Linked(tree, order, i)) <==> HardLinked(tree)
  {
    if i :| 0 <= i < |order| && Linked(tree, order, i) {
      var j :| 0 <= j < i && tree[order[j]].Regular? && tree[order[j]].inode == tree[order[i]].inode;
      assert order[j] in tree && order[i] in tree && order[j] != order[i];
    }
    if HardLinked(tree) {
      var p, q :| p in tree && q in tree && p != q && tree[p].Regular? && tree[q].Regular? && tree[p].inode == tree[q].inode;
      var i :| 0 <= i < |order| && order[i] == p;
      var j :| 0 <= j < |order| && order[j] == q;
      assert Linked(tree, order, if i < j then j else i);
    }
  }

  /** Such a tree: the tenant's directory with one file under two names. */
  lemma TwoNamesOfOneFile(tenant: string, meta: Meta) returns (tree: Tree, order: seq<Path>)
    requires PlainName(tenant)
    ensures TenantTree(tree, tenant) && Lists(order, tree) && Archivable(tree) && HardLinked(tree)
  {
    var file := Regular(1, [], map[], meta);
    var one, two := [tenant, "a"], [tenant, "b"];
    assert "a"[0] == 'a' && "b"[0] == 'b';
    assert one[1] != two[1];
    tree := map[[tenant] := Directory(meta), one := file, two := file];
    order := [[tenant], one, two];
    assert Parent(one) == [tenant] && Parent(two) == [tenant];
    assert order[..1][0] == [tenant] && order[..2][0] == [tenant];
    assert one in tree && two in tree && tree[one].inode == tree[two].inode;
  }

  lemma ArchiveIsWellListed(members: seq<Member>, tree: Tree, tenant: string, order: seq<Path>, kept: set<string>)
    requires TenantTree(tree, tenant) && Lists(order, tree) && Archivable(tree) && ArchiveOf(members, tree, order, kept)
    requires forall i :: 0 <= i < |members| && members[i].kind.DirectoryMember? ==> members[i].attributes == map[]
    ensures WellListed(members, kept)
    ensures forall i :: 0 <= i < |members| ==> (Supported(members[i]) <==> !Linked(tree, order, i))
  {
    forall i | 0 <= i < |members|
      ensures members[i].path == order[i] && (Supported(members[i]) <==> !Linked(tree, order, i)) && members[i].attributes.Keys <= kept
    {
      assert order[i] in tree;
      assert Describes(members[i], order[i], tree[order[i]], Linked(tree, order, i), kept);
    }
    forall i | 0 <= i < |members| ensures MemberListed(members, i, kept) {
      var path := order[i];
      assert path in order && path in tree;
      if |path| > 1 {
        assert ParentListed(order, i);
        var j :| 0 <= j < i && order[j] == Parent(path);
        assert Describes(members[j], order[j], tree[order[j]], Linked(tree, order, j), kept);
        assert members[j].path == Parent(members[i].path) && members[j].kind.DirectoryMember?;
      }
    }
  }

  lemma ReproducedIsTheCopy(nodes: map<Path, Node>, members: seq<Member>, tree: Tree, order: seq<Path>, kept: set<string>)
    requires Lists(order, tree) && Archivable(tree) && ArchiveOf(members, tree, order, kept)
    requires Reproduces(nodes, members) && forall i :: 0 <= i < |members| ==> Supported(members[i])
    ensures CopyOfTree(nodes, tree, kept)
  {
    forall i | 0 <= i < |order| ensures order[i] in nodes && order[i] in tree && nodes[order[i]] == CopyOf(tree[order[i]], kept) {
      assert order[i] in order;
      assert Describes(members[i], order[i], tree[order[i]], Linked(tree, order, i), kept);
      assert nodes[members[i].path] == NodeOf(members[i]);
    }
    forall p ensures p in nodes <==> p in tree {
      if p in nodes {
        var i :| 0 <= i < |members| && members[i].path == p;
        assert Describes(members[i], order[i], tree[order[i]], Linked(tree, order, i), kept);
      }
    }
    assert nodes.Keys == tree.Keys;
  }

  /** A tenant's tree, archived and extracted into an empty root, is reproduced: its paths, each file's bytes and kept
      attributes, each owner, mode within 0777 and time, those of directories included. It is refused exactly when
      something in it is no directory and no regular file, or a file has two names in it. */
  method CopyTenant(tree: Tree, tenant: string, order: seq<Path>, kept: set<string>, clock: seq<int>, target: Target)
    returns (refused: bool)
    requires TenantTree(tree, tenant) && Lists(order, tree) && |clock| == |order| && target.nodes == map[]
    modifies target
    ensures refused <==> !Archivable(tree) || HardLinked(tree)
    ensures !refused ==> CopyOfTree(target.nodes, tree, kept)
  {
    var members;
    refused, members := Archive(tree, order, kept);
    if refused { return; }
    ArchiveIsWellListed(members, tree, tenant, order, kept);
    LinkedExactlyWhenHardLinked(tree, order);
    refused := target.Extract(members, kept, clock);
    if !refused { ReproducedIsTheCopy(target.nodes, members, tree, order, kept); }
  }

  /** A tenant without files is extracted as an empty private directory. */
  method CopyAbsentTenant(tenant: string, kept: set<string>, now: int, target: Target) returns (refused: bool)
    requires PlainName(tenant) && target.nodes == map[]
    modifies target
    ensures !refused && target.nodes == map[[tenant] := Folder(Meta(0, 0, 0x1C0, 0))]   // 0700
  {
    var members := [AbsentTenant(tenant)];
    assert MemberListed(members, 0, kept);
    refused := target.Extract(members, kept, [now]);
    assert members[0].path in target.nodes;
    assert PRIVATE % 512 == PRIVATE;
  }
}
