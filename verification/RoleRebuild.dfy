/** lab/cluster_rebuild.py, the read back of `rebuild`: what the compiled statements leave in a cluster that held only
    the image's roles, when they all run, and exactly when the record read back compares equal to the inventory. */
module RoleRebuild {
  import opened Prelude
  import opened SqlText
  import opened RoleInventory
  import opened RoleCompiler

  // ------------------------------------------------------------ settings

  /** The text PostgreSQL stores for a recorded setting that is set again. */
  function StoredText(text: string, lists: set<string>, server: Server): Option<string> {
    if SettingSql(text, lists).None? || StoredValue(SettingSql(text, lists).value, server).None? then None
    else Some(KeyOf(text) + "=" + StoredValue(SettingSql(text, lists).value, server).value)
  }

  predicate AllStored(settings: seq<string>, lists: set<string>, server: Server) {
    forall i :: 0 <= i < |settings| ==> StoredText(settings[i], lists, server).Some?
  }

  /** The stored settings of a role after `texts` were put one after another. */
  function PutAll(base: seq<string>, texts: seq<string>): seq<string> {
    if texts == [] then base else Put(PutAll(base, texts[..|texts| - 1]), texts[|texts| - 1])
  }

  function StoredAll(settings: seq<string>, lists: set<string>, server: Server): seq<string>
    requires AllStored(settings, lists, server)
  {
    seq(|settings|, i requires 0 <= i < |settings| => StoredText(settings[i], lists, server).value)
  }

  lemma {:induction false} KeyHasNoEquals(text: string)
    ensures forall i :: 0 <= i < |KeyOf(text)| ==> KeyOf(text)[i] != '='
    decreases |text|
  {
    if text != "" && text[0] != '=' { KeyHasNoEquals(text[1..]); }
  }

  lemma StoredKeepsKey(text: string, lists: set<string>, server: Server)
    requires StoredText(text, lists, server).Some?
    ensures KeyOf(StoredText(text, lists, server).value) == KeyOf(text)
  {
    KeyHasNoEquals(text);
    KeyOfJoined(KeyOf(text), StoredValue(SettingSql(text, lists).value, server).value);
  }

  lemma {:induction false} KeyThenValue(text: string)
    requires HasValue(text)
    ensures text == KeyOf(text) + "=" + ValueOf(text)
    decreases |text|
  {
    if text[0] != '=' {
      KeyThenValue(text[1..]);
      assert text == [text[0]] + text[1..];
    }
  }

  /** A setting is stored as it was recorded exactly when it is no list, or a list of elements written the way
      PostgreSQL writes them. */
  predicate CanonicalSetting(text: string, lists: set<string>, server: Server)
    requires SettingSql(text, lists).Some?
  {
    KeyOf(text) in lists ==>
      forall i :: 0 <= i < |Elements(ValueOf(text)).value| ==> Canonical(Elements(ValueOf(text)).value[i], server.words)
  }

  lemma StoredAsRecorded(text: string, lists: set<string>, server: Server)
    requires SettingSql(text, lists).Some? && server.words.refused <= server.words.quoted
    ensures StoredText(text, lists, server) == Some(text) <==> CanonicalSetting(text, lists, server)
  {
    KeyThenValue(text);
    if KeyOf(text) in lists {
      ListsAreStoredAsWritten(ValueOf(text), server.words);
      if StoredText(text, lists, server) == Some(text) {
        var stored := StoredList(ValueOf(text), server.words).value;
        var prefix := KeyOf(text) + "=";
        assert (prefix + stored)[|prefix|..] == stored && (prefix + ValueOf(text))[|prefix|..] == ValueOf(text);
      }
    }
  }

  // ------------------------------------------------------------ lists told apart by a key

  ghost predicate DistinctBy<T(!new)>(xs: seq<T>, key: T -> string) {
    forall i, j :: 0 <= i < j < |xs| ==> key(xs[i]) != key(xs[j])
  }

  lemma {:induction false} CountedOnce<T(!new)>(xs: seq<T>, key: T -> string, x: T)
    requires DistinctBy(xs, key)
    ensures multiset(xs)[x] <= 1
    decreases |xs|
  {
    if xs != [] {
      var front := xs[..|xs| - 1];
      CountedOnce(front, key, x);
      assert xs == front + [xs[|xs| - 1]];
      if x == xs[|xs| - 1] {
        assert forall i :: 0 <= i < |front| ==> key(front[i]) != key(x);
        assert x !in front;
      }
    }
  }

  lemma CountedTwice<T>(xs: seq<T>, i: nat, j: nat)
    requires i < j < |xs| && xs[i] == xs[j]
    ensures multiset(xs)[xs[i]] >= 2
  {
    assert xs == xs[..j] + [xs[j]] + xs[j + 1..];
    assert xs[..j] == xs[..i] + [xs[i]] + xs[i + 1..j];
  }

  /** Being told apart by the key depends only on the elements, not on their order. */
  lemma DistinctInAnyOrder<T(!new)>(xs: seq<T>, ys: seq<T>, key: T -> string)
    requires DistinctBy(xs, key) && multiset(xs) == multiset(ys)
    ensures DistinctBy(ys, key)
  {
    forall i, j | 0 <= i < j < |ys| ensures key(ys[i]) != key(ys[j]) {
      if ys[i] == ys[j] {
        CountedTwice(ys, i, j);
        CountedOnce(xs, key, ys[i]);
      } else {
        assert ys[i] in multiset(ys) && ys[j] in multiset(ys);
        var a :| 0 <= a < |xs| && xs[a] == ys[i];
        var b :| 0 <= b < |xs| && xs[b] == ys[j];
      }
    }
  }

  lemma SameElementsSameMultiset<T(!new)>(xs: seq<T>, ys: seq<T>, key: T -> string)
    requires DistinctBy(xs, key) && DistinctBy(ys, key)
    requires forall x :: x in xs <==> x in ys
    ensures multiset(xs) == multiset(ys)
  {
    forall x ensures multiset(xs)[x] == multiset(ys)[x] {
      CountedOnce(xs, key, x);
      CountedOnce(ys, key, x);
      assert x in multiset(xs) <==> x in xs;
      assert x in multiset(ys) <==> x in ys;
    }
  }

  lemma DistinctTells<T(!new)>(xs: seq<T>, key: T -> string)
    requires DistinctBy(xs, key)
    ensures KeysTell(xs, key)
  {
    forall x, y | x in multiset(xs) && y in multiset(xs) && key(x) == key(y) ensures x == y {
      var a :| 0 <= a < |xs| && xs[a] == x;
      var b :| 0 <= b < |xs| && xs[b] == y;
    }
  }

  // ------------------------------------------------------------ what a role's settings read back as

  lemma {:induction false} PutKeepsDistinct(settings: seq<string>, text: string)
    requires DistinctBy(settings, KeyOf)
    ensures DistinctBy(Put(settings, text), KeyOf)
    ensures forall x :: x in Put(settings, text) ==> x == text || x in settings
    ensures (forall i :: 0 <= i < |settings| ==> KeyOf(settings[i]) != KeyOf(text)) ==> Put(settings, text) == settings + [text]
    decreases |settings|
  {
    if settings != [] && KeyOf(settings[0]) != KeyOf(text) {
      var rest := settings[1..];
      PutKeepsDistinct(rest, text);
      var put := Put(rest, text);
      forall j | 0 <= j < |put| ensures KeyOf(put[j]) != KeyOf(settings[0]) {
        assert put[j] == text || put[j] in rest;
      }
      assert settings == [settings[0]] + rest;
    }
  }

  lemma {:induction false} PutAllIsDistinct(texts: seq<string>)
    ensures DistinctBy(PutAll([], texts), KeyOf)
    decreases |texts|
  {
    if texts != [] {
      var front := texts[..|texts| - 1];
      PutAllIsDistinct(front);
      PutKeepsDistinct(PutAll([], front), texts[|texts| - 1]);
    }
  }

  lemma FrontIsDistinct(texts: seq<string>)
    requires texts != [] && DistinctBy(texts, KeyOf)
    ensures var n := |texts| - 1;
            DistinctBy(texts[..n], KeyOf) && forall i :: 0 <= i < n ==> KeyOf(texts[..n][i]) != KeyOf(texts[n])
  {
  }

  lemma {:induction false} PutAllOfDistinct(texts: seq<string>)
    requires DistinctBy(texts, KeyOf)
    ensures PutAll([], texts) == texts
    decreases |texts|
  {
    if texts != [] {
      var front, last := texts[..|texts| - 1], texts[|texts| - 1];
      FrontIsDistinct(texts);
      PutAllOfDistinct(front);
      PutKeepsDistinct(front, last);
      assert texts == front + [last];
    }
  }

  lemma SameKeysDistinct(xs: seq<string>, ys: seq<string>)
    requires |xs| == |ys| && forall i :: 0 <= i < |xs| ==> KeyOf(xs[i]) == KeyOf(ys[i])
    requires DistinctBy(xs, KeyOf)
    ensures DistinctBy(ys, KeyOf)
  {
    forall i, j | 0 <= i < j < |ys| ensures KeyOf(ys[i]) != KeyOf(ys[j]) { assert KeyOf(xs[i]) != KeyOf(xs[j]); }
  }

  lemma InPlace(xs: seq<string>, ys: seq<string>)
    requires |xs| == |ys| && forall i :: 0 <= i < |xs| ==> KeyOf(xs[i]) == KeyOf(ys[i])
    requires DistinctBy(ys, KeyOf) && multiset(xs) == multiset(ys)
    ensures xs == ys
  {
    forall i | 0 <= i < |xs| ensures xs[i] == ys[i] {
      assert xs[i] in multiset(ys);
      var j :| 0 <= j < |ys| && ys[j] == xs[i];
      assert KeyOf(ys[j]) == KeyOf(ys[i]);
    }
  }

  lemma StoredKeys(settings: seq<string>, lists: set<string>, server: Server)
    requires AllStored(settings, lists, server)
    ensures var stored := StoredAll(settings, lists, server);
            |stored| == |settings| && forall i :: 0 <= i < |stored| ==> KeyOf(stored[i]) == KeyOf(settings[i])
  {
    forall i | 0 <= i < |settings| ensures KeyOf(StoredAll(settings, lists, server)[i]) == KeyOf(settings[i]) {
      StoredKeepsKey(settings[i], lists, server);
    }
  }

  ghost predicate SettingsRoundTrip(settings: seq<string>, lists: set<string>, server: Server) {
    Ascends(settings, TextKey) && DistinctBy(settings, KeyOf)
    && forall i :: 0 <= i < |settings| ==> SettingSql(settings[i], lists).Some? && CanonicalSetting(settings[i], lists, server)
  }

  lemma StoredAllIsSame(settings: seq<string>, lists: set<string>, server: Server)
    requires AllStored(settings, lists, server) && server.words.refused <= server.words.quoted
    ensures StoredAll(settings, lists, server) == settings <==>
            forall i :: 0 <= i < |settings| ==> SettingSql(settings[i], lists).Some? && CanonicalSetting(settings[i], lists, server)
  {
    var stored := StoredAll(settings, lists, server);
    forall i | 0 <= i < |settings| ensures SettingSql(settings[i], lists).Some?
        && (stored[i] == settings[i] <==> CanonicalSetting(settings[i], lists, server)) {
      assert StoredText(settings[i], lists, server).Some?;
      StoredAsRecorded(settings[i], lists, server);
    }
    if stored == settings {
    } else {
      var i :| 0 <= i < |settings| && stored[i] != settings[i];
    }
  }

  /** What the record reads back of a role's settings is the recorded list exactly when that list is sorted, names no
      setting twice, and each setting is stored as it was written. */
  lemma SettingsReadBack(settings: seq<string>, lists: set<string>, server: Server)
    requires AllStored(settings, lists, server) && server.words.refused <= server.words.quoted
    ensures SortBy(PutAll([], StoredAll(settings, lists, server)), TextKey) == settings <==> SettingsRoundTrip(settings, lists, server)
  {
    var stored := StoredAll(settings, lists, server);
    StoredKeys(settings, lists, server);
    StoredAllIsSame(settings, lists, server);
    SettingsReadBackAs(settings, stored);
  }

  lemma SettingsReadBackAs(settings: seq<string>, stored: seq<string>)
    requires |stored| == |settings| && forall i :: 0 <= i < |stored| ==> KeyOf(stored[i]) == KeyOf(settings[i])
    ensures SortBy(PutAll([], stored), TextKey) == settings <==>
            Ascends(settings, TextKey) && DistinctBy(settings, KeyOf) && stored == settings
  {
    var config := PutAll([], stored);
    PutAllIsDistinct(stored);
    if DistinctBy(stored, KeyOf) { PutAllOfDistinct(stored); }
    SortedExactly(config, settings, TextKey);
    if SortBy(config, TextKey) == settings {
      DistinctInAnyOrder(config, settings, KeyOf);
      SameKeysDistinct(settings, stored);
      InPlace(stored, settings);
    }
  }

  // ------------------------------------------------------------ what its memberships read back as

  function OptionsOf(grant: Grant): Options {
    Options(grant.inherits, grant.sets, grant.admin)
  }

  /** The options of each granted role; a later grant of the same role replaces an earlier one. */
  function Granted(grants: seq<Grant>): map<string, Options> {
    if grants == [] then map[]
    else Granted(grants[..|grants| - 1])[grants[|grants| - 1].role := OptionsOf(grants[|grants| - 1])]
  }

  lemma {:induction false} GrantedOfDistinct(grants: seq<Grant>)
    ensures forall x :: x in Granted(grants) <==> exists i :: 0 <= i < |grants| && grants[i].role == x
    ensures DistinctBy(grants, GrantKey) ==>
              forall g: Grant :: g in grants <==> g.role in Granted(grants) && Granted(grants)[g.role] == OptionsOf(g)
    decreases |grants|
  {
    if grants != [] {
      var n := |grants| - 1;
      var front, last := grants[..n], grants[n];
      GrantedOfDistinct(front);
      assert grants == front + [last];
      forall x ensures x in Granted(grants) <==> exists i :: 0 <= i < |grants| && grants[i].role == x {
        if x in Granted(front) {
          var i :| 0 <= i < |front| && front[i].role == x;
          assert grants[i].role == x;
        }
      }
      if DistinctBy(grants, GrantKey) {
        assert DistinctBy(front, GrantKey) by { assert forall i :: 0 <= i < |front| ==> front[i] == grants[i]; }
        forall g: Grant ensures g in grants <==> g.role in Granted(grants) && Granted(grants)[g.role] == OptionsOf(g) {
          if g in front {
            var i :| 0 <= i < |front| && front[i] == g;
            assert GrantKey(grants[i]) != GrantKey(grants[n]);
          }
        }
      }
    }
  }

  ghost predicate GrantsRoundTrip(grants: seq<Grant>) {
    Ascends(grants, GrantKey) && DistinctBy(grants, GrantKey)
  }

  /** The memberships of a member, each once. */
  ghost predicate Lists(grants: seq<Grant>, granted: map<string, Options>) {
    DistinctBy(grants, GrantKey) && forall g: Grant :: g in grants <==> g.role in granted && granted[g.role] == OptionsOf(g)
  }

  /** What the record reads back of a role's memberships is the recorded list exactly when that list is sorted and
      names no role twice. */
  lemma GrantsReadBack(grants: seq<Grant>, rows: seq<Grant>)
    requires Lists(rows, Granted(grants))
    ensures SortBy(rows, GrantKey) == grants <==> GrantsRoundTrip(grants)
  {
    GrantedOfDistinct(grants);
    DistinctTells(rows, GrantKey);
    SortedExactly(rows, grants, GrantKey);
    if SortBy(rows, GrantKey) == grants {
      DistinctInAnyOrder(rows, grants, GrantKey);
    } else if GrantsRoundTrip(grants) {
      SameElementsSameMultiset(rows, grants, GrantKey);
    }
  }
}
