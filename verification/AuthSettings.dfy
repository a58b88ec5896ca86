/** lab/auth_settings.py: sign-in settings as a file holds them. `validate` admits a file, `file_form` writes one, and
    what it writes validates back to the same settings. The address checks, the registry and the provider lists are
    parameters; the names of the fields are a datatype. */
module AuthSettings {
  import opened Prelude

  /** The keys of a settings object, its providers and its session; any other key by its name. */
  datatype Key =
    | Version | Revision | SiteUrl | RedirectUrls | Signup | Anonymous | ManualLinking | Config | Providers | Session
    | Enabled | ClientId | Secret | Url | SkipNonceCheck | EmailOptional
    | AccessTokenSeconds | TimeboxSeconds | InactivitySeconds
    | Named(name: string)

  datatype Value =
    | Nothing
    | Truth(b: bool)
    | Whole(n: int)
    | Broken(r: real)
    | Words(s: string)
    | Several(items: seq<Value>)
    | Fields(fields: map<Key, Value>)

  datatype Entry =
    | Switch
    | Typed(longest: nat, matches: string -> bool)
    | Amount(least: int, most: int)

  /** What validation looks up: Auth's rules for addresses, the registry, and the providers. */
  datatype Rules = Rules(
    webAddress: string -> bool, redirectAddress: string -> bool, space: char -> bool,
    registry: map<string, Entry>, retired: set<string>,
    providers: set<string>, urlRule: map<string, bool>, nonce: set<string>, google: string)

  datatype Provider = Provider(enabled: bool, clientId: string, secret: string, url: string, skipNonceCheck: bool,
                               emailOptional: bool)

  datatype SessionSettings = SessionSettings(accessToken: Option<int>, timebox: Option<int>, inactivity: Option<int>)

  /** A revision is a count; Python admits a truth value there too, and keeps it. */
  datatype Settings = Settings(revision: Value, siteUrl: string, signup: bool, anonymous: bool, manualLinking: bool,
                               redirects: seq<string>, config: map<string, Value>, providers: map<string, Provider>,
                               session: SessionSettings)

  const VERSION := 2
  const MAX_REDIRECTS := 50

  function Read(fields: map<Key, Value>, key: Key, otherwise: Value): Value {
    if key in fields then fields[key] else otherwise
  }

  // ------------------------------------------------------------ client ids

  function Leading(text: string, space: char -> bool): string {
    if text != "" && space(text[0]) then Leading(text[1..], space) else text
  }

  function Trailing(text: string, space: char -> bool): string {
    if text != "" && space(text[|text| - 1]) then Trailing(text[..|text| - 1], space) else text
  }

  /** `text.strip()`. */
  function Strip(text: string, space: char -> bool): string {
    Trailing(Leading(text, space), space)
  }

  function Stripped(parts: seq<string>, space: char -> bool): seq<string> {
    seq(|parts|, i requires 0 <= i < |parts| => Strip(parts[i], space))
  }

  /** A list of client ids, the spaces around its commas tidied. */
  function Tidy(client: string, space: char -> bool): string {
    if client == "" then client else Join(Stripped(Split(client), space))
  }

  lemma {:induction false} LeadingIsClean(text: string, space: char -> bool)
    ensures var r := Leading(text, space);
            (r != "" ==> !space(r[0])) && |r| <= |text| && r == text[|text| - |r|..]
    decreases |text|
  {
    if text != "" && space(text[0]) { LeadingIsClean(text[1..], space); }
  }

  lemma {:induction false} TrailingIsClean(text: string, space: char -> bool)
    ensures var r := Trailing(text, space);
            (r != "" ==> !space(r[|r| - 1])) && |r| <= |text| && r == text[..|r|]
    decreases |text|
  {
    if text != "" && space(text[|text| - 1]) { TrailingIsClean(text[..|text| - 1], space); }
  }

  lemma StripTwice(text: string, space: char -> bool)
    ensures Strip(Strip(text, space), space) == Strip(text, space)
  {
    LeadingIsClean(text, space);
    TrailingIsClean(Leading(text, space), space);
  }

  ghost predicate NoComma(text: string) {
    ',' !in text
  }

  lemma StripKeepsNoComma(text: string, space: char -> bool)
    requires NoComma(text)
    ensures NoComma(Strip(text, space))
  {
    LeadingIsClean(text, space);
    TrailingIsClean(Leading(text, space), space);
    var lead := Leading(text, space);
    assert forall c :: c in lead ==> c in text;
    assert forall c :: c in Strip(text, space) ==> c in lead;
  }

  lemma {:induction false} SplitHasNoCommas(text: string)
    ensures forall i :: 0 <= i < |Split(text)| ==> NoComma(Split(text)[i])
    decreases |text|
  {
    if text != "" {
      SplitHasNoCommas(text[1..]);
      var rest := Split(text[1..]);
      assert NoComma(rest[0]);
    }
  }

  lemma {:induction false} JoinThenSplit(parts: seq<string>)
    requires parts != [] && forall i :: 0 <= i < |parts| ==> NoComma(parts[i])
    ensures Split(Join(parts)) == parts
    decreases |parts|
  {
    if |parts| == 1 {
      SplitPrefix(parts[0], "");
      assert parts[0] + "" == parts[0];
      assert Split(parts[0]) == [parts[0] + ""];
    } else {
      JoinThenSplit(parts[1..]);
      var tail := "," + Join(parts[1..]);
      SplitPrefix(parts[0], tail);
      assert tail[1..] == Join(parts[1..]);
      assert Split(tail) == [""] + parts[1..];
      assert Join(parts) == parts[0] + tail;
      assert parts[0] + "" == parts[0];
    }
  }

  /** Tidying a tidied list changes nothing. */
  lemma TidyTwice(client: string, space: char -> bool)
    ensures Tidy(Tidy(client, space), space) == Tidy(client, space)
    ensures Tidy(client, space) != "" ==> Split(Tidy(client, space)) == Stripped(Split(client), space)
  {
    if client != "" {
      var parts := Split(client);
      var tidied := Stripped(parts, space);
      SplitHasNoCommas(client);
      forall i | 0 <= i < |tidied| ensures NoComma(tidied[i]) { StripKeepsNoComma(parts[i], space); }
      JoinThenSplit(tidied);
      forall i | 0 <= i < |tidied| ensures Strip(tidied[i], space) == tidied[i] { StripTwice(parts[i], space); }
      assert Stripped(tidied, space) == tidied;
    }
  }

  // ------------------------------------------------------------ config

  predicate Takes(entry: Entry, value: Value) {
    match entry
    case Switch => value.Truth?
    case Typed(longest, matches) => value.Words? && |value.s| <= longest && (value.s == "" || matches(value.s))
    case Amount(least, most) => value.Whole? && least <= value.n <= most
  }

  predicate ConfigKeyAccepted(key: Key, value: Value, rules: Rules) {
    key.Named? && (key.name in rules.retired
                   || (key.name in rules.registry && (value.Nothing? || Takes(rules.registry[key.name], value))))
  }

  predicate ConfigAccepted(config: Value, rules: Rules) {
    config.Fields? && forall key :: key in config.fields ==> ConfigKeyAccepted(key, config.fields[key], rules)
  }

  /** Neither retired, nor empty: an absent value or an empty text clears the setting. */
  predicate Kept(key: Key, value: Value, rules: Rules) {
    key.Named? && key.name !in rules.retired && !value.Nothing? && value != Words("")
  }

  function ConfigOf(config: map<Key, Value>, rules: Rules): map<string, Value> {
    map key | key in config && Kept(key, config[key], rules) :: key.name := config[key]
  }

  // ------------------------------------------------------------ providers

  const MEMBERS: set<Key> := {Enabled, ClientId, Secret, Url, SkipNonceCheck, EmailOptional}

  predicate Spaceless(text: string, space: char -> bool) {
    forall i :: 0 <= i < |text| ==> !space(text[i])
  }

  /** The limits of one provider's settings, whose client ids are tidied already. */
  predicate ProviderHolds(name: string, p: Provider, rules: Rules) {
    && (name == rules.google && p.clientId != "" ==> "" !in Split(p.clientId))
    && |p.clientId| <= (if name == rules.google then 2048 else 512) && |p.secret| <= 4096
    && Spaceless(p.clientId, rules.space) && Spaceless(p.secret, rules.space)
    && (p.skipNonceCheck ==> name in rules.nonce)
    && (p.enabled ==> p.clientId != "" && p.secret != "")
    && (if p.url != "" then name in rules.urlRule && rules.webAddress(p.url)
        else !(p.enabled && name in rules.urlRule && rules.urlRule[name]))
  }

  predicate ProviderShaped(entry: Value) {
    && entry.Fields? && entry.fields.Keys <= MEMBERS
    && Read(entry.fields, Enabled, Truth(false)).Truth? && Read(entry.fields, ClientId, Words("")).Words?
    && Read(entry.fields, Secret, Words("")).Words? && Read(entry.fields, Url, Words("")).Words?
    && Read(entry.fields, SkipNonceCheck, Truth(false)).Truth? && Read(entry.fields, EmailOptional, Truth(false)).Truth?
  }

  function ProviderOf(name: string, entry: Value, rules: Rules): Provider
    requires ProviderShaped(entry)
  {
    var client := Read(entry.fields, ClientId, Words("")).s;
    Provider(Read(entry.fields, Enabled, Truth(false)).b,
             if name == rules.google then Tidy(client, rules.space) else client,
             Read(entry.fields, Secret, Words("")).s, Read(entry.fields, Url, Words("")).s,
             Read(entry.fields, SkipNonceCheck, Truth(false)).b, Read(entry.fields, EmailOptional, Truth(false)).b)
  }

  predicate ProviderAccepted(key: Key, entry: Value, rules: Rules) {
    && key.Named? && key.name in rules.providers
    && ProviderShaped(entry) && ProviderHolds(key.name, ProviderOf(key.name, entry, rules), rules)
  }

  predicate ProvidersAccepted(providers: Value, rules: Rules) {
    providers.Fields? && forall key :: key in providers.fields ==> ProviderAccepted(key, providers.fields[key], rules)
  }

  function ProvidersOf(providers: map<Key, Value>, rules: Rules): map<string, Provider>
    requires ProvidersAccepted(Fields(providers), rules)
  {
    assert forall key :: key in providers ==> ProviderAccepted(key, Fields(providers).fields[key], rules);
    map key | key in providers :: key.name := ProviderOf(key.name, providers[key], rules)
  }

  // ------------------------------------------------------------ session

  predicate SecondsAccepted(value: Value, least: int, most: int) {
    value.Nothing? || (value.Whole? && least <= value.n <= most)
  }

  predicate SessionAccepted(session: Value) {
    && session.Fields? && session.fields.Keys <= {AccessTokenSeconds, TimeboxSeconds, InactivitySeconds}
    && SecondsAccepted(Read(session.fields, AccessTokenSeconds, Nothing), 60, 86400)
    && SecondsAccepted(Read(session.fields, TimeboxSeconds, Nothing), 3600, 315360000)
    && SecondsAccepted(Read(session.fields, InactivitySeconds, Nothing), 300, 315360000)
  }

  function Seconds(value: Value): Option<int> {
    if value.Whole? then Some(value.n) else None
  }

  function SessionOf(session: map<Key, Value>): SessionSettings {
    SessionSettings(Seconds(Read(session, AccessTokenSeconds, Nothing)), Seconds(Read(session, TimeboxSeconds, Nothing)),
                    Seconds(Read(session, InactivitySeconds, Nothing)))
  }

  // ------------------------------------------------------------ the whole file

  const KEYS: set<Key> := {Version, Revision, SiteUrl, RedirectUrls, Signup, Anonymous, ManualLinking, Config, Providers, Session}

  predicate RevisionAccepted(revision: Value) {
    revision.Truth? || (revision.Whole? && revision.n >= 0)
  }

  predicate RedirectsAccepted(redirects: Value, rules: Rules) {
    && redirects.Several? && |redirects.items| <= MAX_REDIRECTS
    && forall i :: 0 <= i < |redirects.items| ==> redirects.items[i].Words? && rules.redirectAddress(redirects.items[i].s)
  }

  function RedirectsOf(redirects: Value, rules: Rules): seq<string>
    requires RedirectsAccepted(redirects, rules)
  {
    seq(|redirects.items|, i requires 0 <= i < |redirects.items| => redirects.items[i].s)
  }

  predicate VersionAccepted(version: Value) {
    version.Whole? && 1 <= version.n <= VERSION
  }

  predicate SimpleAccepted(fields: map<Key, Value>, rules: Rules) {
    && fields.Keys <= KEYS && VersionAccepted(Read(fields, Version, Whole(1)))
    && RevisionAccepted(Read(fields, Revision, Whole(0)))
    && Read(fields, SiteUrl, Nothing).Words? && rules.webAddress(Read(fields, SiteUrl, Nothing).s)
    && Read(fields, Signup, Truth(true)).Truth? && Read(fields, Anonymous, Truth(false)).Truth?
    && Read(fields, ManualLinking, Truth(false)).Truth?
  }

  predicate Accepted(file: Value, rules: Rules) {
    && file.Fields? && SimpleAccepted(file.fields, rules)
    && RedirectsAccepted(Read(file.fields, RedirectUrls, Several([])), rules)
    && ConfigAccepted(Read(file.fields, Config, Fields(map[])), rules)
    && ProvidersAccepted(Read(file.fields, Providers, Fields(map[])), rules)
    && SessionAccepted(Read(file.fields, Session, Fields(map[])))
  }

  /** What validation returns for a file it accepts. */
  function SettingsOf(file: Value, rules: Rules): Settings
    requires Accepted(file, rules)
  {
    var fields := file.fields;
    Settings(Read(fields, Revision, Whole(0)), Read(fields, SiteUrl, Nothing).s, Read(fields, Signup, Truth(true)).b,
             Read(fields, Anonymous, Truth(false)).b, Read(fields, ManualLinking, Truth(false)).b,
             RedirectsOf(Read(fields, RedirectUrls, Several([])), rules),
             ConfigOf(Read(fields, Config, Fields(map[])).fields, rules),
             ProvidersOf(Read(fields, Providers, Fields(map[])).fields, rules),
             SessionOf(Read(fields, Session, Fields(map[])).fields))
  }

  predicate KeptAt(config: map<Key, Value>, left: set<Key>, name: string, rules: Rules) {
    Named(name) in config && Named(name) !in left && Kept(Named(name), config[Named(name)], rules)
  }

  lemma ConfigIs(config: map<Key, Value>, result: map<string, Value>, rules: Rules)
    requires forall n :: n in result <==> KeptAt(config, {}, n, rules)
    requires forall n :: n in result ==> Named(n) in config && result[n] == config[Named(n)]
    ensures result == ConfigOf(config, rules)
  {
    var settled := ConfigOf(config, rules);
    forall n ensures n in settled <==> n in result {
      assert KeptAt(config, {}, n, rules) <==> n in result;
      if n in settled {
        var key :| key in config && Kept(key, config[key], rules) && key.name == n;
        assert key == Named(n);
      }
    }
  }

  method ValidateConfig(config: map<Key, Value>, rules: Rules) returns (refused: bool, result: map<string, Value>)
    ensures refused <==> !ConfigAccepted(Fields(config), rules)
    ensures !refused ==> result == ConfigOf(config, rules)
  {
    refused, result := false, map[];
    var left := config.Keys;
    while left != {}
      invariant left <= config.Keys
      invariant forall key :: key in config && key !in left ==> ConfigKeyAccepted(key, config[key], rules)
      invariant forall n :: n in result <==> KeptAt(config, left, n, rules)
      invariant forall n :: n in result ==> Named(n) in config && result[n] == config[Named(n)]
      decreases |left|
    {
      var key :| key in left;
      var value := config[key];
      if !ConfigKeyAccepted(key, value, rules) {
        assert key in Fields(config).fields;
        return true, map[];
      }
      left := left - {key};
      if Kept(key, value, rules) { result := result[key.name := value]; }
    }
    ConfigIs(config, result, rules);
  }

  lemma ProvidersAre(providers: map<Key, Value>, result: map<string, Provider>, rules: Rules)
    requires ProvidersAccepted(Fields(providers), rules)
    requires forall n :: n in result <==> Named(n) in providers
    requires forall n :: n in result ==> ProviderShaped(providers[Named(n)]) && result[n] == ProviderOf(n, providers[Named(n)], rules)
    ensures result == ProvidersOf(providers, rules)
  {
    forall n ensures n in ProvidersOf(providers, rules) <==> n in result { ProvidersOfAt(providers, n, rules); }
    forall n | n in result ensures ProvidersOf(providers, rules)[n] == result[n] { ProvidersOfAt(providers, n, rules); }
  }

  method ValidateProviders(providers: map<Key, Value>, rules: Rules) returns (refused: bool, result: map<string, Provider>)
    ensures refused <==> !ProvidersAccepted(Fields(providers), rules)
    ensures !refused ==> result == ProvidersOf(providers, rules)
  {
    refused, result := false, map[];
    var left := providers.Keys;
    while left != {}
      invariant left <= providers.Keys
      invariant forall key :: key in providers && key !in left ==> ProviderAccepted(key, providers[key], rules)
      invariant forall n :: n in result <==> Named(n) in providers && Named(n) !in left
      invariant forall n :: n in result ==> ProviderShaped(providers[Named(n)]) && result[n] == ProviderOf(n, providers[Named(n)], rules)
      decreases |left|
    {
      var key :| key in left;
      if !ProviderAccepted(key, providers[key], rules) {
        assert key in Fields(providers).fields;
        return true, map[];
      }
      left := left - {key};
      result := result[key.name := ProviderOf(key.name, providers[key], rules)];
    }
    ProvidersAre(providers, result, rules);
  }

  /** `validate`: the settings of a file, or nothing when some field is not admitted. */
  method Validate(file: Value, rules: Rules) returns (settings: Option<Settings>)
    ensures settings == if Accepted(file, rules) then Some(SettingsOf(file, rules)) else None
  {
    if !file.Fields? || !SimpleAccepted(file.fields, rules) { return None; }
    var fields := file.fields;
    var redirects := Read(fields, RedirectUrls, Several([]));
    var config, providers := Read(fields, Config, Fields(map[])), Read(fields, Providers, Fields(map[]));
    var session := Read(fields, Session, Fields(map[]));
    if !RedirectsAccepted(redirects, rules) || !config.Fields? { return None; }
    var refused, chosen := ValidateConfig(config.fields, rules);
    if refused || !providers.Fields? { return None; }
    var others;
    refused, others := ValidateProviders(providers.fields, rules);
    if refused || !SessionAccepted(session) { return None; }
    settings := Some(Settings(Read(fields, Revision, Whole(0)), Read(fields, SiteUrl, Nothing).s, Read(fields, Signup, Truth(true)).b,
                              Read(fields, Anonymous, Truth(false)).b, Read(fields, ManualLinking, Truth(false)).b,
                              RedirectsOf(redirects, rules), chosen, others, SessionOf(session.fields)));
  }

  // ------------------------------------------------------------ what is admitted, said of the file itself

  const LEFT_OUT: map<Key, Value> := map[
    Version := Whole(1), Revision := Whole(0), RedirectUrls := Several([]), Signup := Truth(true), Anonymous := Truth(false),
    ManualLinking := Truth(false), Config := Fields(map[]), Providers := Fields(map[]), Session := Fields(map[])]

  const LEFT_OUT_OF_PROVIDER: map<Key, Value> := map[
    Enabled := Truth(false), ClientId := Words(""), Secret := Words(""), Url := Words(""), SkipNonceCheck := Truth(false),
    EmailOptional := Truth(false)]

  /** A file that leaves fields out means what it would with them written out: sign-ups open, the other switches off, and
      nothing redirected, configured, offered or limited. */
  lemma LeftOutFieldsMean(fields: map<Key, Value>, rules: Rules)
    ensures Accepted(Fields(fields), rules) <==> Accepted(Fields(LEFT_OUT + fields), rules)
    ensures Accepted(Fields(fields), rules) ==>
              SettingsOf(Fields(fields), rules) == SettingsOf(Fields(LEFT_OUT + fields), rules)
  {
    SameReads(fields);
    assert (LEFT_OUT + fields).Keys == LEFT_OUT.Keys + fields.Keys && LEFT_OUT.Keys <= KEYS;
    assert SimpleAccepted(fields, rules) <==> SimpleAccepted(LEFT_OUT + fields, rules);
  }

  lemma SameReads(fields: map<Key, Value>)
    ensures var filled := LEFT_OUT + fields;
            && Read(filled, Version, Whole(1)) == Read(fields, Version, Whole(1))
            && Read(filled, Revision, Whole(0)) == Read(fields, Revision, Whole(0))
            && Read(filled, SiteUrl, Nothing) == Read(fields, SiteUrl, Nothing)
            && Read(filled, Signup, Truth(true)) == Read(fields, Signup, Truth(true))
            && Read(filled, Anonymous, Truth(false)) == Read(fields, Anonymous, Truth(false))
            && Read(filled, ManualLinking, Truth(false)) == Read(fields, ManualLinking, Truth(false))
            && Read(filled, RedirectUrls, Several([])) == Read(fields, RedirectUrls, Several([]))
            && Read(filled, Config, Fields(map[])) == Read(fields, Config, Fields(map[]))
            && Read(filled, Providers, Fields(map[])) == Read(fields, Providers, Fields(map[]))
            && Read(filled, Session, Fields(map[])) == Read(fields, Session, Fields(map[]))
  {
  }

  lemma LeftOutOfProviderMeans(key: Key, fields: map<Key, Value>, rules: Rules)
    ensures ProviderAccepted(key, Fields(fields), rules) <==> ProviderAccepted(key, Fields(LEFT_OUT_OF_PROVIDER + fields), rules)
    ensures ProviderAccepted(key, Fields(fields), rules) ==>
              ProviderOf(key.name, Fields(fields), rules) == ProviderOf(key.name, Fields(LEFT_OUT_OF_PROVIDER + fields), rules)
  {
    var filled := LEFT_OUT_OF_PROVIDER + fields;
    SameMembers(fields);
    assert filled.Keys == LEFT_OUT_OF_PROVIDER.Keys + fields.Keys && LEFT_OUT_OF_PROVIDER.Keys <= MEMBERS;
    assert ProviderShaped(Fields(fields)) <==> ProviderShaped(Fields(filled));
  }

  lemma SameMembers(fields: map<Key, Value>)
    ensures var filled := LEFT_OUT_OF_PROVIDER + fields;
            && Read(filled, Enabled, Truth(false)) == Read(fields, Enabled, Truth(false))
            && Read(filled, ClientId, Words("")) == Read(fields, ClientId, Words(""))
            && Read(filled, Secret, Words("")) == Read(fields, Secret, Words(""))
            && Read(filled, Url, Words("")) == Read(fields, Url, Words(""))
            && Read(filled, SkipNonceCheck, Truth(false)) == Read(fields, SkipNonceCheck, Truth(false))
            && Read(filled, EmailOptional, Truth(false)) == Read(fields, EmailOptional, Truth(false))
  {
  }

  /** The plain fields: what is admitted. */
  lemma PlainFieldsAreAdmittedExactly(version: Value, revision: Value, site: Value, redirects: Value, rules: Rules)
    ensures Accepted(Fields(map[Version := version, Revision := revision, SiteUrl := site, RedirectUrls := redirects]), rules) <==>
            && (version == Whole(1) || version == Whole(2))
            && (revision.Truth? || (revision.Whole? && revision.n >= 0))
            && site.Words? && rules.webAddress(site.s)
            && redirects.Several? && |redirects.items| <= 50
            && forall item <- redirects.items :: item.Words? && rules.redirectAddress(item.s)
  {
    var fields := map[Version := version, Revision := revision, SiteUrl := site, RedirectUrls := redirects];
    assert fields.Keys == {Version, Revision, SiteUrl, RedirectUrls};
    if redirects.Several? && forall item <- redirects.items :: item.Words? && rules.redirectAddress(item.s) {
      forall i | 0 <= i < |redirects.items| ensures redirects.items[i].Words? && rules.redirectAddress(redirects.items[i].s) {
        assert redirects.items[i] in redirects.items;
      }
    }
    assert SimpleAccepted(fields, rules) <==>
           && (version == Whole(1) || version == Whole(2)) && (revision.Truth? || (revision.Whole? && revision.n >= 0))
           && site.Words? && rules.webAddress(site.s);
  }

  /** A provider as it is written out: what is admitted, and as what. Only Google's client ids are a list. */
  lemma ProviderIsAdmittedExactly(name: string, p: Provider, rules: Rules)
    ensures var given := p.(clientId := if name == rules.google then Tidy(p.clientId, rules.space) else p.clientId);
            var longest := if name == rules.google then 2048 else 512;
            var entry := ProviderForm(p, false);
            && (ProviderAccepted(Named(name), entry, rules) <==>
                  && name in rules.providers && |given.clientId| <= longest && |p.secret| <= 4096
                  && (forall c <- given.clientId :: !rules.space(c)) && (forall c <- p.secret :: !rules.space(c))
                  && (name == rules.google && given.clientId != "" ==> forall id <- Split(given.clientId) :: id != "")
                  && (p.enabled ==> given.clientId != "" && p.secret != "")
                  && (p.skipNonceCheck ==> name in rules.nonce)
                  && (p.url != "" ==> name in rules.urlRule && rules.webAddress(p.url))
                  && (p.url == "" && p.enabled && name in rules.urlRule ==> !rules.urlRule[name]))
            && (ProviderAccepted(Named(name), entry, rules) ==> ProviderOf(name, entry, rules) == given)
  {
    var entry := ProviderForm(p, false);
    assert entry.fields.Keys <= MEMBERS && ProviderShaped(entry);
    SpacelessMeans(p.secret, rules.space);
    SpacelessMeans(if name == rules.google then Tidy(p.clientId, rules.space) else p.clientId, rules.space);
  }

  lemma SpacelessMeans(text: string, space: char -> bool)
    ensures Spaceless(text, space) <==> forall c <- text :: !space(c)
  {
    if forall c <- text :: !space(c) {
      forall i | 0 <= i < |text| ensures !space(text[i]) { assert text[i] in text; }
    }
  }

  /** A setting of the registry: what each kind of entry admits, and that an empty or absent value only clears it. */
  lemma SettingIsAdmittedExactly(name: string, value: Value, rules: Rules)
    requires name in rules.registry && name !in rules.retired
    ensures ConfigKeyAccepted(Named(name), value, rules) <==>
            match rules.registry[name]
            case Switch => value.Nothing? || value.Truth?
            case Typed(longest, matches) =>
              value.Nothing? || value == Words("") || (value.Words? && |value.s| <= longest && matches(value.s))
            case Amount(least, most) => value.Nothing? || (value.Whole? && least <= value.n <= most)
    ensures ConfigKeyAccepted(Named(name), value, rules) ==>
              ConfigOf(map[Named(name) := value], rules) == if value.Nothing? || value == Words("") then map[] else map[name := value]
  {
    var config := map[Named(name) := value];
    forall n ensures n in ConfigOf(config, rules) <==> n == name && !value.Nothing? && value != Words("") {
      if n == name && !value.Nothing? && value != Words("") { assert Kept(Named(n), config[Named(n)], rules); }
    }
  }

  /** A retired setting is dropped, whatever it holds; a name that is neither is refused. */
  lemma OtherSettingsExactly(name: string, value: Value, rules: Rules)
    requires name !in rules.registry || name in rules.retired
    ensures ConfigAccepted(Fields(map[Named(name) := value]), rules) <==> name in rules.retired
    ensures name in rules.retired ==> ConfigOf(map[Named(name) := value], rules) == map[]
  {
    var config := map[Named(name) := value];
    assert ConfigAccepted(Fields(config), rules) <==> ConfigKeyAccepted(Named(name), config[Named(name)], rules);
  }

  /** A session member: nothing, or a number of seconds in its range. */
  lemma SessionIsAdmittedExactly(access: Value, timebox: Value, inactivity: Value)
    ensures var session := Fields(map[AccessTokenSeconds := access, TimeboxSeconds := timebox, InactivitySeconds := inactivity]);
            && (SessionAccepted(session) <==>
                  && (access.Nothing? || (access.Whole? && 60 <= access.n <= 86400))
                  && (timebox.Nothing? || (timebox.Whole? && 3600 <= timebox.n <= 315360000))
                  && (inactivity.Nothing? || (inactivity.Whole? && 300 <= inactivity.n <= 315360000)))
            && (SessionAccepted(session) ==>
                  SessionForm(SessionOf(session.fields)) == session)
  {
  }

  // ------------------------------------------------------------ the written form

  predicate Flagged(p: Provider) {
    p.skipNonceCheck || p.emailOptional
  }

  /** No switch or value that version 2 added is on. */
  predicate Plain(s: Settings) {
    !s.manualLinking && s.config == map[] && forall n :: n in s.providers ==> !Flagged(s.providers[n])
  }

  function ProviderForm(p: Provider, plain: bool): Value {
    if plain then
      Fields(map[Enabled := Truth(p.enabled), ClientId := Words(p.clientId), Secret := Words(p.secret), Url := Words(p.url)])
    else
      Fields(map[Enabled := Truth(p.enabled), ClientId := Words(p.clientId), Secret := Words(p.secret), Url := Words(p.url),
                 SkipNonceCheck := Truth(p.skipNonceCheck), EmailOptional := Truth(p.emailOptional)])
  }

  function ProvidersForm(providers: map<string, Provider>, plain: bool): Value {
    Fields(map n | n in providers :: Named(n) := ProviderForm(providers[n], plain))
  }

  function ConfigForm(config: map<string, Value>): Value {
    Fields(map k | k in config :: Named(k) := config[k])
  }

  function SecondsForm(seconds: Option<int>): Value {
    if seconds.Some? then Whole(seconds.value) else Nothing
  }

  function SessionForm(s: SessionSettings): Value {
    Fields(map[AccessTokenSeconds := SecondsForm(s.accessToken), TimeboxSeconds := SecondsForm(s.timebox),
               InactivitySeconds := SecondsForm(s.inactivity)])
  }

  function RedirectsForm(redirects: seq<string>): Value {
    Several(seq(|redirects|, i requires 0 <= i < |redirects| => Words(redirects[i])))
  }

  /** The keys the file has: what version 2 added only when some of it is on, and no empty config. */
  predicate Present(s: Settings, key: Key) {
    match key
    case ManualLinking => !Plain(s)
    case Config => !Plain(s) && s.config != map[]
    case _ => true
  }

  function FieldOf(s: Settings, key: Key): Value {
    match key
    case Version => Whole(if Plain(s) then 1 else VERSION)
    case Revision => s.revision
    case SiteUrl => Words(s.siteUrl)
    case RedirectUrls => RedirectsForm(s.redirects)
    case Signup => Truth(s.signup)
    case Anonymous => Truth(s.anonymous)
    case ManualLinking => Truth(s.manualLinking)
    case Config => ConfigForm(s.config)
    case Providers => ProvidersForm(s.providers, Plain(s))
    case Session => SessionForm(s.session)
    case _ => Nothing
  }

  /** `file_form`. */
  function FileForm(s: Settings): Value {
    Fields(map key | key in KEYS && Present(s, key) :: FieldOf(s, key))
  }

  lemma FormReads(s: Settings, key: Key, otherwise: Value)
    requires key in KEYS
    ensures Read(FileForm(s).fields, key, otherwise) == if Present(s, key) then FieldOf(s, key) else otherwise
  {
  }

  /** The keys a build from before version 2 reads. */
  const OLD_KEYS: set<Key> := KEYS - {ManualLinking, Config}
  const OLD_MEMBERS: set<Key> := {Enabled, ClientId, Secret, Url}

  ghost predicate OldShape(file: Value) {
    && file.Fields? && file.fields.Keys <= OLD_KEYS && Read(file.fields, Version, Whole(1)) == Whole(1)
    && Read(file.fields, Providers, Fields(map[])).Fields?
    && forall key :: key in Read(file.fields, Providers, Fields(map[])).fields ==>
         OldProvider(Read(file.fields, Providers, Fields(map[])).fields[key])
  }

  predicate OldProvider(entry: Value) {
    entry.Fields? && entry.fields.Keys <= OLD_MEMBERS
  }

  /** The file keeps the shape a build from before version 2 reads exactly while nothing version 2 added is on. */
  lemma OldShapeExactlyWhenPlain(s: Settings)
    ensures OldShape(FileForm(s)) <==> Plain(s)
    ensures Plain(s) <==> Read(FileForm(s).fields, Version, Nothing) == Whole(1)
  {
    FormReads(s, Version, Nothing);
    FormReads(s, Version, Whole(1));
    FormReads(s, Providers, Fields(map[]));
    if Plain(s) {
      OldProviders(s.providers);
      assert FileForm(s).fields.Keys <= OLD_KEYS;
    }
  }

  lemma OldProviders(providers: map<string, Provider>)
    ensures var form := ProvidersForm(providers, true).fields; forall key :: key in form ==> OldProvider(form[key])
  {
    var form := ProvidersForm(providers, true).fields;
    forall key | key in form ensures OldProvider(form[key]) {
      assert form[key].fields.Keys <= OLD_MEMBERS;
    }
  }

  // ------------------------------------------------------------ the round trip

  predicate ConfigHolds(config: map<string, Value>, rules: Rules) {
    forall k :: k in config ==> k !in rules.retired && k in rules.registry && Takes(rules.registry[k], config[k])
                                && !config[k].Nothing? && config[k] != Words("")
  }

  predicate ProviderSettled(name: string, p: Provider, rules: Rules) {
    name in rules.providers && ProviderHolds(name, p, rules) && (name == rules.google ==> Tidy(p.clientId, rules.space) == p.clientId)
  }

  predicate ProvidersHold(providers: map<string, Provider>, rules: Rules) {
    forall n :: n in providers ==> ProviderSettled(n, providers[n], rules)
  }

  predicate SecondsHold(seconds: Option<int>, least: int, most: int) {
    seconds.Some? ==> least <= seconds.value <= most
  }

  predicate SessionHolds(s: SessionSettings) {
    SecondsHold(s.accessToken, 60, 86400) && SecondsHold(s.timebox, 3600, 315360000) && SecondsHold(s.inactivity, 300, 315360000)
  }

  predicate RedirectsHold(redirects: seq<string>, rules: Rules) {
    |redirects| <= MAX_REDIRECTS && forall i :: 0 <= i < |redirects| ==> rules.redirectAddress(redirects[i])
  }

  /** What holds of settings that validation returned. */
  predicate Holds(s: Settings, rules: Rules) {
    && RevisionAccepted(s.revision) && rules.webAddress(s.siteUrl) && RedirectsHold(s.redirects, rules)
    && ConfigHolds(s.config, rules) && ProvidersHold(s.providers, rules) && SessionHolds(s.session)
  }

  lemma AcceptedHolds(file: Value, rules: Rules)
    requires Accepted(file, rules)
    ensures Holds(SettingsOf(file, rules), rules)
  {
    var s := SettingsOf(file, rules);
    assert ConfigHolds(s.config, rules) by { ConfigAcceptedHolds(Read(file.fields, Config, Fields(map[])).fields, rules); }
    assert ProvidersHold(s.providers, rules) by { ProvidersAcceptedHold(Read(file.fields, Providers, Fields(map[])).fields, rules); }
    assert SessionHolds(s.session) by { SessionAcceptedHolds(Read(file.fields, Session, Fields(map[]))); }
    assert RedirectsHold(s.redirects, rules) by { RedirectsAcceptedHold(Read(file.fields, RedirectUrls, Several([])), rules); }
  }

  lemma SessionAcceptedHolds(session: Value)
    requires SessionAccepted(session)
    ensures SessionHolds(SessionOf(session.fields))
  {
  }

  lemma RedirectsAcceptedHold(redirects: Value, rules: Rules)
    requires RedirectsAccepted(redirects, rules)
    ensures RedirectsHold(RedirectsOf(redirects, rules), rules)
  {
  }

  lemma ConfigAcceptedHolds(config: map<Key, Value>, rules: Rules)
    requires ConfigAccepted(Fields(config), rules)
    ensures ConfigHolds(ConfigOf(config, rules), rules)
  {
    forall k | k in ConfigOf(config, rules) ensures k !in rules.retired && k in rules.registry
        && Takes(rules.registry[k], ConfigOf(config, rules)[k]) && !ConfigOf(config, rules)[k].Nothing? && ConfigOf(config, rules)[k] != Words("") {
      assert ConfigKeyAccepted(Named(k), Fields(config).fields[Named(k)], rules);
    }
  }

  lemma ProvidersAcceptedHold(providers: map<Key, Value>, rules: Rules)
    requires ProvidersAccepted(Fields(providers), rules)
    ensures ProvidersHold(ProvidersOf(providers, rules), rules)
  {
    forall n | n in ProvidersOf(providers, rules) ensures ProviderSettled(n, ProvidersOf(providers, rules)[n], rules) {
      assert ProviderAccepted(Named(n), Fields(providers).fields[Named(n)], rules);
      TidyTwice(Read(providers[Named(n)].fields, ClientId, Words("")).s, rules.space);
    }
  }

  lemma ConfigReadsBack(config: map<string, Value>, rules: Rules)
    requires ConfigHolds(config, rules)
    ensures ConfigAccepted(ConfigForm(config), rules) && ConfigOf(ConfigForm(config).fields, rules) == config
  {
    var form := ConfigForm(config).fields;
    forall key | key in form ensures ConfigKeyAccepted(key, form[key], rules) && Kept(key, form[key], rules) {
      assert key.name in config;
    }
    forall k | k in config ensures Named(k) in form && form[Named(k)] == config[k] {}
    assert ConfigOf(form, rules).Keys == config.Keys by {
      forall k ensures k in ConfigOf(form, rules) <==> k in config {
        if k in config { assert Kept(Named(k), form[Named(k)], rules); }
      }
    }
  }

  lemma ProviderReadsBack(name: string, p: Provider, plain: bool, rules: Rules)
    requires ProviderSettled(name, p, rules) && (plain ==> !Flagged(p))
    ensures ProviderAccepted(Named(name), ProviderForm(p, plain), rules)
    ensures ProviderOf(name, ProviderForm(p, plain), rules) == p
  {
    var form := ProviderForm(p, plain);
    assert form.fields.Keys <= MEMBERS;
    assert ProviderShaped(form);
    assert ProviderOf(name, form, rules) == p;
  }

  lemma ProviderFormsAccepted(providers: map<string, Provider>, plain: bool, rules: Rules)
    requires ProvidersHold(providers, rules) && (plain ==> forall n :: n in providers ==> !Flagged(providers[n]))
    ensures ProvidersAccepted(ProvidersForm(providers, plain), rules)
  {
    var form := ProvidersForm(providers, plain).fields;
    forall key | key in form ensures ProviderAccepted(key, form[key], rules) {
      ProviderReadsBack(key.name, providers[key.name], plain, rules);
    }
  }

  lemma ProvidersOfAt(providers: map<Key, Value>, n: string, rules: Rules)
    requires ProvidersAccepted(Fields(providers), rules)
    ensures n in ProvidersOf(providers, rules) <==> Named(n) in providers
    ensures Named(n) in providers ==>
              ProviderShaped(providers[Named(n)]) && ProvidersOf(providers, rules)[n] == ProviderOf(n, providers[Named(n)], rules)
  {
    if Named(n) in providers { assert ProviderAccepted(Named(n), Fields(providers).fields[Named(n)], rules); }
    if n in ProvidersOf(providers, rules) {
      var key :| key in providers && key.name == n;
      assert ProviderAccepted(key, Fields(providers).fields[key], rules);
    }
  }

  lemma ProvidersReadBack(providers: map<string, Provider>, plain: bool, rules: Rules)
    requires ProvidersHold(providers, rules) && (plain ==> forall n :: n in providers ==> !Flagged(providers[n]))
    ensures ProvidersAccepted(ProvidersForm(providers, plain), rules)
    ensures ProvidersOf(ProvidersForm(providers, plain).fields, rules) == providers
  {
    ProviderFormsAccepted(providers, plain, rules);
    forall n ensures n in ProvidersOf(ProvidersForm(providers, plain).fields, rules) <==> n in providers {
      OneReadsBack(providers, plain, n, rules);
    }
    forall n | n in providers ensures ProvidersOf(ProvidersForm(providers, plain).fields, rules)[n] == providers[n] {
      OneReadsBack(providers, plain, n, rules);
    }
  }

  lemma OneReadsBack(providers: map<string, Provider>, plain: bool, n: string, rules: Rules)
    requires ProvidersHold(providers, rules) && (plain ==> forall n :: n in providers ==> !Flagged(providers[n]))
    requires ProvidersAccepted(ProvidersForm(providers, plain), rules)
    ensures var back := ProvidersOf(ProvidersForm(providers, plain).fields, rules);
            (n in back <==> n in providers) && (n in providers ==> back[n] == providers[n])
  {
    var form := ProvidersForm(providers, plain).fields;
    ProvidersOfAt(form, n, rules);
    assert Named(n) in form <==> n in providers;
    if n in providers { ProviderReadsBack(n, providers[n], plain, rules); }
  }

  lemma SessionReadsBack(s: SessionSettings)
    requires SessionHolds(s)
    ensures SessionAccepted(SessionForm(s)) && SessionOf(SessionForm(s).fields) == s
  {
  }

  lemma RedirectsReadBack(redirects: seq<string>, rules: Rules)
    requires RedirectsHold(redirects, rules)
    ensures RedirectsAccepted(RedirectsForm(redirects), rules) && RedirectsOf(RedirectsForm(redirects), rules) == redirects
  {
  }

  lemma SimpleReadsBack(s: Settings, rules: Rules)
    requires RevisionAccepted(s.revision) && rules.webAddress(s.siteUrl)
    ensures SimpleAccepted(FileForm(s).fields, rules)
    ensures var f := FileForm(s).fields;
            && Read(f, Revision, Whole(0)) == s.revision && Read(f, SiteUrl, Nothing) == Words(s.siteUrl)
            && Read(f, Signup, Truth(true)) == Truth(s.signup) && Read(f, Anonymous, Truth(false)) == Truth(s.anonymous)
            && Read(f, ManualLinking, Truth(false)) == Truth(s.manualLinking)
  {
    FormReads(s, Version, Whole(1));
    FormReads(s, Revision, Whole(0));
    FormReads(s, SiteUrl, Nothing);
    FormReads(s, Signup, Truth(true));
    FormReads(s, Anonymous, Truth(false));
    FormReads(s, ManualLinking, Truth(false));
    assert FileForm(s).fields.Keys <= KEYS;
  }

  lemma EmptyConfigForm(config: map<string, Value>)
    requires config == map[]
    ensures ConfigForm(config) == Fields(map[])
  {
    assert ConfigForm(config).fields.Keys == {};
  }

  lemma ConfigFieldReads(s: Settings)
    ensures Read(FileForm(s).fields, Config, Fields(map[])) == ConfigForm(s.config)
  {
    FormReads(s, Config, Fields(map[]));
    if s.config == map[] { EmptyConfigForm(s.config); }
  }

  lemma PartsReadBack(s: Settings)
    ensures var f := FileForm(s).fields;
            && Read(f, RedirectUrls, Several([])) == RedirectsForm(s.redirects)
            && Read(f, Providers, Fields(map[])) == ProvidersForm(s.providers, Plain(s))
            && Read(f, Session, Fields(map[])) == SessionForm(s.session)
  {
    FormReads(s, RedirectUrls, Several([]));
    FormReads(s, Providers, Fields(map[]));
    FormReads(s, Session, Fields(map[]));
  }

  /** Settings that hold are what their written form validates to. */
  lemma FormReadsBack(s: Settings, rules: Rules)
    requires Holds(s, rules)
    ensures Accepted(FileForm(s), rules) && SettingsOf(FileForm(s), rules) == s
  {
    SimpleReadsBack(s, rules);
    PartsReadBack(s);
    ConfigFieldReads(s);
    RedirectsReadBack(s.redirects, rules);
    ProvidersReadBack(s.providers, Plain(s), rules);
    SessionReadsBack(s.session);
    ConfigReadsBack(s.config, rules);
  }

  /** Whatever file validation accepts, writing its settings gives a file that validates to the same settings. */
  lemma WrittenSettingsValidateBack(file: Value, rules: Rules)
    requires Accepted(file, rules)
    ensures var s := SettingsOf(file, rules);
            Accepted(FileForm(s), rules) && SettingsOf(FileForm(s), rules) == s
  {
    AcceptedHolds(file, rules);
    FormReadsBack(SettingsOf(file, rules), rules);
  }
}
