// The operators' TOTP secrets (src/admin/runtimeConfig.ts): what an environment must
// say to be accepted, and which record each accepted counter is kept under. The
// parser compares secrets as base32 text; TotpRecords says what that leaves open.
module Totp {
  import opened Wrappers
  import opened Collections
  import opened Settings
  import TotpKeys

  const SHARED_TOTP_COUNTER_KEY := "(shared)"

  datatype Config = Config(operatorLogins: seq<string>, totpSecrets: map<string, string>, totpSecret: Option<string>)

  datatype Key = Key(secret: string, counterKey: string)

  datatype Problem =
    | NoLogins | TooManyLogins | NotALogin | DuplicateLogin
    | MalformedEntry | UnknownLogin | LoginTwice | WeakSecret | SameSecret
    | WeakSharedSecret | SecretsRequired

  function TotpSecretFor(config: Config, login: string): Option<Key> {
    if login in config.totpSecrets then
      var own := config.totpSecrets[login];
      Some(Key(own, if config.totpSecret == Some(own) then SHARED_TOTP_COUNTER_KEY else login))
    else if config.totpSecret.Some? then Some(Key(config.totpSecret.value, SHARED_TOTP_COUNTER_KEY))
    else None
  }

  // ---- Reading the texts ------------------------------------------------------------

  function Split(s: string, separators: set<char>): (parts: seq<string>)
    ensures parts != []
  {
    if s == "" then [""]
    else
      var rest := Split(s[1..], separators);
      if s[0] in separators then [""] + rest else [[s[0]] + rest[0]] + rest[1..]
  }

  // The pieces that are not blank, trimmed.
  function Entries(parts: seq<string>): seq<string> {
    if parts == [] then []
    else
      var piece := Trim(parts[|parts| - 1]);
      Entries(parts[..|parts| - 1]) + if piece == "" then [] else [piece]
  }

  function IndexOf(s: string, c: char): int {
    if s == "" then -1
    else if s[0] == c then 0
    else
      var i := IndexOf(s[1..], c);
      if i < 0 then -1 else i + 1
  }

  function WithoutBlanks(s: string): string {
    if s == "" then "" else (if Blank(s[0]) then "" else [s[0]]) + WithoutBlanks(s[1..])
  }

  function WithoutPadding(s: string): string {
    if s != "" && s[|s| - 1] == '=' then WithoutPadding(s[..|s| - 1]) else s
  }

  function Normalized(s: string): string {
    WithoutPadding(Upper(WithoutBlanks(s)))
  }

  lemma {:induction false} BlanksSplit(a: string, b: string)
    ensures WithoutBlanks(a + b) == WithoutBlanks(a) + WithoutBlanks(b)
  {
    if a == "" {
      assert a + b == b;
    } else {
      BlanksSplit(a[1..], b);
      var head := if Blank(a[0]) then "" else [a[0]];
      assert (a + b)[1..] == a[1..] + b && (a + b)[0] == a[0];
      assert head + (WithoutBlanks(a[1..]) + WithoutBlanks(b)) == (head + WithoutBlanks(a[1..])) + WithoutBlanks(b);
    }
  }

  lemma {:induction false} OneCharacter(c: char)
    ensures WithoutBlanks([c]) == if Blank(c) then "" else [c]
  {
    assert [c][1..] == "" && [c] + "" == [c];
  }

  // The same secret spaced, padded or in another case is the same text.
  lemma {:induction false} BlanksDoNotCount(a: string, c: char, b: string)
    requires Blank(c)
    ensures Normalized(a + [c] + b) == Normalized(a + b)
  {
    BlanksSplit(a + [c], b);
    BlanksSplit(a, [c]);
    BlanksSplit(a, b);
    OneCharacter(c);
    assert WithoutBlanks(a) + "" == WithoutBlanks(a);
  }

  lemma {:induction false} PaddingDoesNotCount(s: string)
    ensures Normalized(s + "=") == Normalized(s)
  {
    BlanksSplit(s, ['=']);
    OneCharacter('=');
    var w := WithoutBlanks(s);
    assert Upper(w + "=") == Upper(w) + "=";
    assert (Upper(w) + "=")[..|w|] == Upper(w);
  }

  lemma {:induction false} LowerKeepsBlanks(s: string)
    ensures WithoutBlanks(Lower(s)) == Lower(WithoutBlanks(s))
  {
    if s != "" {
      LowerKeepsBlanks(s[1..]);
      assert Lower(s)[1..] == Lower(s[1..]);
      if !Blank(s[0]) { assert WithoutBlanks(s) == [s[0]] + WithoutBlanks(s[1..]); }
    }
  }

  lemma {:induction false} CaseDoesNotCount(s: string)
    ensures Normalized(Lower(s)) == Normalized(s)
  {
    LowerKeepsBlanks(s);
    assert Upper(Lower(WithoutBlanks(s))) == Upper(WithoutBlanks(s));
  }

  function Base32Length(secret: string): int {
    var unpadded := Normalized(secret);
    if TotpKeys.Base32(unpadded) then TotpKeys.ByteCount(unpadded) else -1
  }

  predicate LocalChar(c: char) {
    'A' <= c <= 'Z' || 'a' <= c <= 'z' || '0' <= c <= '9' || c in {'.', '_', '%', '+', '-'}
  }

  predicate DomainChar(c: char) {
    'A' <= c <= 'Z' || 'a' <= c <= 'z' || '0' <= c <= '9' || c in {'.', '-'}
  }

  // OperatorLoginSchema
  predicate IsLogin(s: string) {
    3 <= |s| <= 255 &&
    exists k :: 0 < k < |s| - 1 && s[k] == '@'
      && (forall i :: 0 <= i < k ==> LocalChar(s[i])) && (forall i :: k < i < |s| ==> DomainChar(s[i]))
  }

  // One `login=SECRET`; a part that cannot be read is empty.
  datatype Entry = Entry(login: string, secret: string)

  function ReadEntry(text: string): Entry {
    var split := IndexOf(text, '=');
    if 0 < split < |text| then Entry(Trim(text[..split]), Normalized(text[split + 1..])) else Entry("", "")
  }

  function ReadEntries(texts: seq<string>): seq<Entry> {
    if texts == [] then [] else ReadEntries(texts[..|texts| - 1]) + [ReadEntry(texts[|texts| - 1])]
  }

  // ---- What an accepted environment says --------------------------------------------

  predicate GoodLogins(logins: seq<string>) {
    && 0 < |logins| <= 20
    && (forall i :: 0 <= i < |logins| ==> IsLogin(logins[i]))
    && NoDuplicates(logins)
  }

  predicate GoodEntry(entry: Entry, logins: seq<string>) {
    entry.login in logins && entry.login != "" && entry.secret != "" && Base32Length(entry.secret) >= 16
  }

  predicate LoginsDiffer(entries: seq<Entry>) {
    forall i, j :: 0 <= i < j < |entries| ==> entries[i].login != entries[j].login
  }

  predicate GoodEntries(entries: seq<Entry>, logins: seq<string>) {
    (forall i :: 0 <= i < |entries| ==> GoodEntry(entries[i], logins)) && LoginsDiffer(entries)
  }

  predicate SecretsDiffer(entries: seq<Entry>) {
    forall i, j :: 0 <= i < j < |entries| ==> entries[i].secret != entries[j].secret
  }

  function SecretsIn(entries: seq<Entry>): map<string, string> {
    if entries == [] then map[]
    else SecretsIn(entries[..|entries| - 1])[entries[|entries| - 1].login := entries[|entries| - 1].secret]
  }

  function OperatorLogins(env: Env): seq<string> {
    Entries(Split(Get(env, "ADMIN_OPERATOR_LOGINS"), {','}))
  }

  function SecretEntries(env: Env): seq<Entry> {
    ReadEntries(Entries(Split(Get(env, "ADMIN_TOTP_SECRETS"), {',', '\n'})))
  }

  // The shared secret of before: development only.
  function SharedSecret(env: Env): Option<string> {
    var raw := Get(env, "ADMIN_TOTP_SECRET");
    if raw == "" || Get(env, "LETTER_IRL_DEPLOYMENT_ENVIRONMENT") != "development" then None else Some(Normalized(raw))
  }

  predicate Acceptable(env: Env) {
    && GoodLogins(OperatorLogins(env))
    && GoodEntries(SecretEntries(env), OperatorLogins(env)) && SecretsDiffer(SecretEntries(env))
    && (SharedSecret(env).Some? ==> Base32Length(Get(env, "ADMIN_TOTP_SECRET")) >= 16)
    && (Get(env, "ADMIN_MODE") == "full" ==> SecretEntries(env) != [] || SharedSecret(env).Some?)
  }

  function ConfigOf(env: Env): Config {
    Config(OperatorLogins(env), SecretsIn(SecretEntries(env)), SharedSecret(env))
  }

  // ---- The parser --------------------------------------------------------------------

  method CheckLogins(logins: seq<string>) returns (problems: seq<Problem>)
    ensures problems == [] <==> GoodLogins(logins)
  {
    problems := [];
    if |logins| == 0 {
      problems := problems + [NoLogins];
    } else if |logins| > 20 {
      problems := problems + [TooManyLogins];
    } else {
      var i := 0;
      while i < |logins| && problems == []
        invariant 0 <= i <= |logins|
        invariant problems == [] <==> forall k :: 0 <= k < i ==> IsLogin(logins[k])
      {
        if !IsLogin(logins[i]) { problems := problems + [NotALogin]; }
        i := i + 1;
      }
      DistinctByCount(logins);
      if |set login | login in logins| != |logins| { problems := problems + [DuplicateLogin]; }
    }
  }

  // Reads `login=SECRET` entries; a problem for each it cannot use.
  method ReadSecrets(entries: seq<Entry>, logins: seq<string>)
    returns (totpSecrets: map<string, string>, problems: seq<Problem>)
    ensures problems == [] <==> GoodEntries(entries, logins)
    ensures problems == [] ==> totpSecrets == SecretsIn(entries)
  {
    totpSecrets, problems := map[], [];
    for i := 0 to |entries|
      invariant problems == [] <==> GoodEntries(entries[..i], logins)
      invariant problems == [] ==> totpSecrets == SecretsIn(entries[..i])
    {
      assert entries[..i + 1][..i] == entries[..i];
      OneMoreEntry(entries[..i], entries[i], logins);
      assert entries[..i] + [entries[i]] == entries[..i + 1];
      KeysAre(entries[..i]);
      var login, secret := entries[i].login, entries[i].secret;
      if login == "" || secret == "" {
        problems := problems + [MalformedEntry];
      } else if login !in logins {
        problems := problems + [UnknownLogin];
      } else if login in totpSecrets {
        problems := problems + [LoginTwice];
      } else if Base32Length(secret) < 16 {
        problems := problems + [WeakSecret];
      } else {
        totpSecrets := totpSecrets[login := secret];
      }
    }
    assert entries[..|entries|] == entries;
  }

  lemma {:induction false} OneMoreEntry(entries: seq<Entry>, e: Entry, logins: seq<string>)
    ensures GoodEntries(entries + [e], logins)
       <==> (GoodEntries(entries, logins) && GoodEntry(e, logins)
             && forall i :: 0 <= i < |entries| ==> entries[i].login != e.login)
  {
    var longer := entries + [e];
    assert forall i :: 0 <= i < |entries| ==> longer[i] == entries[i];
    assert longer[|entries|] == e;
  }

  lemma {:induction false} KeysAre(entries: seq<Entry>)
    ensures forall k :: k in SecretsIn(entries) <==> exists i :: 0 <= i < |entries| && entries[i].login == k
  {
    if entries != [] {
      var n := |entries| - 1;
      KeysAre(entries[..n]);
      forall k ensures k in SecretsIn(entries) <==> exists i :: 0 <= i < |entries| && entries[i].login == k {
        assert (exists i :: 0 <= i < |entries| && entries[i].login == k)
          <==> (entries[n].login == k || exists i :: 0 <= i < n && entries[..n][i].login == k);
      }
    }
  }

  function SecretTexts(entries: seq<Entry>): seq<string> {
    seq(|entries|, i requires 0 <= i < |entries| => entries[i].secret)
  }

  lemma {:induction false} TableShape(entries: seq<Entry>)
    requires LoginsDiffer(entries)
    ensures |SecretsIn(entries)| == |entries|
    ensures forall i :: 0 <= i < |entries| ==>
      entries[i].login in SecretsIn(entries) && SecretsIn(entries)[entries[i].login] == entries[i].secret
  {
    if entries != [] {
      var n := |entries| - 1;
      var before := SecretsIn(entries[..n]);
      TableShape(entries[..n]);
      KeysAre(entries[..n]);
      assert SecretsIn(entries) == before[entries[n].login := entries[n].secret];
      forall i | 0 <= i < |entries|
        ensures entries[i].login in SecretsIn(entries) && SecretsIn(entries)[entries[i].login] == entries[i].secret
      {
        if i < n { assert entries[..n][i] == entries[i] && entries[i].login != entries[n].login; }
      }
    }
  }

  lemma {:induction false} ValuesAreTexts(entries: seq<Entry>)
    requires LoginsDiffer(entries)
    ensures SecretsIn(entries).Values == set x | x in SecretTexts(entries)
  {
    var m, texts := SecretsIn(entries), SecretTexts(entries);
    KeysAre(entries);
    TableShape(entries);
    forall v | v in m.Values ensures v in texts {
      var k :| k in m && m[k] == v;
      var i :| 0 <= i < |entries| && entries[i].login == k;
      assert texts[i] == v;
    }
    forall v | v in texts ensures v in m.Values {
      var i :| 0 <= i < |texts| && texts[i] == v;
      assert m[entries[i].login] == v;
    }
  }

  lemma {:induction false} TextsDiffer(entries: seq<Entry>)
    ensures SecretsDiffer(entries)
       <==> NoDuplicates(SecretTexts(entries))
  {
    var texts := SecretTexts(entries);
    assert |texts| == |entries| && forall i :: 0 <= i < |texts| ==> texts[i] == entries[i].secret;
  }

  // Two operators share a secret exactly when the table has fewer values than keys.
  lemma {:induction false} FewerValues(entries: seq<Entry>)
    requires LoginsDiffer(entries)
    ensures |SecretsIn(entries).Values| < |SecretsIn(entries)| <==> !SecretsDiffer(entries)
    ensures |SecretsIn(entries)| == |entries|
  {
    TableShape(entries);
    ValuesAreTexts(entries);
    DistinctByCount(SecretTexts(entries));
    TextsDiffer(entries);
  }

  // Accepts exactly the acceptable environments, and reads them as they are.
  method ParseTotp(env: Env) returns (config: Config, problems: seq<Problem>)
    ensures problems == [] <==> Acceptable(env)
    ensures problems == [] ==> config == ConfigOf(env) && OwnKeys(config)
    ensures Get(env, "LETTER_IRL_DEPLOYMENT_ENVIRONMENT") != "development" ==> config.totpSecret.None?
  {
    var logins := OperatorLogins(env);
    var entries := SecretEntries(env);
    problems := CheckLogins(logins);
    var totpSecrets, unusable := ReadSecrets(entries, logins);
    problems := problems + unusable;
    if |totpSecrets.Values| < |totpSecrets| { problems := problems + [SameSecret]; }
    if unusable == [] {
      FewerValues(entries);
    }
    var raw := Get(env, "ADMIN_TOTP_SECRET");
    var totpSecret := None;
    if raw != "" && Get(env, "LETTER_IRL_DEPLOYMENT_ENVIRONMENT") == "development" {
      if Base32Length(raw) < 16 {
        problems := problems + [WeakSharedSecret];
      } else {
        totpSecret := Some(Normalized(raw));
      }
    }
    if Get(env, "ADMIN_MODE") == "full" && |totpSecrets| == 0 && totpSecret.None? {
      problems := problems + [SecretsRequired];
    }
    config := Config(logins, totpSecrets, totpSecret);
    if problems == [] { AcceptedHaveOwnKeys(env); }
  }

  // ---- One record, one text -----------------------------------------------------------

  lemma {:induction false} LoginsAreNotTheSharedKey(login: string)
    requires IsLogin(login)
    ensures login != SHARED_TOTP_COUNTER_KEY
  {
  }

  // Each text of the table has one owner, whose login is a key of its own.
  ghost predicate OwnKeys(config: Config) {
    && (forall a :: a in config.totpSecrets ==> a != SHARED_TOTP_COUNTER_KEY)
    && (forall a, b :: a in config.totpSecrets && b in config.totpSecrets && a != b ==>
          config.totpSecrets[a] != config.totpSecrets[b])
  }

  lemma {:induction false} OwnersAreOperators(env: Env, login: string)
    requires Acceptable(env) && login in ConfigOf(env).totpSecrets
    ensures login != SHARED_TOTP_COUNTER_KEY
  {
    KeysAre(SecretEntries(env));
    var i :| 0 <= i < |SecretEntries(env)| && SecretEntries(env)[i].login == login;
    assert GoodEntry(SecretEntries(env)[i], OperatorLogins(env));
    LoginsAreNotTheSharedKey(login);
  }

  lemma {:induction false} OwnSecretsDiffer(entries: seq<Entry>, a: string, b: string)
    requires LoginsDiffer(entries) && SecretsDiffer(entries)
    requires a in SecretsIn(entries) && b in SecretsIn(entries) && a != b
    ensures SecretsIn(entries)[a] != SecretsIn(entries)[b]
  {
    KeysAre(entries);
    TableShape(entries);
    var i :| 0 <= i < |entries| && entries[i].login == a;
    var j :| 0 <= j < |entries| && entries[j].login == b;
    assert i < j || j < i;
  }

  lemma {:induction false} AcceptedHaveOwnKeys(env: Env)
    requires Acceptable(env)
    ensures OwnKeys(ConfigOf(env))
  {
    var secrets := ConfigOf(env).totpSecrets;
    forall a | a in secrets ensures a != SHARED_TOTP_COUNTER_KEY { OwnersAreOperators(env, a); }
    forall a, b | a in secrets && b in secrets && a != b ensures secrets[a] != secrets[b] {
      OwnSecretsDiffer(SecretEntries(env), a, b);
    }
  }

  // Any two operators who have a secret have the same text if and only if their
  // accepted counters are kept under the same key.
  lemma {:induction false} OneRecordPerText(config: Config, a: string, b: string)
    requires OwnKeys(config)
    requires TotpSecretFor(config, a).Some? && TotpSecretFor(config, b).Some?
    ensures var x, y := TotpSecretFor(config, a).value, TotpSecretFor(config, b).value;
      x.secret == y.secret <==> x.counterKey == y.counterKey
  {
    var secrets := config.totpSecrets;
    if a in secrets && b in secrets && a != b {
      assert secrets[a] != secrets[b];
    }
  }

  // Without a shared secret, as in production, each operator with a secret has a
  // text no one else holds, and a counter key of their own.
  lemma {:induction false} OwnTextsOnly(config: Config, a: string, b: string)
    requires OwnKeys(config) && config.totpSecret.None? && a != b
    requires TotpSecretFor(config, a).Some? && TotpSecretFor(config, b).Some?
    ensures TotpSecretFor(config, a).value.counterKey == a
    ensures TotpSecretFor(config, a).value.secret != TotpSecretFor(config, b).value.secret
  {
  }
}
