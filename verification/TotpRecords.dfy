// The single use of a code (section 5.2 of RFC 6238): an accepted counter is kept
// under a counter key, and a code belongs to the key its secret decodes to
// (src/admin/http/elevation.ts). The parser keeps texts apart, not keys.
module TotpRecords {
  import opened Wrappers
  import opened Settings
  import opened Totp
  import opened TotpKeys

  // ---- Secrets as they are stored -------------------------------------------------------

  lemma {:induction false} NoBlanksLeft(s: string)
    ensures forall i :: 0 <= i < |WithoutBlanks(s)| ==> !Blank(WithoutBlanks(s)[i])
  {
    if s != "" { NoBlanksLeft(s[1..]); }
  }

  lemma {:induction false} NothingToRemove(s: string)
    requires forall i :: 0 <= i < |s| ==> !Blank(s[i])
    ensures WithoutBlanks(s) == s
  {
    if s != "" {
      NothingToRemove(s[1..]);
      assert s == [s[0]] + s[1..];
    }
  }

  lemma {:induction false} UnpaddedIsAFront(s: string)
    ensures |WithoutPadding(s)| <= |s| && WithoutPadding(s) == s[..|WithoutPadding(s)|]
    ensures WithoutPadding(WithoutPadding(s)) == WithoutPadding(s)
  {
    if s != "" && s[|s| - 1] == '=' { UnpaddedIsAFront(s[..|s| - 1]); }
  }

  // Normalizing twice is normalizing once.
  lemma {:induction false} NormalizedStays(s: string)
    ensures Normalized(Normalized(s)) == Normalized(s)
  {
    var upper, n := Upper(WithoutBlanks(s)), Normalized(s);
    NoBlanksLeft(s);
    UnpaddedIsAFront(upper);
    assert forall i :: 0 <= i < |n| ==> n[i] == UpperChar(WithoutBlanks(s)[i]);
    NothingToRemove(n);
    assert Upper(n) == n;
  }

  lemma {:induction false} Base32IsNormalized(s: string)
    requires Base32(s)
    ensures Normalized(s) == s
  {
    assert forall i :: 0 <= i < |s| ==> Base32Char(s[i]);
    NothingToRemove(s);
    assert Upper(s) == s;
  }

  lemma {:induction false} EntrySecretsAreNormalized(texts: seq<string>, i: nat)
    requires i < |ReadEntries(texts)|
    ensures Normalized(ReadEntries(texts)[i].secret) == ReadEntries(texts)[i].secret
  {
    var n := |texts| - 1;
    if i < |ReadEntries(texts[..n])| {
      EntrySecretsAreNormalized(texts[..n], i);
    } else {
      var text := texts[n];
      var split := IndexOf(text, '=');
      if 0 < split < |text| { NormalizedStays(text[split + 1..]); }
    }
  }

  // A text strong enough to be accepted: sixteen bytes or more.
  predicate Strong(secret: string) {
    Base32(secret) && ByteCount(secret) >= 16
  }

  lemma {:induction false} TableSecretsAreStrong(env: Env, login: string)
    requires Acceptable(env) && login in ConfigOf(env).totpSecrets
    ensures Strong(ConfigOf(env).totpSecrets[login])
  {
    var entries := SecretEntries(env);
    KeysAre(entries);
    TableShape(entries);
    var i :| 0 <= i < |entries| && entries[i].login == login;
    assert GoodEntry(entries[i], OperatorLogins(env));
    EntrySecretsAreNormalized(Entries(Split(Get(env, "ADMIN_TOTP_SECRETS"), {',', '\n'})), i);
  }

  lemma {:induction false} SecretsAreStrong(env: Env, login: string)
    requires Acceptable(env) && TotpSecretFor(ConfigOf(env), login).Some?
    ensures Strong(TotpSecretFor(ConfigOf(env), login).value.secret)
  {
    if login in ConfigOf(env).totpSecrets { TableSecretsAreStrong(env, login); }
  }

  // ---- One record, one key --------------------------------------------------------------

  ghost predicate Readable(config: Config) {
    forall a :: TotpSecretFor(config, a).Some? ==> AllBase32(TotpSecretFor(config, a).value.secret)
  }

  predicate HasSecret(config: Config, a: string) {
    a in config.operatorLogins && TotpSecretFor(config, a).Some?
  }

  // An accepted code is recorded once for each key: operators whose codes are the
  // same share a record, and no others do.
  ghost predicate OneRecordPerKey(config: Config)
    requires Readable(config)
  {
    forall a, b :: HasSecret(config, a) && HasSecret(config, b) ==>
      var x, y := TotpSecretFor(config, a).value, TotpSecretFor(config, b).value;
      SecretKey(x.secret) == SecretKey(y.secret) <==> x.counterKey == y.counterKey
  }

  // No two operators' texts keep the same bits unless they are one text.
  ghost predicate NoLookalikes(config: Config)
    requires Readable(config)
  {
    forall a, b :: HasSecret(config, a) && HasSecret(config, b) ==>
      var s, t := TotpSecretFor(config, a).value.secret, TotpSecretFor(config, b).value.secret;
      Alike(s, t) ==> s == t
  }

  lemma {:induction false} AcceptedIsReadable(env: Env)
    requires Acceptable(env)
    ensures Readable(ConfigOf(env))
  {
    var config := ConfigOf(env);
    forall a | TotpSecretFor(config, a).Some? ensures AllBase32(TotpSecretFor(config, a).value.secret) {
      SecretsAreStrong(env, a);
    }
  }

  lemma {:induction false} RecordsOfTwo(env: Env, a: string, b: string)
    requires Acceptable(env) && Readable(ConfigOf(env))
    requires TotpSecretFor(ConfigOf(env), a).Some? && TotpSecretFor(ConfigOf(env), b).Some?
    ensures var x, y := TotpSecretFor(ConfigOf(env), a).value, TotpSecretFor(ConfigOf(env), b).value;
      && (x.counterKey == y.counterKey ==> SecretKey(x.secret) == SecretKey(y.secret))
      && ((SecretKey(x.secret) == SecretKey(y.secret) ==> x.counterKey == y.counterKey)
           <==> (Alike(x.secret, y.secret) ==> x.secret == y.secret))
  {
    var config := ConfigOf(env);
    AcceptedHaveOwnKeys(env);
    OneRecordPerText(config, a, b);
    SameKeyExactly(TotpSecretFor(config, a).value.secret, TotpSecretFor(config, b).value.secret);
  }

  // An accepted environment keeps one record for each key if and only if no two
  // operators' texts look alike.
  lemma {:induction false} OneRecordPerSecret(env: Env)
    requires Acceptable(env)
    ensures Readable(ConfigOf(env)) && (OneRecordPerKey(ConfigOf(env)) <==> NoLookalikes(ConfigOf(env)))
  {
    var config := ConfigOf(env);
    AcceptedIsReadable(env);
    forall a, b | HasSecret(config, a) && HasSecret(config, b)
      ensures var x, y := TotpSecretFor(config, a).value, TotpSecretFor(config, b).value;
        (SecretKey(x.secret) == SecretKey(y.secret) <==> x.counterKey == y.counterKey)
          <==> (Alike(x.secret, y.secret) ==> x.secret == y.secret)
    {
      RecordsOfTwo(env, a, b);
    }
  }

  // Texts as encoding writes them are safe.
  lemma {:induction false} CanonicalSecretsKeepTheirRecords(env: Env)
    requires Acceptable(env)
    requires forall a :: HasSecret(ConfigOf(env), a) ==>
      Canonical(TotpSecretFor(ConfigOf(env), a).value.secret)
    ensures Readable(ConfigOf(env)) && OneRecordPerKey(ConfigOf(env))
  {
    var config := ConfigOf(env);
    OneRecordPerSecret(env);
    forall a, b | HasSecret(config, a) && HasSecret(config, b)
      && Alike(TotpSecretFor(config, a).value.secret, TotpSecretFor(config, b).value.secret)
      ensures TotpSecretFor(config, a).value.secret == TotpSecretFor(config, b).value.secret
    {
      CanonicalTextsDiffer(TotpSecretFor(config, a).value.secret, TotpSecretFor(config, b).value.secret);
    }
  }

  // ---- Two operators, one code --------------------------------------------------------

  // Read as it stands, in a list of logins or of secrets.
  predicate Plain(s: string) {
    s != "" && forall i :: 0 <= i < |s| ==> s[i] !in {',', '\n', '='} && !Blank(s[i])
  }

  lemma {:induction false} LoginIsPlain(login: string)
    requires IsLogin(login)
    ensures Plain(login)
  {
    var k :| 0 < k < |login| - 1 && login[k] == '@'
      && (forall i :: 0 <= i < k ==> LocalChar(login[i])) && (forall i :: k < i < |login| ==> DomainChar(login[i]));
    forall i | 0 <= i < |login| ensures login[i] !in {',', '\n', '='} && !Blank(login[i]) {
      assert i < k ==> LocalChar(login[i]);
      assert i > k ==> DomainChar(login[i]);
    }
  }

  lemma {:induction false} Base32IsPlain(s: string)
    requires Base32(s)
    ensures Plain(s)
  {
    forall i | 0 <= i < |s| ensures s[i] !in {',', '\n', '='} && !Blank(s[i]) { assert Base32Char(s[i]); }
  }

  lemma {:induction false} SplitOne(x: string, separators: set<char>)
    requires forall i :: 0 <= i < |x| ==> x[i] !in separators
    ensures Split(x, separators) == [x]
  {
    if x != "" {
      SplitOne(x[1..], separators);
      assert x == [x[0]] + x[1..];
    }
  }

  lemma {:induction false} SplitTwo(x: string, sep: char, y: string, separators: set<char>)
    requires forall i :: 0 <= i < |x| ==> x[i] !in separators
    requires forall i :: 0 <= i < |y| ==> y[i] !in separators
    requires sep in separators
    ensures Split(x + [sep] + y, separators) == [x, y]
  {
    var s := x + [sep] + y;
    if x == "" {
      assert s == [sep] + y && s[1..] == y;
      SplitOne(y, separators);
    } else {
      assert s[1..] == x[1..] + [sep] + y && s[0] == x[0];
      SplitTwo(x[1..], sep, y, separators);
      assert x == [x[0]] + x[1..];
    }
  }

  lemma {:induction false} TrimStays(s: string)
    requires s != "" && !Blank(s[0]) && !Blank(s[|s| - 1])
    ensures Trim(s) == s
  {
    TrimStartHolds(s);
    TrimEndHolds(s);
  }

  lemma {:induction false} EntriesOfTwo(x: string, y: string)
    requires x != "" && y != "" && Trim(x) == x && Trim(y) == y
    ensures Entries([x, y]) == [x, y]
  {
    assert [x, y][..1] == [x] && [x][..0] == [];
    assert Entries([x]) == [x];
  }

  lemma {:induction false} IndexAfter(x: string, y: string)
    requires forall i :: 0 <= i < |x| ==> x[i] != '='
    ensures IndexOf(x + "=" + y, '=') == |x|
  {
    var s := x + "=" + y;
    if x != "" {
      assert s[1..] == x[1..] + "=" + y && s[0] == x[0];
      IndexAfter(x[1..], y);
    }
  }

  lemma {:induction false} ReadsItsEntry(login: string, secret: string)
    requires Plain(login) && Base32(secret)
    ensures ReadEntry(login + "=" + secret) == Entry(login, secret)
  {
    var text := login + "=" + secret;
    IndexAfter(login, secret);
    assert text[..|login|] == login && text[|login| + 1..] == secret;
    TrimStays(login);
    Base32IsNormalized(secret);
  }

  // An environment, with two operators and a secret for each, on one line or two.
  function TwoOperators(base: Env, a: string, b: string, s: string, t: string, sep: char): Env {
    base["ADMIN_OPERATOR_LOGINS" := a + [','] + b]["ADMIN_TOTP_SECRETS" := (a + "=" + s) + [sep] + (b + "=" + t)]
  }

  lemma {:induction false} LoginsRead(base: Env, a: string, b: string, s: string, t: string, sep: char)
    requires Plain(a) && Plain(b)
    ensures OperatorLogins(TwoOperators(base, a, b, s, t, sep)) == [a, b]
  {
    SplitTwo(a, ',', b, {','});
    TrimStays(a);
    TrimStays(b);
    EntriesOfTwo(a, b);
  }

  lemma {:induction false} EntryIsPlain(login: string, secret: string)
    requires Plain(login) && Base32(secret)
    ensures var text := login + "=" + secret;
      Trim(text) == text && forall i :: 0 <= i < |text| ==> text[i] !in {',', '\n'}
  {
    Base32IsPlain(secret);
    TrimStays(login + "=" + secret);
  }

  lemma {:induction false} ReadsTwo(x: string, y: string)
    ensures ReadEntries([x, y]) == [ReadEntry(x), ReadEntry(y)]
  {
    assert [x, y][..1] == [x] && [x][..0] == [];
    assert ReadEntries([x]) == [ReadEntry(x)];
  }

  // The two pieces of the setting.
  lemma {:induction false} TwoPieces(a: string, b: string, s: string, t: string, sep: char)
    requires Plain(a) && Plain(b) && Base32(s) && Base32(t) && sep in {',', '\n'}
    ensures Entries(Split((a + "=" + s) + [sep] + (b + "=" + t), {',', '\n'})) == [a + "=" + s, b + "=" + t]
  {
    EntryIsPlain(a, s);
    EntryIsPlain(b, t);
    SplitTwo(a + "=" + s, sep, b + "=" + t, {',', '\n'});
    EntriesOfTwo(a + "=" + s, b + "=" + t);
  }

  lemma {:induction false} EntriesRead(base: Env, a: string, b: string, s: string, t: string, sep: char)
    requires Plain(a) && Plain(b) && Base32(s) && Base32(t) && sep in {',', '\n'}
    ensures SecretEntries(TwoOperators(base, a, b, s, t, sep)) == [Entry(a, s), Entry(b, t)]
  {
    TwoPieces(a, b, s, t, sep);
    ReadsTwo(a + "=" + s, b + "=" + t);
    ReadsItsEntry(a, s);
    ReadsItsEntry(b, t);
  }

  lemma {:induction false} TableOfTwo(a: string, b: string, s: string, t: string)
    ensures SecretsIn([Entry(a, s), Entry(b, t)]) == map[a := s][b := t]
  {
    var entries := [Entry(a, s), Entry(b, t)];
    assert entries[..1] == [Entry(a, s)] && [Entry(a, s)][..0] == [];
    assert SecretsIn([Entry(a, s)]) == map[a := s];
  }

  lemma {:induction false} OthersAreLeft(base: Env, a: string, b: string, s: string, t: string, sep: char)
    ensures SharedSecret(TwoOperators(base, a, b, s, t, sep)) == SharedSecret(base)
  {
  }

  lemma {:induction false} StrongEntryIsGood(login: string, secret: string, logins: seq<string>)
    requires login in logins && login != "" && Strong(secret)
    ensures GoodEntry(Entry(login, secret), logins)
  {
    Base32IsNormalized(secret);
  }

  lemma {:induction false} TwoEntriesDiffer(x: Entry, y: Entry)
    requires x.login != y.login && x.secret != y.secret
    ensures LoginsDiffer([x, y]) && SecretsDiffer([x, y])
  {
  }

  lemma {:induction false} TwoEntriesAreGood(x: Entry, y: Entry, logins: seq<string>)
    requires GoodEntry(x, logins) && GoodEntry(y, logins)
    ensures forall i :: 0 <= i < |[x, y]| ==> GoodEntry([x, y][i], logins)
  {
    forall i | 0 <= i < |[x, y]| ensures GoodEntry([x, y][i], logins) {
      if i == 0 { assert [x, y][i] == x; } else { assert [x, y][i] == y; }
    }
  }

  lemma {:induction false} TwoLoginsAreGood(a: string, b: string)
    requires IsLogin(a) && IsLogin(b) && a != b
    ensures GoodLogins([a, b])
  {
  }

  lemma {:induction false} TwoAreGood(a: string, b: string, s: string, t: string)
    requires IsLogin(a) && IsLogin(b) && a != b && Strong(s) && Strong(t) && s != t
    ensures GoodLogins([a, b]) && GoodEntries([Entry(a, s), Entry(b, t)], [a, b])
    ensures SecretsDiffer([Entry(a, s), Entry(b, t)])
  {
    var logins := [a, b];
    TwoLoginsAreGood(a, b);
    assert logins[0] == a && logins[1] == b && a != "" && b != "";
    StrongEntryIsGood(a, s, logins);
    StrongEntryIsGood(b, t, logins);
    TwoEntriesAreGood(Entry(a, s), Entry(b, t), logins);
    TwoEntriesDiffer(Entry(a, s), Entry(b, t));
  }

  // Two operators with strong texts of their own are accepted, whatever the rest of
  // the environment says, without a shared secret.
  lemma {:induction false} TwoAreAccepted(base: Env, a: string, b: string, s: string, t: string, sep: char)
    requires SharedSecret(base).None? && sep in {',', '\n'}
    requires IsLogin(a) && IsLogin(b) && a != b && Strong(s) && Strong(t) && s != t
    ensures Acceptable(TwoOperators(base, a, b, s, t, sep))
    ensures ConfigOf(TwoOperators(base, a, b, s, t, sep)) == Config([a, b], map[a := s][b := t], None)
  {
    LoginIsPlain(a);
    LoginIsPlain(b);
    LoginsRead(base, a, b, s, t, sep);
    EntriesRead(base, a, b, s, t, sep);
    TwoAreGood(a, b, s, t);
    TableOfTwo(a, b, s, t);
    OthersAreLeft(base, a, b, s, t, sep);
  }

  lemma {:induction false} KeysOfTwo(config: Config, a: string, b: string, s: string, t: string)
    requires a != b && config == Config([a, b], map[a := s][b := t], None)
    ensures HasSecret(config, a) && TotpSecretFor(config, a) == Some(Key(s, a))
    ensures HasSecret(config, b) && TotpSecretFor(config, b) == Some(Key(t, b))
  {
    assert [a, b][0] == a && [a, b][1] == b;
  }

  // Two texts that look alike are accepted, their codes are the same, and each is
  // recorded apart: one code is accepted once for each operator. The rest of the
  // environment may be any, so it may be one that everything else accepts.
  lemma {:induction false} LookalikesAreAccepted(base: Env, a: string, b: string, s: string, t: string, sep: char)
    requires SharedSecret(base).None? && sep in {',', '\n'}
    requires IsLogin(a) && IsLogin(b) && a != b && Strong(s) && Strong(t) && s != t && Alike(s, t)
    ensures Acceptable(TwoOperators(base, a, b, s, t, sep))
    ensures var config := ConfigOf(TwoOperators(base, a, b, s, t, sep));
      && HasSecret(config, a) && TotpSecretFor(config, a) == Some(Key(s, a))
      && HasSecret(config, b) && TotpSecretFor(config, b) == Some(Key(t, b))
    ensures SecretKey(s) == SecretKey(t)
  {
    TwoAreAccepted(base, a, b, s, t, sep);
    KeysOfTwo(ConfigOf(TwoOperators(base, a, b, s, t, sep)), a, b, s, t);
    SameKeyExactly(s, t);
  }

  // So it is for any twenty-five characters with an A added for one and a B for
  // the other, or with one A and two.
  lemma {:induction false} TwentySixCharactersLookAlike(s: string)
    requires Base32(s) && |s| == 25
    ensures Strong(s + "A") && Strong(s + "B") && Strong(s + "AA")
    ensures Alike(s + "A", s + "B") && Alike(s + "A", s + "AA") && s + "A" != s + "B" && s + "A" != s + "AA"
  {
    assert (s + "A")[|s|] != (s + "B")[|s|] && |s + "A"| != |s + "AA"|;
    Lookalikes(s);
  }
}
