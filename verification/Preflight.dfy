// The cutover preflight (scripts/preflight-cutover.ts), which sees the names of an
// environment's variables, against the boot checks (src/config/deploymentConfig.ts),
// which see their values. Both walk the same manifest.
module Preflight {
  import opened Wrappers
  import opened Settings

  datatype Service = Api | Maintenance
  datatype RequiredIn = Always | InProduction | InDevelopment
  datatype Condition = WhenJitEnabled | WhenStaticDcr
  datatype Mode = Production | Development | Test

  datatype Entry = Entry(
    name: string, aliases: seq<string>, requiredIn: RequiredIn, condition: Option<Condition>,
    flag: Option<string>, advisory: bool, services: set<Service>, checkedBy: Option<string>)

  const JIT_FLAG := "JIT_PURCHASE_ENABLED"
  const STATIC_DCR_FLAG := "LETTER_IRL_OAUTH_STATIC_DCR_COMPATIBILITY"
  const LABEL := "LETTER_IRL_DEPLOYMENT_ENVIRONMENT"
  const BUCKET_RULE := "bucket.config_required"

  function Subject(c: Condition): string {
    if c.WhenJitEnabled? then JIT_FLAG else STATIC_DCR_FLAG
  }

  function Names(e: Entry): seq<string> {
    [e.name] + e.aliases
  }

  // ---- The preflight --------------------------------------------------------------

  datatype Note = Plain | Parity(subject: string, isSet: bool) | Because(subject: string)
                | BecauseBoth(subject: string, flag: string)

  datatype Gap = Gap(entry: Entry, note: Note)

  // Whether the diff looks at the entry at all.
  predicate Considers(e: Entry, present: set<string>, production: bool, service: Service) {
    && service in e.services
    && (e.requiredIn.InProduction? && !production ==> e.name == LABEL || e.advisory)
    && !(e.requiredIn.InDevelopment? && production)
    && (!e.advisory ==>
          && (e.condition.Some? ==> Subject(e.condition.value) in present)
          && (e.flag.Some? ==> e.flag.value in present))
  }

  predicate Satisfied(e: Entry, present: set<string>) {
    exists n :: n in Names(e) && n in present
  }

  function NoteOf(e: Entry, present: set<string>): Note {
    if e.condition.None? then Plain
    else
      var subject := Subject(e.condition.value);
      if e.advisory then Parity(subject, subject in present)
      else if e.flag.Some? then BecauseBoth(subject, e.flag.value)
      else Because(subject)
  }

  function GapsOf(manifest: seq<Entry>, present: set<string>, production: bool, service: Service, advisory: bool)
    : seq<Gap>
  {
    if manifest == [] then []
    else
      var e := manifest[|manifest| - 1];
      GapsOf(manifest[..|manifest| - 1], present, production, service, advisory)
      + if e.advisory == advisory && Considers(e, present, production, service) && !Satisfied(e, present)
        then [Gap(e, NoteOf(e, present))] else []
  }

  method DiffManifest(present: set<string>, production: bool, service: Service, manifest: seq<Entry>)
    returns (missing: seq<Gap>, advisory: seq<Gap>)
    ensures missing == GapsOf(manifest, present, production, service, false)
    ensures advisory == GapsOf(manifest, present, production, service, true)
  {
    missing, advisory := [], [];
    for i := 0 to |manifest|
      invariant missing == GapsOf(manifest[..i], present, production, service, false)
      invariant advisory == GapsOf(manifest[..i], present, production, service, true)
    {
      assert manifest[..i + 1][..i] == manifest[..i];
      var e := manifest[i];
      if service !in e.services { continue; }
      if e.requiredIn.InProduction? && !production {
        if e.name != LABEL && !e.advisory { continue; }
      }
      if e.requiredIn.InDevelopment? && production { continue; }
      if !e.advisory {
        if e.condition == Some(WhenJitEnabled) && JIT_FLAG !in present { continue; }
        if e.condition == Some(WhenStaticDcr) && STATIC_DCR_FLAG !in present { continue; }
        if e.flag.Some? && e.flag.value !in present { continue; }
      }
      if !Satisfied(e, present) {
        var gap := Gap(e, NoteOf(e, present));
        if e.advisory { advisory := advisory + [gap]; } else { missing := missing + [gap]; }
      }
    }
    assert manifest[..|manifest|] == manifest;
  }

  lemma {:induction false} GapsAre(manifest: seq<Entry>, present: set<string>, production: bool, service: Service,
        advisory: bool, gap: Gap)
    ensures gap in GapsOf(manifest, present, production, service, advisory)
       <==> (gap.entry in manifest && gap.entry.advisory == advisory && gap.note == NoteOf(gap.entry, present)
             && Considers(gap.entry, present, production, service) && !Satisfied(gap.entry, present))
  {
    if manifest != [] {
      var n := |manifest| - 1;
      GapsAre(manifest[..n], present, production, service, advisory, gap);
      assert gap.entry in manifest <==> gap.entry in manifest[..n] || gap.entry == manifest[n];
    }
  }

  // The variable that turns the entry's condition on.
  predicate Switches(e: Entry, subject: string) {
    || (e.condition == Some(WhenJitEnabled) && subject == "JIT_PURCHASE_ENABLED")
    || (e.condition == Some(WhenStaticDcr) && subject == "LETTER_IRL_OAUTH_STATIC_DCR_COMPATIBILITY")
  }

  // A note that says why something is required, or that a flag is set, is true, and
  // names all there is to it.
  lemma {:induction false} NotesTellTheTruth(manifest: seq<Entry>, present: set<string>, production: bool,
        service: Service, advisory: bool, gap: Gap)
    requires gap in GapsOf(manifest, present, production, service, advisory)
    ensures match gap.note
      case Plain => gap.entry.condition.None?
      case Parity(subject, isSet) => advisory && Switches(gap.entry, subject) && (isSet <==> subject in present)
      case Because(subject) =>
        !advisory && Switches(gap.entry, subject) && subject in present && gap.entry.flag.None?
      case BecauseBoth(subject, flag) =>
        && !advisory && Switches(gap.entry, subject) && subject in present
        && gap.entry.flag == Some(flag) && flag in present
  {
    GapsAre(manifest, present, production, service, advisory, gap);
  }

  // ---- The boot checks --------------------------------------------------------------

  function ResolveDeploymentMode(env: Env): Mode {
    var identity := Get(env, LABEL);
    if identity == "production" then Production
    else if identity == "development" then Development
    else if identity != "" then Production
    else if Get(env, "NODE_ENV") == "production" then Production
    else if Get(env, "NODE_ENV") == "test" then Test
    else Development
  }

  predicate Resolves(e: Entry, env: Env) {
    exists n :: n in Names(e) && Get(env, n) != ""
  }

  // Whether the generic presence pass demands the entry.
  predicate Demands(e: Entry, env: Env, production: bool, service: Service) {
    && e.checkedBy.None? && !e.advisory && service in e.services
    && !(e.requiredIn.InProduction? && !production)
    && !(e.requiredIn.InDevelopment? && production)
    && (e.condition.Some? ==> Get(env, Subject(e.condition.value)) == "true")
    && (e.flag.Some? ==> Enabled(env, e.flag.value))
  }

  function PresenceFindings(manifest: seq<Entry>, env: Env, production: bool, service: Service): seq<Entry> {
    if manifest == [] then []
    else
      var e := manifest[|manifest| - 1];
      PresenceFindings(manifest[..|manifest| - 1], env, production, service)
      + if Demands(e, env, production, service) && !Resolves(e, env) then [e] else []
  }

  method PresencePass(manifest: seq<Entry>, env: Env, production: bool, service: Service) returns (findings: seq<Entry>)
    ensures findings == PresenceFindings(manifest, env, production, service)
  {
    findings := [];
    for i := 0 to |manifest|
      invariant findings == PresenceFindings(manifest[..i], env, production, service)
    {
      assert manifest[..i + 1][..i] == manifest[..i];
      var e := manifest[i];
      if e.checkedBy.Some? { continue; }
      if e.advisory { continue; }
      if service !in e.services { continue; }
      if e.requiredIn.InProduction? && !production { continue; }
      if e.requiredIn.InDevelopment? && production { continue; }
      if e.condition == Some(WhenJitEnabled) && Get(env, JIT_FLAG) != "true" { continue; }
      if e.condition == Some(WhenStaticDcr) && Get(env, STATIC_DCR_FLAG) != "true" { continue; }
      if e.flag.Some? && !Enabled(env, e.flag.value) { continue; }
      if !Resolves(e, env) { findings := findings + [e]; }
    }
    assert manifest[..|manifest|] == manifest;
  }

  datatype BucketError = MemoryStore | Unset(entry: Entry)

  function UnsetBuckets(manifest: seq<Entry>, env: Env): seq<BucketError> {
    if manifest == [] then []
    else
      var e := manifest[|manifest| - 1];
      UnsetBuckets(manifest[..|manifest| - 1], env)
      + if e.checkedBy == Some(BUCKET_RULE) && !Resolves(e, env) then [Unset(e)] else []
  }

  // validateBucket's errors.
  function BucketFindings(manifest: seq<Entry>, env: Env, mode: Mode): seq<BucketError> {
    if !mode.Production? then []
    else if Get(env, "TEMP_IMAGE_STORE") == "memory" then [MemoryStore]
    else UnsetBuckets(manifest, env)
  }

  method ValidateBucket(manifest: seq<Entry>, env: Env, mode: Mode) returns (findings: seq<BucketError>)
    ensures findings == BucketFindings(manifest, env, mode)
  {
    findings := [];
    if !mode.Production? { return; }
    if Get(env, "TEMP_IMAGE_STORE") == "memory" { return [MemoryStore]; }
    for i := 0 to |manifest|
      invariant findings == UnsetBuckets(manifest[..i], env)
    {
      assert manifest[..i + 1][..i] == manifest[..i];
      var e := manifest[i];
      if e.checkedBy == Some(BUCKET_RULE) && !Resolves(e, env) { findings := findings + [Unset(e)]; }
    }
    assert manifest[..|manifest|] == manifest;
  }

  lemma {:induction false} PresenceFindingsAre(manifest: seq<Entry>, env: Env, production: bool, service: Service,
        e: Entry)
    ensures e in PresenceFindings(manifest, env, production, service)
       <==> (e in manifest && Demands(e, env, production, service) && !Resolves(e, env))
  {
    if manifest != [] {
      var n := |manifest| - 1;
      PresenceFindingsAre(manifest[..n], env, production, service, e);
      assert e in manifest <==> e in manifest[..n] || e == manifest[n];
    }
  }

  lemma {:induction false} UnsetBucketsAre(manifest: seq<Entry>, env: Env, finding: BucketError)
    ensures finding in UnsetBuckets(manifest, env)
       <==> (finding.Unset? && finding.entry in manifest && finding.entry.checkedBy == Some(BUCKET_RULE)
             && !Resolves(finding.entry, env))
  {
    if manifest != [] {
      var n := |manifest| - 1;
      UnsetBucketsAre(manifest[..n], env, finding);
      if finding.Unset? {
        assert finding.entry in manifest <==> finding.entry in manifest[..n] || finding.entry == manifest[n];
      }
    }
  }

  // ---- What the preflight demands contains what boot demands --------------------------

  predicate Clean(manifest: seq<Entry>, env: Env, production: bool, service: Service) {
    GapsOf(manifest, env.Keys, production, service, false) == []
  }

  lemma {:induction false} CleanSatisfies(manifest: seq<Entry>, env: Env, production: bool, service: Service, e: Entry)
    requires Clean(manifest, env, production, service) && e in manifest && !e.advisory
    requires Considers(e, env.Keys, production, service)
    ensures Satisfied(e, env.Keys)
  {
    GapsAre(manifest, env.Keys, production, service, false, Gap(e, NoteOf(e, env.Keys)));
  }

  // Whatever boot's presence pass finds missing, after a clean preflight, is a
  // variable that is set, to nothing.
  lemma {:induction false} BootMissesOnlyEmptyValues(manifest: seq<Entry>, env: Env, production: bool,
        service: Service, e: Entry)
    requires Clean(manifest, env, production, service)
    requires e in PresenceFindings(manifest, env, production, service)
    ensures exists n :: n in Names(e) && n in env && env[n] == ""
  {
    PresenceFindingsAre(manifest, env, production, service, e);
    assert e.flag.Some? ==> e.flag.value in env by {
      if e.flag.Some? && e.flag.value !in env { UnsetIsOff(env, e.flag.value); }
    }
    CleanSatisfies(manifest, env, production, service, e);
  }

  lemma {:induction false} UnsetIsOff(env: Env, name: string)
    requires name !in env
    ensures !Enabled(env, name)
  {
  }

  // So with no value empty, the presence pass adds no error.
  lemma {:induction false} CleanPreflightPassesBoot(manifest: seq<Entry>, env: Env, production: bool, service: Service)
    requires Clean(manifest, env, production, service) && forall n :: n in env ==> env[n] != ""
    ensures PresenceFindings(manifest, env, production, service) == []
  {
    var findings := PresenceFindings(manifest, env, production, service);
    if findings != [] {
      BootMissesOnlyEmptyValues(manifest, env, production, service, findings[0]);
    }
  }

  // Where a condition's or an option's switch is set at all, it is on.
  predicate SwitchesAreOn(manifest: seq<Entry>, env: Env) {
    forall e, subject :: e in manifest && subject in env ==>
      && (Switches(e, subject) ==> env[subject] == "true")
      && (e.flag == Some(subject) ==> Enabled(env, subject))
  }

  // The other way round too: but for values that are empty and switches that are
  // set and off, which a preflight cannot see, boot misses exactly the variables that
  // the preflight reports, of those that no other rule checks.
  lemma {:induction false} BootMissesWhatPreflightReports(manifest: seq<Entry>, env: Env, production: bool,
        service: Service, e: Entry)
    requires SwitchesAreOn(manifest, env) && forall n :: n in env ==> env[n] != ""
    requires e in manifest && e.checkedBy.None? && e.name != "LETTER_IRL_DEPLOYMENT_ENVIRONMENT"
    ensures e in PresenceFindings(manifest, env, production, service)
       <==> exists note :: Gap(e, note) in GapsOf(manifest, env.Keys, production, service, false)
  {
    PresenceFindingsAre(manifest, env, production, service, e);
    GapsAre(manifest, env.Keys, production, service, false, Gap(e, NoteOf(e, env.Keys)));
    forall note | Gap(e, note) in GapsOf(manifest, env.Keys, production, service, false)
      ensures note == NoteOf(e, env.Keys)
    {
      GapsAre(manifest, env.Keys, production, service, false, Gap(e, note));
    }
    if e.flag.Some? && e.flag.value !in env { UnsetIsOff(env, e.flag.value); }
  }

  // Parity: an advisory variable is listed wherever it is unset, whatever its
  // conditions; the label is asked for in every environment.
  lemma {:induction false} ParityIsShown(manifest: seq<Entry>, present: set<string>, production: bool, service: Service,
        e: Entry)
    requires e in manifest && service in e.services && !e.requiredIn.InDevelopment?
    requires e.advisory || (e.name == "LETTER_IRL_DEPLOYMENT_ENVIRONMENT" && e.condition.None? && e.flag.None?)
    ensures (exists note :: Gap(e, note) in GapsOf(manifest, present, production, service, e.advisory))
       <==> forall n :: n in present ==> n != e.name && n !in e.aliases
  {
    var gap := Gap(e, NoteOf(e, present));
    GapsAre(manifest, present, production, service, e.advisory, gap);
    forall note ensures Gap(e, note) in GapsOf(manifest, present, production, service, e.advisory) ==>
      !Satisfied(e, present)
    {
      GapsAre(manifest, present, production, service, e.advisory, Gap(e, note));
    }
    assert forall n :: n in Names(e) <==> n == e.name || n in e.aliases;
  }

  // What the bucket check has left to say after a clean preflight: a preflight sees
  // no value, so it cannot see that the store is set to memory.
  function StoreErrors(env: Env): seq<BucketError> {
    if Get(env, "TEMP_IMAGE_STORE") == "memory" then [MemoryStore] else []
  }

  // The preflight asks the entry of this service in production, on no condition.
  predicate AlwaysDemanded(e: Entry, service: Service) {
    service in e.services && !e.advisory && e.condition.None? && e.flag.None? && !e.requiredIn.InDevelopment?
  }

  // The bucket check asks whatever the service: it is contained when the
  // preflight always demands each bucket variable of this service.
  lemma {:induction false} CleanPreflightPassesBuckets(manifest: seq<Entry>, env: Env, service: Service)
    requires Clean(manifest, env, true, service) && forall n :: n in env ==> env[n] != ""
    requires forall e :: e in manifest && e.checkedBy == Some(BUCKET_RULE) ==> AlwaysDemanded(e, service)
    ensures BucketFindings(manifest, env, Production) == StoreErrors(env)
  {
    var unset := UnsetBuckets(manifest, env);
    if unset != [] {
      UnsetBucketsAre(manifest, env, unset[0]);
      CleanSatisfies(manifest, env, true, service, unset[0].entry);
    }
  }

  // The names whose absence makes the preflight skip the entry.
  function Gates(e: Entry): set<string> {
    (if e.condition.Some? then {Subject(e.condition.value)} else {}) + (if e.flag.Some? then {e.flag.value} else {})
  }

  // Every other entry has a name that is none of e's and no gate of e's.
  predicate StandsApart(manifest: seq<Entry>, e: Entry) {
    forall d :: d in manifest && d != e ==> exists n :: n in Names(d) && n !in Names(e) && n !in Gates(e)
  }

  // Everything set but the entry and what gates it.
  function AllBut(manifest: seq<Entry>, e: Entry): Env {
    map d: Entry, n: string | d in manifest && n in Names(d) && n !in Names(e) && n !in Gates(e) :: n := "set"
  }

  lemma {:induction false} SkippedBucketIsMissed(manifest: seq<Entry>, e: Entry, service: Service)
    requires e in manifest && e.checkedBy == Some(BUCKET_RULE)
    requires !AlwaysDemanded(e, service) && StandsApart(manifest, e)
    ensures var env := AllBut(manifest, e);
      && Clean(manifest, env, true, service) && (forall n :: n in env ==> env[n] != "")
      && Unset(e) in BucketFindings(manifest, env, Production)
  {
    var env := AllBut(manifest, e);
    assert Get(env, "TEMP_IMAGE_STORE") != "memory";
    UnsetBucketsAre(manifest, env, Unset(e));
    var gaps := GapsOf(manifest, env.Keys, true, service, false);
    if gaps != [] {
      GapsAre(manifest, env.Keys, true, service, false, gaps[0]);
    }
  }

  // A bucket variable is never missing at boot after a clean preflight if and only
  // if the preflight always demands it of the service.
  lemma {:induction false} BucketIsContainedExactly(manifest: seq<Entry>, e: Entry, service: Service)
    requires e in manifest && e.checkedBy == Some(BUCKET_RULE) && StandsApart(manifest, e)
    ensures AlwaysDemanded(e, service)
       <==> (forall env: Env :: Clean(manifest, env, true, service) && (forall n :: n in env ==> env[n] != "")
                                ==> Unset(e) !in BucketFindings(manifest, env, Production))
  {
    if AlwaysDemanded(e, service) {
      forall env: Env | Clean(manifest, env, true, service) && (forall n :: n in env ==> env[n] != "")
        ensures Unset(e) !in BucketFindings(manifest, env, Production)
      {
        UnsetBucketsAre(manifest, env, Unset(e));
        CleanSatisfies(manifest, env, true, service, e);
      }
    } else {
      SkippedBucketIsMissed(manifest, e, service);
    }
  }

  const BUCKETS: seq<Entry> := [
    Bucket("TEMP_IMAGE_BUCKET_NAME", ["AWS_S3_BUCKET_NAME", "BUCKET"]),
    Bucket("TEMP_IMAGE_BUCKET_ENDPOINT", ["AWS_ENDPOINT_URL_S3", "AWS_ENDPOINT_URL", "ENDPOINT"]),
    Bucket("TEMP_IMAGE_BUCKET_ACCESS_KEY_ID", ["AWS_ACCESS_KEY_ID", "ACCESS_KEY_ID"]),
    Bucket("TEMP_IMAGE_BUCKET_SECRET_ACCESS_KEY", ["AWS_SECRET_ACCESS_KEY", "SECRET_ACCESS_KEY"])
  ]

  function Bucket(name: string, aliases: seq<string>): Entry {
    Entry(name, aliases, InProduction, None, None, false, {Api, Maintenance}, Some(BUCKET_RULE))
  }

  const LABEL_ENTRY: Entry :=
    Entry(LABEL, [], InProduction, None, None, false, {Api, Maintenance}, Some("env.deployment_environment_required"))

  // Only an environment without a label, or labelled so, is ever development; one
  // without is what NODE_ENV says.
  lemma {:induction false} ModesAre(env: Env)
    ensures var stated := Get(env, "LETTER_IRL_DEPLOYMENT_ENVIRONMENT");
      var node := Get(env, "NODE_ENV");
      && (ResolveDeploymentMode(env).Test? <==> stated == "" && node == "test")
      && (ResolveDeploymentMode(env).Development? <==>
            (stated == "development" || (stated == "" && node !in {"production", "test"})))
  {
    assert "production"[0] != "test"[0] && "production"[0] != "development"[0];
  }

  // A clean preflight leaves the mode to the label alone: development when it
  // says so, and production for any other value, whatever NODE_ENV says.
  lemma {:induction false} LabelDecidesMode(manifest: seq<Entry>, env: Env, production: bool, service: Service)
    requires Clean(manifest, env, production, service) && forall n :: n in env ==> env[n] != ""
    requires LABEL_ENTRY in manifest
    ensures LABEL in env
    ensures ResolveDeploymentMode(env) == if env[LABEL] == "development" then Development else Production
  {
    CleanSatisfies(manifest, env, production, service, LABEL_ENTRY);
  }

  // The service that boots in the environment it was preflighted for has every
  // variable the presence pass and the bucket check ask: nothing is left to report
  // but a store set to memory.
  lemma {:induction false} BootIsContained(manifest: seq<Entry>, env: Env, production: bool, service: Service)
    requires Clean(manifest, env, production, service) && forall n :: n in env ==> env[n] != ""
    requires LABEL_ENTRY in manifest
    requires forall e :: e in manifest && e.checkedBy == Some(BUCKET_RULE) ==> e in BUCKETS
    requires Get(env, LABEL) == if production then "production" else "development"
    ensures var mode := ResolveDeploymentMode(env);
      && (mode.Production? <==> production)
      && PresenceFindings(manifest, env, mode.Production?, service) == []
      && BucketFindings(manifest, env, mode) == if production then StoreErrors(env) else []
  {
    LabelDecidesMode(manifest, env, production, service);
    assert "production"[0] != "development"[0];
    CleanPreflightPassesBoot(manifest, env, production, service);
    if production {
      forall e | e in manifest && e.checkedBy == Some(BUCKET_RULE) ensures AlwaysDemanded(e, service) {
        assert e in BUCKETS;
      }
      CleanPreflightPassesBuckets(manifest, env, service);
    }
  }
}
