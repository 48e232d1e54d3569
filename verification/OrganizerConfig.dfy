/**
  Loading the organizer's configuration from its environment: what every loaded configuration is.
  String libraries (trimming, patterns, JSON, hashing, certificates) are parameters.
 */
module OrganizerConfig {
  import opened Text
  import opened Wrappers

  datatype Variable =
    | OrganizerEnv | Vercel | VercelEnv | VercelProjectId | VercelDeploymentId | VercelGitCommitSha
    | OpenAiApiKey | EmbeddingProvider
    | KeyCustodian | KeyRing | ObjectWrapRoot | ContentMacRoot | RetiredObjectWrapRoots | RetiredContentMacRoots
    | AwsRegion | AwsRoleArn | ObjectWrapKmsArn | ContentMacKmsArn
    | RetiredObjectWrapArns | RetiredContentMacArns | ExpectedOidcSubject | OrganizerProjectId
    | TeamSlug | TrustedOwnerId | WebProjectId | WebProjectName | TrustedSubject
    | CronSecret | DrainSecret
    | DatabaseUrl | DatabaseHost | DatabaseProjectRef | DatabaseCaPem | ConnectTimeoutMs | StatementTimeoutMs
    | ClaimLimit | Concurrency | LeaseSeconds | RecoveryLimit
    | TimeoutMs | MaxRequestBytes | Port
    | Foreign(name: string)

  type Environment = map<Variable, string>

  /** The string forms that the loader checks with a pattern. */
  datatype Form =
    | DeploymentIdForm | CommitForm | RegionForm | SubjectForm | ProjectIdForm
    | TeamSlugForm | TeamIdForm | ProjectNameForm | HostForm | ProjectRefForm

  datatype Arn = Arn(partition: string, region: string, account: string)

  datatype Library = Library(
    trim: string -> string,
    lower: string -> string,
    utf8Length: string -> nat,
    forbidden: string -> bool,
    matches: (Form, string) -> bool,
    kmsArn: string -> Option<Arn>,
    role: string -> Option<(string, string)>,
    subjectEnvironment: string -> Option<string>,
    rootEnvironment: string -> Option<string>,
    entries: string -> Option<seq<Option<string>>>,
    canonical: string -> bool,
    sha256: string -> string,
    certificate: string -> Option<string>)

  const INVALID := "configuration_error"

  function Check(ok: bool): Result<()> {
    if ok then Ok(()) else Err(INVALID)
  }

  // ----- one variable -----

  predicate HasValue(lib: Library, env: Environment, v: Variable) {
    v in env && lib.trim(env[v]) != ""
  }

  predicate HasAny(lib: Library, env: Environment, vs: set<Variable>) {
    exists v | v in vs :: HasValue(lib, env, v)
  }

  function Required(lib: Library, env: Environment, v: Variable): Result<string> {
    if HasValue(lib, env, v) then Ok(lib.trim(env[v])) else Err(INVALID)
  }

  function Exact(lib: Library, env: Environment, v: Variable): Result<string> {
    if v in env && env[v] != "" && lib.trim(env[v]) == env[v] then Ok(env[v]) else Err(INVALID)
  }

  /** A blank or absent integer falls back; any other is a numeral within its bounds. */
  function Integer(lib: Library, env: Environment, v: Variable, fallback: nat, minimum: nat, maximum: nat)
    : (r: Result<nat>)
    requires minimum <= fallback <= maximum
    ensures r.Ok? ==> minimum <= r.value <= maximum
  {
    if !HasValue(lib, env, v) then Ok(fallback)
    else
      var raw := lib.trim(env[v]);
      if AllNumerals(raw) && minimum <= Number(raw) <= maximum then Ok(Number(raw)) else Err(INVALID)
  }

  // ----- runtime, planner, embedding, release -----

  datatype Runtime = Local | Preview | Production

  function RuntimeName(r: Runtime): string {
    match r
    case Local => "local"
    case Preview => "preview"
    case Production => "production"
  }

  function RuntimeOf(lib: Library, env: Environment): Result<Runtime> {
    var value :- Required(lib, env, OrganizerEnv);
    if value == "local" then
      if Vercel in env || VercelEnv in env then Err(INVALID) else Ok(Local)
    else if value == "preview" || value == "production" then
      if Vercel in env && env[Vercel] == "1" && VercelEnv in env && lib.trim(env[VercelEnv]) == value
      then Ok(if value == "preview" then Preview else Production)
      else Err(INVALID)
    else Err(INVALID)
  }

  datatype Planner = PlannerDisabled | ProviderRegistry(openai: Option<string>)

  predicate SafeSecret(s: string) {
    forall i | 0 <= i < |s| :: s[i] as int > 0x20 && s[i] as int != 0x7f
  }

  function PlannerOf(lib: Library, env: Environment, runtime: Runtime): Result<Planner> {
    if runtime.Local? then
      if HasValue(lib, env, OpenAiApiKey) then Err(INVALID) else Ok(PlannerDisabled)
    else if OpenAiApiKey !in env || env[OpenAiApiKey] == "" then Ok(ProviderRegistry(None))
    else
      var raw := env[OpenAiApiKey];
      if 20 <= |raw| <= 512 && lib.trim(raw) == raw && SafeSecret(raw)
      then Ok(ProviderRegistry(Some(raw)))
      else Err(INVALID)
  }

  datatype Embedding = EmbeddingDisabled | OpenAiEmbedding | LocalHashEmbedding

  function EmbeddingOf(lib: Library, env: Environment, runtime: Runtime): Result<Embedding> {
    if runtime.Local? then
      if HasValue(lib, env, EmbeddingProvider) then Err(INVALID) else Ok(EmbeddingDisabled)
    else
      var selected :- Required(lib, env, EmbeddingProvider);
      if selected == "openai" then Ok(OpenAiEmbedding)
      else if selected == "local-hash-v1" then Ok(LocalHashEmbedding)
      else Err(INVALID)
  }

  datatype Release = Release(commit: string, deployment: string, environment: Runtime)

  function ReleaseOf(lib: Library, env: Environment, runtime: Runtime): Result<Option<Release>> {
    if runtime.Local? then
      if HasAny(lib, env, {VercelDeploymentId, VercelGitCommitSha}) then Err(INVALID) else Ok(None)
    else if VercelDeploymentId !in env || VercelGitCommitSha !in env then Err(INVALID)
    else
      var id, commit := lib.trim(env[VercelDeploymentId]), env[VercelGitCommitSha];
      if lib.matches(DeploymentIdForm, id) && lib.matches(CommitForm, commit)
      then Ok(Some(Release(commit, "sha256:" + lib.sha256(id), runtime)))
      else Err(INVALID)
  }

  // ----- retired roots -----

  const MAX_RETIRED_ROOTS := 20
  const MAX_RETIRED_REGISTRY_BYTES := 32768

  /** At most twenty strings, all admitted, none active, none twice. */
  predicate RetiredAccepted(entries: seq<Option<string>>, admitted: string -> bool, active: set<string>) {
    && |entries| <= MAX_RETIRED_ROOTS
    && (forall i | 0 <= i < |entries| :: entries[i].Some? && admitted(entries[i].value) && entries[i].value !in active)
    && forall i, j | 0 <= i < j < |entries| :: entries[i] != entries[j]
  }

  function Values(entries: seq<Option<string>>): (r: seq<string>)
    requires forall i | 0 <= i < |entries| :: entries[i].Some?
    ensures |r| == |entries| && forall i | 0 <= i < |r| :: r[i] == entries[i].value
  {
    seq(|entries|, i requires 0 <= i < |entries| => entries[i].value)
  }

  predicate Retired(roots: seq<string>, active: set<string>) {
    && |roots| <= MAX_RETIRED_ROOTS
    && (forall i | 0 <= i < |roots| :: roots[i] !in active)
    && forall i, j | 0 <= i < j < |roots| :: roots[i] != roots[j]
  }

  /** An accepted registry is returned as listed. */
  function RetiredOf(entries: seq<Option<string>>, admitted: string -> bool, active: set<string>)
    : (r: Result<seq<string>>)
    ensures r.Ok? ==> Retired(r.value, active) && forall s | s in r.value :: admitted(s)
  {
    if RetiredAccepted(entries, admitted, active) then Ok(Values(entries)) else Err(INVALID)
  }

  /** The key-ARN registry: active keys are checked apart from the entries seen so far. */
  method ParseRetiredArns(entries: seq<Option<string>>, admitted: string -> bool, active: set<string>)
    returns (r: Result<seq<string>>)
    ensures r == RetiredOf(entries, admitted, active)
  {
    if |entries| > MAX_RETIRED_ROOTS {
      return Err(INVALID);
    }
    var seen: set<string>, roots: seq<string> := {}, [];
    for i := 0 to |entries|
      invariant RetiredAccepted(entries[..i], admitted, active)
      invariant roots == Values(entries[..i])
      invariant forall s :: s in seen <==> s in roots
    {
      assert entries[..i + 1] == entries[..i] + [entries[i]];
      if entries[i].None? || !admitted(entries[i].value) || entries[i].value in active {
        return Err(INVALID);
      }
      if entries[i].value in seen {
        var k :| 0 <= k < i && roots[k] == entries[i].value;
        assert entries[k] == entries[i];
        return Err(INVALID);
      }
      forall k | 0 <= k < i
        ensures entries[k] != entries[i]
      {
        assert roots[k] == entries[k].value;
      }
      seen, roots := seen + {entries[i].value}, roots + [entries[i].value];
    }
    assert entries[..|entries|] == entries;
    r := Ok(roots);
  }

  /** The root-id registry: the set of ids seen starts out as the active ones. */
  method ParseRetiredRoots(entries: seq<Option<string>>, admitted: string -> bool, active: set<string>)
    returns (r: Result<seq<string>>)
    ensures r == RetiredOf(entries, admitted, active)
  {
    if |entries| > MAX_RETIRED_ROOTS {
      return Err(INVALID);
    }
    var seen, roots: seq<string> := active, [];
    for i := 0 to |entries|
      invariant RetiredAccepted(entries[..i], admitted, active)
      invariant roots == Values(entries[..i])
      invariant forall s :: s in seen <==> s in active || s in roots
    {
      assert entries[..i + 1] == entries[..i] + [entries[i]];
      if entries[i].None? || !admitted(entries[i].value) {
        return Err(INVALID);
      }
      if entries[i].value in seen {
        if entries[i].value !in active {
          var k :| 0 <= k < i && roots[k] == entries[i].value;
          assert entries[k] == entries[i];
        }
        return Err(INVALID);
      }
      forall k | 0 <= k < i
        ensures entries[k] != entries[i]
      {
        assert roots[k] == entries[k].value;
      }
      seen, roots := seen + {entries[i].value}, roots + [entries[i].value];
    }
    assert entries[..|entries|] == entries;
    r := Ok(roots);
  }

  /** The two registries are checked apart: one root may be retired in both. */
  lemma RegistriesMayOverlap(root: string, admitted: string -> bool, active: set<string>)
    requires admitted(root) && root !in active
    ensures RetiredAccepted([Some(root)], admitted, active)
    ensures Retired(Values([Some(root)]), active)
  {
    assert Values([Some(root)])[0] == root;
  }

  // ----- key boundary -----

  datatype KeyBoundary =
    | LocalSynthetic
    | AwsOidc(objectWrap: string, contentMac: string, retiredObjectWrap: seq<string>, retiredContentMac: seq<string>,
        projectId: string,
              region: string, roleArn: string, subject: string)
    | VercelSensitive(objectWrap: string, contentMac: string, retiredObjectWrap: seq<string>,
        retiredContentMac: seq<string>,
                      projectId: string, environment: Runtime)

  predicate ArnFits(lib: Library, arn: string, role: (string, string), region: string) {
    lib.kmsArn(arn) == Some(Arn(role.0, region, role.1))
  }

  function RetiredArns(lib: Library, env: Environment, v: Variable, role: (string, string), region: string,
                       active: set<string>)
    : Result<seq<string>>
  {
    var raw := if v in env then lib.trim(env[v]) else "[]";
    if lib.utf8Length(raw) > MAX_RETIRED_REGISTRY_BYTES || lib.entries(raw).None? then Err(INVALID)
    else RetiredOf(lib.entries(raw).value, arn => ArnFits(lib, arn, role, region), active)
  }

  function RetiredRoots(lib: Library, env: Environment, v: Variable, runtime: Runtime, active: set<string>)
    : Result<seq<string>>
  {
    var raw := if v in env then env[v] else "[]";
    if lib.trim(raw) != raw || lib.utf8Length(raw) > MAX_RETIRED_REGISTRY_BYTES || lib.entries(raw).None?
      || !lib.canonical(raw)
    then Err(INVALID)
    else RetiredOf(lib.entries(raw).value, root => lib.rootEnvironment(root) == Some(RuntimeName(runtime)), active)
  }

  /** Two different active keys of one runtime, and no active key among the retired ones. */
  predicate BoundaryCoherent(lib: Library, b: KeyBoundary, runtime: Runtime) {
    match b
    case LocalSynthetic => runtime.Local?
    case AwsOidc(objectWrap, contentMac, retiredObjectWrap, retiredContentMac, _, region, roleArn, subject) =>
      && !runtime.Local?
      && objectWrap != contentMac
      && Retired(retiredObjectWrap, {objectWrap, contentMac}) && Retired(retiredContentMac, {objectWrap, contentMac})
      && lib.subjectEnvironment(subject) == Some(RuntimeName(runtime))
      && lib.role(roleArn).Some?
      && forall arn | arn in [objectWrap, contentMac] + retiredObjectWrap + retiredContentMac ::
           ArnFits(lib, arn, lib.role(roleArn).value, region)
    case VercelSensitive(objectWrap, contentMac, retiredObjectWrap, retiredContentMac, _, environment) =>
      && !runtime.Local?
      && environment == runtime
      && objectWrap != contentMac
      && Retired(retiredObjectWrap, {objectWrap, contentMac}) && Retired(retiredContentMac, {objectWrap, contentMac})
      && forall root | root in [objectWrap, contentMac] + retiredObjectWrap + retiredContentMac ::
           lib.rootEnvironment(root) == Some(RuntimeName(runtime))
  }

  function AwsBoundary(lib: Library, env: Environment, runtime: Runtime): Result<KeyBoundary> {
    var region :- Required(lib, env, AwsRegion);
    var roleArn :- Required(lib, env, AwsRoleArn);
    var objectArn :- Required(lib, env, ObjectWrapKmsArn);
    var macArn :- Required(lib, env, ContentMacKmsArn);
    var subject :- Required(lib, env, ExpectedOidcSubject);
    var projectId :- Required(lib, env, OrganizerProjectId);
    var fits :- Check(
      && lib.matches(RegionForm, region)
      && lib.role(roleArn).Some?
      && macArn != objectArn
      && ArnFits(lib, objectArn, lib.role(roleArn).value, region)
      && ArnFits(lib, macArn, lib.role(roleArn).value, region)
      && lib.matches(SubjectForm, subject) && lib.subjectEnvironment(subject) == Some(RuntimeName(runtime))
      && lib.matches(ProjectIdForm, projectId)
      && VercelProjectId in env && lib.trim(env[VercelProjectId]) == projectId);
    var role := lib.role(roleArn).value;
    var retiredMac :- RetiredArns(lib, env, RetiredContentMacArns, role, region, {objectArn, macArn});
    var retiredWrap :- RetiredArns(lib, env, RetiredObjectWrapArns, role, region, {objectArn, macArn});
    Ok(AwsOidc(objectArn, macArn, retiredWrap, retiredMac, projectId, region, roleArn, subject))
  }

  function VercelBoundary(lib: Library, env: Environment, runtime: Runtime): Result<KeyBoundary> {
    var projectId :- Exact(lib, env, OrganizerProjectId);
    var objectRoot :- Exact(lib, env, ObjectWrapRoot);
    var macRoot :- Exact(lib, env, ContentMacRoot);
    var ring :- Exact(lib, env, KeyRing);
    var fits :- Check(
      && lib.matches(ProjectIdForm, projectId)
      && VercelProjectId in env && env[VercelProjectId] == projectId
      && lib.rootEnvironment(objectRoot) == Some(RuntimeName(runtime))
      && lib.rootEnvironment(macRoot) == Some(RuntimeName(runtime)) && macRoot != objectRoot
      && lib.utf8Length(ring) <= MAX_RETIRED_REGISTRY_BYTES);
    var retiredMac :- RetiredRoots(lib, env, RetiredContentMacRoots, runtime, {objectRoot, macRoot});
    var retiredWrap :- RetiredRoots(lib, env, RetiredObjectWrapRoots, runtime, {objectRoot, macRoot});
    Ok(VercelSensitive(objectRoot, macRoot, retiredWrap, retiredMac, projectId, runtime))
  }

  const AWS_ONLY := {
    AwsRegion, AwsRoleArn, ObjectWrapKmsArn, ContentMacKmsArn, RetiredObjectWrapArns, RetiredContentMacArns,
    ExpectedOidcSubject
  }
  const SENSITIVE_ONLY := {KeyRing, ObjectWrapRoot, ContentMacRoot, RetiredObjectWrapRoots, RetiredContentMacRoots}

  function ManagedKeyBoundary(lib: Library, env: Environment, runtime: Runtime): Result<KeyBoundary> {
    var mode :- Exact(lib, env, KeyCustodian);
    if mode == "aws-kms" then
      if HasAny(lib, env, SENSITIVE_ONLY) then Err(INVALID) else AwsBoundary(lib, env, runtime)
    else if mode == "vercel-sensitive-env-v1" then
      if HasAny(lib, env, AWS_ONLY) then Err(INVALID) else VercelBoundary(lib, env, runtime)
    else Err(INVALID)
  }

  lemma AwsIsCoherent(lib: Library, env: Environment, runtime: Runtime)
    requires !runtime.Local? && AwsBoundary(lib, env, runtime).Ok?
    ensures AwsBoundary(lib, env, runtime).value.AwsOidc?
    ensures BoundaryCoherent(lib, AwsBoundary(lib, env, runtime).value, runtime)
  {
    hide Required, Retired, RuntimeName, RetiredAccepted;
  }

  lemma VercelIsCoherent(lib: Library, env: Environment, runtime: Runtime)
    requires !runtime.Local? && VercelBoundary(lib, env, runtime).Ok?
    ensures VercelBoundary(lib, env, runtime).value.VercelSensitive?
    ensures BoundaryCoherent(lib, VercelBoundary(lib, env, runtime).value, runtime)
  {
    hide Exact, Retired, RuntimeName, RetiredAccepted;
  }

  /** A boundary is coherent, and read under one custodian with no variable of the other one set. */
  lemma ManagedIsCoherent(lib: Library, env: Environment, runtime: Runtime)
    requires !runtime.Local? && ManagedKeyBoundary(lib, env, runtime).Ok?
    ensures var b := ManagedKeyBoundary(lib, env, runtime).value;
            && !b.LocalSynthetic? && BoundaryCoherent(lib, b, runtime)
            && !HasAny(lib, env, if b.AwsOidc? then SENSITIVE_ONLY else AWS_ONLY)
            && Exact(lib, env, KeyCustodian) == Ok(if b.AwsOidc? then "aws-kms" else "vercel-sensitive-env-v1")
  {
    hide AwsBoundary, VercelBoundary, BoundaryCoherent, HasAny, Exact;
    if AwsBoundary(lib, env, runtime).Ok? {
      AwsIsCoherent(lib, env, runtime);
    }
    if VercelBoundary(lib, env, runtime).Ok? {
      VercelIsCoherent(lib, env, runtime);
    }
  }

  // ----- invocation and pipeline -----

  datatype Invocation =
    | Bearer(secret: string)
    | TrustedSource(environment: Runtime, subject: string, ownerId: string, projectId: string, projectName: string,
        teamSlug: string)

  function TrustedSourceOf(lib: Library, env: Environment, organizerProjectId: string, runtime: Runtime)
    : Result<Invocation>
  {
    var team :- Required(lib, env, TeamSlug);
    var owner :- Required(lib, env, TrustedOwnerId);
    var project :- Required(lib, env, WebProjectId);
    var name :- Required(lib, env, WebProjectName);
    var subject :- Required(lib, env, TrustedSubject);
    var ok :- Check(
      && lib.matches(TeamSlugForm, team)
      && lib.matches(TeamIdForm, owner)
      && lib.matches(ProjectIdForm, project) && project != organizerProjectId
      && lib.matches(ProjectNameForm, name)
      && subject == "owner:" + team + ":project:" + name + ":environment:" + RuntimeName(runtime));
    Ok(TrustedSource(runtime, subject, owner, project, name, team))
  }

  function BearerOf(lib: Library, env: Environment): Result<Invocation> {
    if HasValue(lib, env, CronSecret) then Err(INVALID)
    else
      var secret :- Required(lib, env, DrainSecret);
      if 32 <= |secret| <= 512 then Ok(Bearer(secret)) else Err(INVALID)
  }

  datatype Pipeline =
    | PipelineDisabled
    | PipelineEnabled(claimLimit: nat, concurrency: nat, leaseSeconds: nat, recoveryLimit: nat,
                      connectTimeoutMs: nat, statementTimeoutMs: nat,
                      url: string, host: string, projectRef: string, caPem: string)

  const DATABASE := {DatabaseUrl, DatabaseHost, DatabaseProjectRef, DatabaseCaPem}

  function PipelineOf(lib: Library, env: Environment, runtime: Runtime): Result<Pipeline> {
    if runtime.Local? then
      if HasAny(lib, env, DATABASE) then Err(INVALID) else Ok(PipelineDisabled)
    else
      var url :- Required(lib, env, DatabaseUrl);
      var hostName :- Required(lib, env, DatabaseHost);
      var projectRef :- Required(lib, env, DatabaseProjectRef);
      var encoded :- Required(lib, env, DatabaseCaPem);
      var host := lib.lower(hostName);
      var ok :- Check(|url| <= 4096 && lib.matches(HostForm, host) && lib.matches(ProjectRefForm, projectRef));
      var claimLimit :- Integer(lib, env, ClaimLimit, 2, 1, 4);
      var concurrency :- Integer(lib, env, Concurrency, 2, 1, 4);
      var within :- Check(concurrency <= claimLimit);
      var connect :- Integer(lib, env, ConnectTimeoutMs, 3000, 500, 15000);
      var statement :- Integer(lib, env, StatementTimeoutMs, 1500, 250, 10000);
      var lease :- Integer(lib, env, LeaseSeconds, 120, 60, 900);
      var recovery :- Integer(lib, env, RecoveryLimit, 100, 1, 100);
      match lib.certificate(encoded)
      case None => Err(INVALID)
      case Some(pem) =>
        Ok(PipelineEnabled(claimLimit, concurrency, lease, recovery, connect, statement, url, host, projectRef, pem))
  }

  /** The bounds of a loaded pipeline. */
  lemma PipelineBounds(lib: Library, env: Environment, runtime: Runtime)
    requires PipelineOf(lib, env, runtime).Ok?
    ensures PipelineOf(lib, env, runtime).value.PipelineDisabled? <==> runtime.Local?
    ensures !runtime.Local? ==>
              var p := PipelineOf(lib, env, runtime).value;
              1 <= p.concurrency <= p.claimLimit <= 4 && 60 <= p.leaseSeconds <= 900
  {
    hide Required, HasAny;
  }

  /** The lease check cannot fail: the bounds alone put the shortest lease above the longest timeout. */
  lemma LeaseCheckNeverFails(lib: Library, env: Environment, runtime: Runtime)
    requires !runtime.Local? && PipelineOf(lib, env, runtime).Ok? &&
        Integer(lib, env, TimeoutMs, 49000, 1000, 49000).Ok?
    ensures PipelineOf(lib, env, runtime).value.leaseSeconds * 1000
            >= Integer(lib, env, TimeoutMs, 49000, 1000, 49000).value + 5000 + 6000
  {
    hide PipelineOf;
    PipelineBounds(lib, env, runtime);
  }

  // ----- the loader -----

  datatype Config = Config(
    runtime: Runtime,
    planner: Planner,
    embedding: Embedding,
    keyBoundary: KeyBoundary,
    invocation: Invocation,
    pipeline: Pipeline,
    release: Option<Release>,
    requestTimeoutMs: nat,
    maxRequestBytes: nat,
    port: nat)

  /** Wholly local, or wholly managed for one runtime. */
  predicate Coherent(lib: Library, c: Config) {
    && BoundaryCoherent(lib, c.keyBoundary, c.runtime)
    && (if c.runtime.Local? then
          && c.keyBoundary.LocalSynthetic? && c.invocation.Bearer? && c.planner.PlannerDisabled?
          && c.embedding.EmbeddingDisabled? && c.pipeline.PipelineDisabled? && c.release.None?
        else
          && !c.keyBoundary.LocalSynthetic?
          && c.invocation.TrustedSource? && c.invocation.environment == c.runtime
          && c.invocation.projectId != c.keyBoundary.projectId
          && c.planner.ProviderRegistry?
          && !c.embedding.EmbeddingDisabled?
          && c.pipeline.PipelineEnabled? && c.pipeline.concurrency <= c.pipeline.claimLimit
          && c.pipeline.leaseSeconds * 1000 >= c.requestTimeoutMs + 5000
          && c.release.Some? && c.release.value.environment == c.runtime)
  }

  predicate Unforbidden(lib: Library, env: Environment) {
    forall v | v in env && v.Foreign? && HasValue(lib, env, v) :: !lib.forbidden(v.name)
  }

  const MANAGED_ONLY := AWS_ONLY + SENSITIVE_ONLY + {KeyCustodian, OrganizerProjectId}

  function Invocations(lib: Library, env: Environment, runtime: Runtime, boundary: KeyBoundary): Result<Invocation>
    requires !runtime.Local? ==> !boundary.LocalSynthetic?
  {
    if runtime.Local? then BearerOf(lib, env)
    else if HasAny(lib, env, {CronSecret, DrainSecret}) then Err(INVALID)
    else TrustedSourceOf(lib, env, boundary.projectId, runtime)
  }

  lemma InvocationFits(lib: Library, env: Environment, runtime: Runtime, boundary: KeyBoundary)
    requires !runtime.Local? ==> !boundary.LocalSynthetic?
    requires Invocations(lib, env, runtime, boundary).Ok?
    ensures var i := Invocations(lib, env, runtime, boundary).value;
            if runtime.Local? then i.Bearer?
            else i.TrustedSource? && i.environment == runtime && i.projectId != boundary.projectId
  {
    hide Required, RuntimeName, HasAny, HasValue;
  }

  /** Planner, embedding and release are there exactly outside local runs. */
  lemma PartsFitRuntime(lib: Library, env: Environment, runtime: Runtime)
    ensures PlannerOf(lib, env, runtime).Ok? ==> (PlannerOf(lib, env, runtime).value.PlannerDisabled? <==>
        runtime.Local?)
    ensures EmbeddingOf(lib, env, runtime).Ok? ==>
        (EmbeddingOf(lib, env, runtime).value.EmbeddingDisabled? <==> runtime.Local?)
    ensures ReleaseOf(lib, env, runtime).Ok? ==>
              var release := ReleaseOf(lib, env, runtime).value;
              if runtime.Local? then release.None? else release.Some? && release.value.environment == runtime
  {
    hide HasValue, HasAny, SafeSecret;
  }

  function BoundaryOf(lib: Library, env: Environment, runtime: Runtime): (r: Result<KeyBoundary>)
    ensures !runtime.Local? && r.Ok? ==> !r.value.LocalSynthetic?
  {
    if runtime.Local? then
      if HasAny(lib, env, MANAGED_ONLY) then Err(INVALID) else Ok(LocalSynthetic)
    else
      var b := ManagedKeyBoundary(lib, env, runtime);
      assert b.Ok? ==> !b.value.LocalSynthetic? by {
        if b.Ok? {
          ManagedIsCoherent(lib, env, runtime);
        }
      }
      b
  }

  function LoadOrganizerConfig(lib: Library, env: Environment): Result<Config> {
    var allowed :- Check(Unforbidden(lib, env));
    var runtime :- RuntimeOf(lib, env);
    var planner :- PlannerOf(lib, env, runtime);
    var embedding :- EmbeddingOf(lib, env, runtime);
    var boundary :- BoundaryOf(lib, env, runtime);
    var invocation :- Invocations(lib, env, runtime, boundary);
    var timeout :- Integer(lib, env, TimeoutMs, 49000, 1000, 49000);
    var pipeline :- PipelineOf(lib, env, runtime);
    var lease :- Check(!(pipeline.PipelineEnabled? && pipeline.leaseSeconds * 1000 < timeout + 5000));
    var maxRequestBytes :- Integer(lib, env, MaxRequestBytes, 1024, 2, 16384);
    var port :- Integer(lib, env, Port, 8790, 1, 65535);
    var release :- ReleaseOf(lib, env, runtime);
    Ok(Config(runtime, planner, embedding, boundary, invocation, pipeline, release, timeout, maxRequestBytes, port))
  }

  /** Every part of the environment reads well; the lease is not among the conditions. */
  predicate Loadable(lib: Library, env: Environment) {
    && Unforbidden(lib, env)
    && RuntimeOf(lib, env).Ok?
    && var runtime := RuntimeOf(lib, env).value;
    && PlannerOf(lib, env, runtime).Ok?
    && EmbeddingOf(lib, env, runtime).Ok?
    && BoundaryOf(lib, env, runtime).Ok?
    && Invocations(lib, env, runtime, BoundaryOf(lib, env, runtime).value).Ok?
    && PipelineOf(lib, env, runtime).Ok?
    && ReleaseOf(lib, env, runtime).Ok?
    && Integer(lib, env, TimeoutMs, 49000, 1000, 49000).Ok?
    && Integer(lib, env, MaxRequestBytes, 1024, 2, 16384).Ok?
    && Integer(lib, env, Port, 8790, 1, 65535).Ok?
  }

  /** Loading succeeds exactly on those environments: comparing lease and timeout refuses none. */
  lemma LoadsExactly(lib: Library, env: Environment)
    ensures LoadOrganizerConfig(lib, env).Ok? <==> Loadable(lib, env)
  {
    hide RuntimeOf, PipelineOf, PlannerOf, EmbeddingOf, ReleaseOf, BoundaryOf, Invocations, Integer, Unforbidden;
    if Loadable(lib, env) {
      var runtime := RuntimeOf(lib, env).value;
      PipelineBounds(lib, env, runtime);
      if !runtime.Local? {
        LeaseCheckNeverFails(lib, env, runtime);
      }
    }
  }

  /** A loaded configuration is coherent; a local one leaves everything managed unset. */
  lemma LoadedIsCoherent(lib: Library, env: Environment)
    requires LoadOrganizerConfig(lib, env).Ok?
    ensures var c := LoadOrganizerConfig(lib, env).value;
            && Coherent(lib, c) && Unforbidden(lib, env) && RuntimeOf(lib, env) == Ok(c.runtime)
            && (c.runtime.Local? ==>
                  !HasAny(lib, env, MANAGED_ONLY + DATABASE + {OpenAiApiKey, EmbeddingProvider, CronSecret}))
  {
    hide RuntimeOf, PipelineOf, PlannerOf, EmbeddingOf, ReleaseOf, Invocations, ManagedKeyBoundary, BearerOf,
      BoundaryCoherent, Integer, HasValue, HasAny, Unforbidden;
    var c := LoadOrganizerConfig(lib, env).value;
    var runtime := c.runtime;
    if runtime.Local? {
      LocalBoundary(lib, runtime);
      LocalInvocation(lib, env, c.keyBoundary);
      LocalLeavesUnset(lib, env);
    } else {
      ManagedIsCoherent(lib, env, runtime);
    }
    InvocationFits(lib, env, runtime, c.keyBoundary);
    PipelineBounds(lib, env, runtime);
    PartsFitRuntime(lib, env, runtime);
  }

  lemma LocalInvocation(lib: Library, env: Environment, boundary: KeyBoundary)
    ensures Invocations(lib, env, Local, boundary) == BearerOf(lib, env)
  {
  }

  lemma LocalBoundary(lib: Library, runtime: Runtime)
    requires runtime.Local?
    ensures BoundaryCoherent(lib, LocalSynthetic, runtime)
  {
  }

  lemma LocalLeavesUnset(lib: Library, env: Environment)
    requires PlannerOf(lib, env, Local).Ok? && EmbeddingOf(lib, env, Local).Ok? && PipelineOf(lib, env, Local).Ok?
    requires BearerOf(lib, env).Ok? && !HasAny(lib, env, MANAGED_ONLY)
    ensures !HasAny(lib, env, MANAGED_ONLY + DATABASE + {OpenAiApiKey, EmbeddingProvider, CronSecret})
  {
    hide HasValue;
  }
}
