/**
  What a loaded configuration says, field by field: each is the value of its own named variable. The readers
  that compute it are not used to say so.
 */
module ConfigFields {
  import opened OrganizerConfig
  import opened Text
  import opened Wrappers

  // ----- one variable -----

  /** The variable holds this text between blanks. */
  predicate Given(lib: Library, env: Environment, v: Variable, text: string) {
    text != "" && v in env && lib.trim(env[v]) == text
  }

  /** The variable holds exactly this text, which has no blanks around it. */
  predicate Verbatim(lib: Library, env: Environment, v: Variable, text: string) {
    text != "" && v in env && env[v] == text && lib.trim(text) == text
  }

  /** The variable is missing or blank. */
  predicate Unset(lib: Library, env: Environment, v: Variable) {
    v in env ==> lib.trim(env[v]) == ""
  }

  /** A numeral within its bounds, or the default of an unset variable. */
  predicate Numbered(lib: Library, env: Environment, v: Variable, n: nat, fallback: nat, minimum: nat, maximum: nat) {
    if Unset(lib, env, v) then n == fallback
    else AllNumerals(lib.trim(env[v])) && Number(lib.trim(env[v])) == n && minimum <= n <= maximum
  }

  // ----- the parts -----

  predicate RuntimeIs(lib: Library, env: Environment, runtime: Runtime) {
    match runtime
    case Local => Given(lib, env, OrganizerEnv, "local") && Vercel !in env && VercelEnv !in env
    case Preview => Given(lib, env, OrganizerEnv, "preview") && OnPlatform(lib, env, "preview")
    case Production => Given(lib, env, OrganizerEnv, "production") && OnPlatform(lib, env, "production")
  }

  predicate OnPlatform(lib: Library, env: Environment, name: string) {
    Vercel in env && env[Vercel] == "1" && Given(lib, env, VercelEnv, name)
  }

  predicate PlannerIs(lib: Library, env: Environment, runtime: Runtime, planner: Planner) {
    match planner
    case PlannerDisabled => runtime == Local && Unset(lib, env, OpenAiApiKey)
    case ProviderRegistry(None) => runtime != Local && (OpenAiApiKey in env ==> env[OpenAiApiKey] == "")
    case ProviderRegistry(Some(key)) =>
      && runtime != Local && Verbatim(lib, env, OpenAiApiKey, key) && 20 <= |key| <= 512
      && forall i | 0 <= i < |key| :: key[i] > ' ' && key[i] != 127 as char
  }

  predicate EmbeddingIs(lib: Library, env: Environment, runtime: Runtime, embedding: Embedding) {
    match embedding
    case EmbeddingDisabled => runtime == Local && Unset(lib, env, EmbeddingProvider)
    case OpenAiEmbedding => runtime != Local && Given(lib, env, EmbeddingProvider, "openai")
    case LocalHashEmbedding => runtime != Local && Given(lib, env, EmbeddingProvider, "local-hash-v1")
  }

  /** A registry lists these roots, in this order: at most twenty, none twice, none of them active. */
  predicate Lists(lib: Library, raw: string, roots: seq<string>, objectWrap: string, contentMac: string) {
    && lib.utf8Length(raw) <= 32768
    && lib.entries(raw).Some?
    && |lib.entries(raw).value| == |roots| <= 20
    && (forall i | 0 <= i < |roots| :: lib.entries(raw).value[i] == Some(roots[i]))
    && (forall i, j | 0 <= i < j < |roots| :: roots[i] != roots[j])
    && objectWrap !in roots && contentMac !in roots
  }

  /** A missing registry is an empty one. */
  function RegistryText(env: Environment, v: Variable): string {
    if v in env then env[v] else "[]"
  }

  /** Blanks around a registry of key names are passed over, where there is one. */
  function TrimmedRegistry(lib: Library, env: Environment, v: Variable): string {
    if v in env then lib.trim(env[v]) else "[]"
  }

  predicate KeyArns(lib: Library, arns: seq<string>, partition: string, region: string, account: string) {
    forall i | 0 <= i < |arns| :: lib.kmsArn(arns[i]) == Some(Arn(partition, region, account))
  }

  predicate RootsOf(lib: Library, roots: seq<string>, environment: string) {
    forall i | 0 <= i < |roots| :: lib.rootEnvironment(roots[i]) == Some(environment)
  }

  predicate NoneOf(lib: Library, env: Environment, vs: set<Variable>) {
    forall v | v in vs :: Unset(lib, env, v)
  }

  predicate AwsIs(lib: Library, env: Environment, runtime: Runtime, b: KeyBoundary)
    requires b.AwsOidc?
  {
    && Given(lib, env, ObjectWrapKmsArn, b.objectWrap)
    && Given(lib, env, ContentMacKmsArn, b.contentMac) && b.contentMac != b.objectWrap
    && Lists(lib, TrimmedRegistry(lib, env, RetiredObjectWrapArns), b.retiredObjectWrap, b.objectWrap, b.contentMac)
    && Lists(lib, TrimmedRegistry(lib, env, RetiredContentMacArns), b.retiredContentMac, b.objectWrap, b.contentMac)
    && Given(lib, env, AwsRegion, b.region) && lib.matches(RegionForm, b.region)
    && Given(lib, env, AwsRoleArn, b.roleArn) && lib.role(b.roleArn).Some?
    && Given(lib, env, ExpectedOidcSubject, b.subject) && lib.matches(SubjectForm, b.subject)
    && lib.subjectEnvironment(b.subject) == Some(RuntimeName(runtime))
    && Given(lib, env, OrganizerProjectId, b.projectId) && Given(lib, env, VercelProjectId, b.projectId)
    && lib.matches(ProjectIdForm, b.projectId)
    && var (partition, account) := lib.role(b.roleArn).value;
    && KeyArns(lib, [b.objectWrap, b.contentMac], partition, b.region, account)
    && KeyArns(lib, b.retiredObjectWrap, partition, b.region, account)
    && KeyArns(lib, b.retiredContentMac, partition, b.region, account)
  }

  predicate VercelIs(lib: Library, env: Environment, runtime: Runtime, b: KeyBoundary)
    requires b.VercelSensitive?
  {
    && Verbatim(lib, env, ObjectWrapRoot, b.objectWrap)
    && Verbatim(lib, env, ContentMacRoot, b.contentMac) && b.contentMac != b.objectWrap
    && (var wrapRegistry := RegistryText(env, RetiredObjectWrapRoots);
        && lib.trim(wrapRegistry) == wrapRegistry && lib.canonical(wrapRegistry)
        && Lists(lib, wrapRegistry, b.retiredObjectWrap, b.objectWrap, b.contentMac))
    && (var macRegistry := RegistryText(env, RetiredContentMacRoots);
        && lib.trim(macRegistry) == macRegistry && lib.canonical(macRegistry)
        && Lists(lib, macRegistry, b.retiredContentMac, b.objectWrap, b.contentMac))
    && Verbatim(lib, env, OrganizerProjectId, b.projectId) && lib.matches(ProjectIdForm, b.projectId)
    && VercelProjectId in env && env[VercelProjectId] == b.projectId
    && KeyRing in env && Verbatim(lib, env, KeyRing, env[KeyRing]) && lib.utf8Length(env[KeyRing]) <= 32768
    && b.environment == runtime
    && RootsOf(lib, [b.objectWrap, b.contentMac] + b.retiredObjectWrap + b.retiredContentMac, RuntimeName(runtime))
  }

  /** The variables of the two custodians and of the database. */
  const OF_KEY_NAMES := {
    AwsRegion, AwsRoleArn, ObjectWrapKmsArn, ContentMacKmsArn, RetiredObjectWrapArns, RetiredContentMacArns,
    ExpectedOidcSubject
  }
  const OF_ROOTS := {KeyRing, ObjectWrapRoot, ContentMacRoot, RetiredObjectWrapRoots, RetiredContentMacRoots}
  const OF_DATABASE := {DatabaseUrl, DatabaseHost, DatabaseProjectRef, DatabaseCaPem}

  predicate BoundaryIs(lib: Library, env: Environment, runtime: Runtime, b: KeyBoundary) {
    match b
    case LocalSynthetic =>
      && runtime == Local && NoneOf(lib, env, OF_KEY_NAMES) && NoneOf(lib, env, OF_ROOTS)
      && Unset(lib, env, KeyCustodian) && Unset(lib, env, OrganizerProjectId)
    case AwsOidc(_, _, _, _, _, _, _, _) =>
      && runtime != Local && Verbatim(lib, env, KeyCustodian, "aws-kms") && NoneOf(lib, env, OF_ROOTS)
      && AwsIs(lib, env, runtime, b)
    case VercelSensitive(_, _, _, _, _, _) =>
      && runtime != Local && Verbatim(lib, env, KeyCustodian, "vercel-sensitive-env-v1")
      && NoneOf(lib, env, OF_KEY_NAMES)
      && VercelIs(lib, env, runtime, b)
  }

  predicate InvocationIs(lib: Library, env: Environment, runtime: Runtime, b: KeyBoundary, i: Invocation) {
    match i
    case Bearer(secret) =>
      runtime == Local && Unset(lib, env, CronSecret) && Given(lib, env, DrainSecret, secret) && 32 <= |secret| <= 512
    case TrustedSource(environment, subject, ownerId, projectId, projectName, teamSlug) =>
      && runtime != Local && !b.LocalSynthetic? && Unset(lib, env, CronSecret) && Unset(lib, env, DrainSecret)
      && environment == runtime
      && Given(lib, env, TrustedSubject, subject)
      && subject == "owner:" + teamSlug + ":project:" + projectName + ":environment:" + RuntimeName(runtime)
      && Given(lib, env, TrustedOwnerId, ownerId) && lib.matches(TeamIdForm, ownerId)
      && Given(lib, env, WebProjectId, projectId) && lib.matches(ProjectIdForm, projectId)
      && projectId != b.projectId
      && Given(lib, env, WebProjectName, projectName) && lib.matches(ProjectNameForm, projectName)
      && Given(lib, env, TeamSlug, teamSlug) && lib.matches(TeamSlugForm, teamSlug)
  }

  predicate PipelineIs(lib: Library, env: Environment, runtime: Runtime, p: Pipeline) {
    match p
    case PipelineDisabled => runtime == Local && NoneOf(lib, env, OF_DATABASE)
    case PipelineEnabled(claimLimit, concurrency, lease, recovery, connect, statement, url, host, projectRef, caPem) =>
      && runtime != Local
      && Numbered(lib, env, ClaimLimit, claimLimit, 2, 1, 4)
      && Numbered(lib, env, Concurrency, concurrency, 2, 1, 4) && concurrency <= claimLimit
      && Numbered(lib, env, LeaseSeconds, lease, 120, 60, 900)
      && Numbered(lib, env, RecoveryLimit, recovery, 100, 1, 100)
      && Numbered(lib, env, ConnectTimeoutMs, connect, 3000, 500, 15000)
      && Numbered(lib, env, StatementTimeoutMs, statement, 1500, 250, 10000)
      && Given(lib, env, DatabaseUrl, url) && |url| <= 4096
      && DatabaseHost in env && lib.trim(env[DatabaseHost]) != "" && host == lib.lower(lib.trim(env[DatabaseHost]))
      && lib.matches(HostForm, host)
      && Given(lib, env, DatabaseProjectRef, projectRef) && lib.matches(ProjectRefForm, projectRef)
      && DatabaseCaPem in env && lib.trim(env[DatabaseCaPem]) != ""
      && lib.certificate(lib.trim(env[DatabaseCaPem])) == Some(caPem)
  }

  predicate ReleaseIs(lib: Library, env: Environment, runtime: Runtime, r: Option<Release>) {
    match r
    case None => runtime == Local && Unset(lib, env, VercelDeploymentId) && Unset(lib, env, VercelGitCommitSha)
    case Some(Release(commit, deployment, environment)) =>
      && runtime != Local && environment == runtime
      && VercelGitCommitSha in env && env[VercelGitCommitSha] == commit && lib.matches(CommitForm, commit)
      && VercelDeploymentId in env && lib.matches(DeploymentIdForm, lib.trim(env[VercelDeploymentId]))
      && deployment == "sha256:" + lib.sha256(lib.trim(env[VercelDeploymentId]))
  }

  /** The configuration is what the environment says, and nothing in the environment is forbidden. */
  predicate Says(lib: Library, env: Environment, c: Config) {
    && (forall v | v in env && v.Foreign? && !Unset(lib, env, v) :: !lib.forbidden(v.name))
    && RuntimeIs(lib, env, c.runtime)
    && PlannerIs(lib, env, c.runtime, c.planner)
    && EmbeddingIs(lib, env, c.runtime, c.embedding)
    && BoundaryIs(lib, env, c.runtime, c.keyBoundary)
    && InvocationIs(lib, env, c.runtime, c.keyBoundary, c.invocation)
    && PipelineIs(lib, env, c.runtime, c.pipeline)
    && ReleaseIs(lib, env, c.runtime, c.release)
    && Numbered(lib, env, TimeoutMs, c.requestTimeoutMs, 49000, 1000, 49000)
    && Numbered(lib, env, MaxRequestBytes, c.maxRequestBytes, 1024, 2, 16384)
    && Numbered(lib, env, Port, c.port, 8790, 1, 65535)
  }

  // ----- each reader gives exactly that -----

  lemma UnsetMeaning(lib: Library, env: Environment, vs: set<Variable>)
    ensures HasAny(lib, env, vs) <==> !NoneOf(lib, env, vs)
  {
    if v :| v in vs && !Unset(lib, env, v) {
      assert HasValue(lib, env, v);
    }
  }

  lemma GivenMeaning(lib: Library, env: Environment, v: Variable, text: string)
    ensures Required(lib, env, v) == Ok(text) <==> Given(lib, env, v, text)
  {
  }

  lemma NumberedMeaning(lib: Library, env: Environment, v: Variable, n: nat, fallback: nat, minimum: nat, maximum: nat)
    requires minimum <= fallback <= maximum
    ensures Integer(lib, env, v, fallback, minimum, maximum) == Ok(n) <==>
            Numbered(lib, env, v, n, fallback, minimum, maximum)
  {
  }

  lemma RuntimeMeaning(lib: Library, env: Environment, runtime: Runtime)
    ensures RuntimeOf(lib, env) == Ok(runtime) <==> RuntimeIs(lib, env, runtime)
  {
  }

  lemma PlannerMeaning(lib: Library, env: Environment, runtime: Runtime, planner: Planner)
    ensures PlannerOf(lib, env, runtime) == Ok(planner) <==> PlannerIs(lib, env, runtime, planner)
  {
  }

  lemma EmbeddingMeaning(lib: Library, env: Environment, runtime: Runtime, embedding: Embedding)
    ensures EmbeddingOf(lib, env, runtime) == Ok(embedding) <==> EmbeddingIs(lib, env, runtime, embedding)
  {
  }

  lemma ReleaseMeaning(lib: Library, env: Environment, runtime: Runtime, r: Option<Release>)
    ensures ReleaseOf(lib, env, runtime) == Ok(r) <==> ReleaseIs(lib, env, runtime, r)
  {
    UnsetMeaning(lib, env, {VercelDeploymentId, VercelGitCommitSha});
  }

  /** A registry reads as the roots that it lists. */
  lemma RegistryMeaning(lib: Library, raw: string, admitted: string -> bool, roots: seq<string>, objectWrap: string,
                        contentMac: string)
    requires lib.utf8Length(raw) <= 32768 && lib.entries(raw).Some?
    ensures RetiredOf(lib.entries(raw).value, admitted, {objectWrap, contentMac}) == Ok(roots) <==>
            Lists(lib, raw, roots, objectWrap, contentMac) && forall i | 0 <= i < |roots| :: admitted(roots[i])
  {
    var entries := lib.entries(raw).value;
    if RetiredOf(entries, admitted, {objectWrap, contentMac}) == Ok(roots) {
      assert forall i | 0 <= i < |roots| :: entries[i] == Some(roots[i]);
    }
    if Lists(lib, raw, roots, objectWrap, contentMac) && forall i | 0 <= i < |roots| :: admitted(roots[i]) {
      assert Values(entries) == roots;
    }
  }

  lemma PipelineMeaning(lib: Library, env: Environment, runtime: Runtime, p: Pipeline)
    ensures PipelineOf(lib, env, runtime) == Ok(p) <==> PipelineIs(lib, env, runtime, p)
  {
    hide Numbered, Integer, HasAny, NoneOf;
    UnsetMeaning(lib, env, DATABASE);
    if p.PipelineEnabled? {
      NumberedMeaning(lib, env, ClaimLimit, p.claimLimit, 2, 1, 4);
      NumberedMeaning(lib, env, Concurrency, p.concurrency, 2, 1, 4);
      NumberedMeaning(lib, env, ConnectTimeoutMs, p.connectTimeoutMs, 3000, 500, 15000);
      NumberedMeaning(lib, env, StatementTimeoutMs, p.statementTimeoutMs, 1500, 250, 10000);
      NumberedMeaning(lib, env, LeaseSeconds, p.leaseSeconds, 120, 60, 900);
      NumberedMeaning(lib, env, RecoveryLimit, p.recoveryLimit, 100, 1, 100);
    }
  }

  lemma InvocationMeaning(lib: Library, env: Environment, runtime: Runtime, b: KeyBoundary, i: Invocation)
    requires !runtime.Local? ==> !b.LocalSynthetic?
    ensures Invocations(lib, env, runtime, b) == Ok(i) <==> InvocationIs(lib, env, runtime, b, i)
  {
    hide RuntimeName;
    UnsetMeaning(lib, env, {CronSecret, DrainSecret});
  }

  lemma AwsMeaning(lib: Library, env: Environment, runtime: Runtime, b: KeyBoundary)
    requires b.AwsOidc?
    ensures AwsBoundary(lib, env, runtime) == Ok(b) <==> AwsIs(lib, env, runtime, b)
  {
    hide RuntimeName, RetiredArns, Lists, KeyArns, ArnFits, Required, TrimmedRegistry, Given;
    GivenMeaning(lib, env, AwsRegion, b.region);
    GivenMeaning(lib, env, AwsRoleArn, b.roleArn);
    GivenMeaning(lib, env, ObjectWrapKmsArn, b.objectWrap);
    GivenMeaning(lib, env, ContentMacKmsArn, b.contentMac);
    GivenMeaning(lib, env, ExpectedOidcSubject, b.subject);
    GivenMeaning(lib, env, OrganizerProjectId, b.projectId);
    if Given(lib, env, OrganizerProjectId, b.projectId) {
      SameProject(lib, env, b.projectId);
    }
    if lib.role(b.roleArn).Some? {
      var role := lib.role(b.roleArn).value;
      ArnsMeaning(lib, env, RetiredContentMacArns, role, b.region, b.retiredContentMac, b.objectWrap, b.contentMac);
      ArnsMeaning(lib, env, RetiredObjectWrapArns, role, b.region, b.retiredObjectWrap, b.objectWrap, b.contentMac);
      TwoArns(lib, b.objectWrap, b.contentMac, role, b.region);
    }
  }

  lemma SameProject(lib: Library, env: Environment, id: string)
    requires Given(lib, env, OrganizerProjectId, id)
    ensures Given(lib, env, VercelProjectId, id) <==> VercelProjectId in env && lib.trim(env[VercelProjectId]) == id
  {
  }

  lemma TwoArns(lib: Library, a: string, b: string, role: (string, string), region: string)
    ensures KeyArns(lib, [a, b], role.0, region, role.1) <==>
            ArnFits(lib, a, role, region) && ArnFits(lib, b, role, region)
  {
    if KeyArns(lib, [a, b], role.0, region, role.1) {
      assert [a, b][0] == a && [a, b][1] == b;
    }
  }

  lemma ArnsMeaning(lib: Library, env: Environment, v: Variable, role: (string, string), region: string,
                    roots: seq<string>, objectWrap: string, contentMac: string)
    ensures RetiredArns(lib, env, v, role, region, {objectWrap, contentMac}) == Ok(roots) <==>
            && Lists(lib, TrimmedRegistry(lib, env, v), roots, objectWrap, contentMac)
            && KeyArns(lib, roots, role.0, region, role.1)
  {
    hide RetiredOf;
    var raw := TrimmedRegistry(lib, env, v);
    if lib.utf8Length(raw) <= 32768 && lib.entries(raw).Some? {
      RegistryMeaning(lib, raw, arn => ArnFits(lib, arn, role, region), roots, objectWrap, contentMac);
    }
  }

  lemma RootsMeaning(lib: Library, env: Environment, v: Variable, runtime: Runtime, roots: seq<string>,
                     objectWrap: string, contentMac: string)
    ensures var raw := RegistryText(env, v);
            RetiredRoots(lib, env, v, runtime, {objectWrap, contentMac}) == Ok(roots) <==>
              && lib.trim(raw) == raw && lib.canonical(raw)
              && Lists(lib, raw, roots, objectWrap, contentMac) && RootsOf(lib, roots, RuntimeName(runtime))
  {
    hide RetiredOf, RuntimeName;
    var raw := RegistryText(env, v);
    if lib.utf8Length(raw) <= 32768 && lib.entries(raw).Some? {
      RegistryMeaning(lib, raw, root => lib.rootEnvironment(root) == Some(RuntimeName(runtime)), roots, objectWrap,
        contentMac);
    }
  }

  lemma VercelMeaning(lib: Library, env: Environment, runtime: Runtime, b: KeyBoundary)
    requires b.VercelSensitive?
    ensures VercelBoundary(lib, env, runtime) == Ok(b) <==> VercelIs(lib, env, runtime, b)
  {
    hide RuntimeName, RetiredRoots, Lists, RootsOf, RegistryText;
    RootsMeaning(lib, env, RetiredContentMacRoots, runtime, b.retiredContentMac, b.objectWrap, b.contentMac);
    RootsMeaning(lib, env, RetiredObjectWrapRoots, runtime, b.retiredObjectWrap, b.objectWrap, b.contentMac);
    FourLists(lib, b.objectWrap, b.contentMac, b.retiredObjectWrap, b.retiredContentMac, RuntimeName(runtime));
  }

  lemma FourLists(lib: Library, a: string, b: string, s: seq<string>, t: seq<string>, environment: string)
    ensures RootsOf(lib, [a, b] + s + t, environment) <==>
            && lib.rootEnvironment(a) == Some(environment) && lib.rootEnvironment(b) == Some(environment)
            && RootsOf(lib, s, environment) && RootsOf(lib, t, environment)
  {
    var all := [a, b] + s + t;
    if RootsOf(lib, all, environment) {
      assert all[0] == a && all[1] == b;
      assert forall i | 0 <= i < |s| :: all[i + 2] == s[i];
      assert forall i | 0 <= i < |t| :: all[i + 2 + |s|] == t[i];
    }
  }

  lemma ManagedMeaning(lib: Library, env: Environment)
    ensures NoneOf(lib, env, MANAGED_ONLY) <==>
              && NoneOf(lib, env, OF_KEY_NAMES) && NoneOf(lib, env, OF_ROOTS)
              && Unset(lib, env, KeyCustodian) && Unset(lib, env, OrganizerProjectId)
  {
    hide Unset;
    assert MANAGED_ONLY == OF_KEY_NAMES + OF_ROOTS + {KeyCustodian, OrganizerProjectId};
    assert KeyCustodian in MANAGED_ONLY && OrganizerProjectId in MANAGED_ONLY;
  }

  lemma BoundaryMeaning(lib: Library, env: Environment, runtime: Runtime, b: KeyBoundary)
    ensures BoundaryOf(lib, env, runtime) == Ok(b) <==> BoundaryIs(lib, env, runtime, b)
  {
    hide AwsBoundary, VercelBoundary, AwsIs, VercelIs, HasAny, NoneOf, BoundaryCoherent;
    UnsetMeaning(lib, env, MANAGED_ONLY);
    ManagedMeaning(lib, env);
    UnsetMeaning(lib, env, SENSITIVE_ONLY);
    UnsetMeaning(lib, env, AWS_ONLY);
    if runtime != Local {
      if AwsBoundary(lib, env, runtime).Ok? {
        AwsIsCoherent(lib, env, runtime);
      }
      if VercelBoundary(lib, env, runtime).Ok? {
        VercelIsCoherent(lib, env, runtime);
      }
      if b.AwsOidc? {
        AwsMeaning(lib, env, runtime, b);
      } else if b.VercelSensitive? {
        VercelMeaning(lib, env, runtime, b);
      }
    }
  }

  /** Loading gives this configuration exactly if the environment says it: one configuration at most. */
  lemma LoadedExactly(lib: Library, env: Environment, c: Config)
    ensures LoadOrganizerConfig(lib, env) == Ok(c) <==> Says(lib, env, c)
    ensures Says(lib, env, c) ==> Given(lib, env, OrganizerEnv, RuntimeName(c.runtime))
  {
    assert RuntimeIs(lib, env, c.runtime) ==> Given(lib, env, OrganizerEnv, RuntimeName(c.runtime));
    hide RuntimeOf, PlannerOf, EmbeddingOf, BoundaryOf, Invocations, PipelineOf, ReleaseOf, Integer, HasValue, Unset,
      Given, Numbered, RuntimeName, RuntimeIs, PlannerIs, EmbeddingIs, BoundaryIs, InvocationIs, PipelineIs, ReleaseIs;
    RuntimeMeaning(lib, env, c.runtime);
    PlannerMeaning(lib, env, c.runtime, c.planner);
    EmbeddingMeaning(lib, env, c.runtime, c.embedding);
    BoundaryMeaning(lib, env, c.runtime, c.keyBoundary);
    ReleaseMeaning(lib, env, c.runtime, c.release);
    PipelineMeaning(lib, env, c.runtime, c.pipeline);
    NumberedMeaning(lib, env, TimeoutMs, c.requestTimeoutMs, 49000, 1000, 49000);
    NumberedMeaning(lib, env, MaxRequestBytes, c.maxRequestBytes, 1024, 2, 16384);
    NumberedMeaning(lib, env, Port, c.port, 8790, 1, 65535);
    ForeignMeaning(lib, env);
    if BoundaryOf(lib, env, c.runtime) == Ok(c.keyBoundary) {
      InvocationMeaning(lib, env, c.runtime, c.keyBoundary, c.invocation);
    }
    LoadsExactly(lib, env);
  }

  lemma ForeignMeaning(lib: Library, env: Environment)
    ensures Unforbidden(lib, env) <==>
            forall v | v in env && v.Foreign? && !Unset(lib, env, v) :: !lib.forbidden(v.name)
  {
    if Unforbidden(lib, env) {
      assert forall v | v in env && v.Foreign? && !Unset(lib, env, v) :: HasValue(lib, env, v);
    }
  }
}
