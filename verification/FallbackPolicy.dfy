/** Which engine an AI job may use, from the stored preference to the provenance its consumer
    accepts: intents, fallback reasons, the recap and ask jobs, and the renderer's check. */
module FallbackPolicy {
  import opened Common
  import P = PreferenceFile

  datatype Intent = DefaultIntent | StrictRetry | ExplicitHeuristic

  datatype Mode = LocalLlm | HeuristicFallback

  datatype Policy = RequireLocalLlm | AllowDisclosed

  datatype Reason = LlmUnavailable | RuntimeFailed | ModelCorrupt | ResourcePolicy | UserRequested

  datatype Code =
    // corrupt models
    | LlmBinaryHashInvalid | LlmBinaryHashMismatch | LlmBinaryHashUnreadable | LlmModelHashInvalid
    | LlmModelHashMismatch | LlmModelHashUnreadable | LlmModelCorrupt | AssetHashMismatch | AssetSizeMismatch
    // resource policy
    | LlmResourcePolicy | AssetDiskBudgetExceeded
    // unavailable
    | LlmUnavailableCode | LlmBinaryHashNotConfigured | LlmBinaryNotConfigured | LlmBinaryNotFound
    | LlmModelHashNotConfigured | LlmModelNotConfigured | LlmModelNotFound | LlmNotReady | AssetMissing
    | AssetUnavailable | AssetUnreadable | AssetsMissing | LanguageIncomplete | ManifestMissing
    | ManifestUnreadable | NoDefaultSelected | NoticeMissing | PlatformUnsupported | RootDisabled
    | RootInvalid | RootMissing | RuntimeNotExecutable
    // the runtime failed
    | LlmRuntimeFailed | LlmCommandFailed | LlmCommandSpawnFailed | LlmCommandTimeout
    | LlmCommandWaitFailed | LlmOutputEmpty | LlmOutputEncodingInvalid | LlmOutputReadFailed
    | LlmOutputReaderFailed | LlmOutputTooLarge | LlmStderrTooLarge
    // never a reason to fall back
    | LlmCommandCancelled | JobCancelled | AppShuttingDown | RecordingPriority | ModelJobActive
    // any other
    | LlmStatusUnknown | LlmIdentityChanged | LlmIdentityUnverified | HeuristicDisabled | OtherCode(name: string)

  predicate IsNonFallbackError(c: Code) {
    c.LlmCommandCancelled? || c.JobCancelled? || c.AppShuttingDown? || c.RecordingPriority? || c.ModelJobActive?
  }

  function AllowedFallbackReason(c: Code): Option<Reason> {
    if c.LlmBinaryHashInvalid? || c.LlmBinaryHashMismatch? || c.LlmBinaryHashUnreadable? || c.LlmModelHashInvalid?
       || c.LlmModelHashMismatch? || c.LlmModelHashUnreadable? || c.LlmModelCorrupt? || c.AssetHashMismatch?
       || c.AssetSizeMismatch?
    then Some(ModelCorrupt)
    else if c.LlmResourcePolicy? || c.AssetDiskBudgetExceeded? then Some(ResourcePolicy)
    else if c.LlmUnavailableCode? || c.LlmBinaryHashNotConfigured? || c.LlmBinaryNotConfigured? || c.LlmBinaryNotFound?
            || c.LlmModelHashNotConfigured? || c.LlmModelNotConfigured? || c.LlmModelNotFound? || c.LlmNotReady?
            || c.AssetMissing? || c.AssetUnavailable? || c.AssetUnreadable? || c.AssetsMissing? || c.LanguageIncomplete?
            || c.ManifestMissing? || c.ManifestUnreadable? || c.NoDefaultSelected? || c.NoticeMissing?
            || c.PlatformUnsupported? || c.RootDisabled? || c.RootInvalid? || c.RootMissing? || c.RuntimeNotExecutable?
    then Some(LlmUnavailable)
    else if c.LlmRuntimeFailed? || c.LlmCommandFailed? || c.LlmCommandSpawnFailed? || c.LlmCommandTimeout?
            || c.LlmCommandWaitFailed? || c.LlmOutputEmpty? || c.LlmOutputEncodingInvalid? || c.LlmOutputReadFailed?
            || c.LlmOutputReaderFailed? || c.LlmOutputTooLarge? || c.LlmStderrTooLarge?
    then Some(RuntimeFailed)
    else None
  }

  /** The code shown to the user in place of an internal one. */
  function StableLocalAiCode(c: Code): Code {
    match AllowedFallbackReason(c)
    case Some(ModelCorrupt) => LlmModelCorrupt
    case Some(ResourcePolicy) => LlmResourcePolicy
    case Some(LlmUnavailable) => LlmUnavailableCode
    case Some(RuntimeFailed) => LlmRuntimeFailed
    case _ => LlmStatusUnknown
  }

  lemma StableCodesHaveTheirReason()
    ensures AllowedFallbackReason(LlmModelCorrupt) == Some(ModelCorrupt)
    ensures AllowedFallbackReason(LlmResourcePolicy) == Some(ResourcePolicy)
    ensures AllowedFallbackReason(LlmUnavailableCode) == Some(LlmUnavailable)
    ensures AllowedFallbackReason(LlmRuntimeFailed) == Some(RuntimeFailed)
    ensures AllowedFallbackReason(LlmStatusUnknown) == None
  {}

  lemma ReasonsAreNoProhibition(c: Code)
    ensures AllowedFallbackReason(c).Some? ==> !IsNonFallbackError(c) && AllowedFallbackReason(c) != Some(UserRequested)
  {}

  /** Stabilising a code never changes whether, or why, it allows a fallback; no code is both a
      reason to fall back and a reason not to. */
  lemma StableCodeKeepsReason(c: Code)
    ensures AllowedFallbackReason(StableLocalAiCode(c)) == AllowedFallbackReason(c)
    ensures StableLocalAiCode(StableLocalAiCode(c)) == StableLocalAiCode(c)
    ensures AllowedFallbackReason(c).Some? ==> !IsNonFallbackError(c) && AllowedFallbackReason(c) != Some(UserRequested)
  {
    hide AllowedFallbackReason, IsNonFallbackError;
    StableCodesHaveTheirReason();
    ReasonsAreNoProhibition(c);
  }

  /** Every failure of the model or its files has a reason; the codes without one are the five
      prohibitions, the identity errors, the unknown and the foreign ones. */
  lemma ReasonlessExactly(c: Code)
    ensures AllowedFallbackReason(c).None? <==>
              || IsNonFallbackError(c) || c.LlmStatusUnknown? || c.LlmIdentityChanged? || c.LlmIdentityUnverified?
              || c.HeuristicDisabled? || c.OtherCode?
  {}

  function DisclosedFallbackReason(policy: Policy, c: Code, cancelled: bool): Option<Reason> {
    if cancelled || policy.RequireLocalLlm? || IsNonFallbackError(c) then None else AllowedFallbackReason(c)
  }

  // ---- Intents ----

  function DefaultFallbackPolicy(p: P.Preference): Policy {
    if p.Automatic? then AllowDisclosed else RequireLocalLlm
  }

  /** resolve_intent; a refusal is the error HEURISTIC_FALLBACK_DISABLED. */
  function ResolveIntent(p: P.Preference, intent: Intent): Result<(Mode, Policy), Code> {
    match intent
    case DefaultIntent => Ok((LocalLlm, DefaultFallbackPolicy(p)))
    case StrictRetry => Ok((LocalLlm, RequireLocalLlm))
    case ExplicitHeuristic =>
      if p.Never? then Err(HeuristicDisabled) else Ok((HeuristicFallback, AllowDisclosed))
  }

  // ---- Provenance ----

  /** A digest formatted in lower-case hexadecimal. */
  type Digest = d: seq<Byte> | |d| == 32 witness seq(32, _ => 0)

  function HexDigit(n: nat): char
    requires n < 16
  {
    if n < 10 then '0' + n as char else 'a' + (n - 10) as char
  }

  function Hex(bytes: seq<Byte>): string {
    if bytes == [] then [] else [HexDigit(bytes[0] / 16), HexDigit(bytes[0] % 16)] + Hex(bytes[1..])
  }

  datatype Identity = Identity(modelId: string, model: Digest, runtime: Digest)

  /** The clock's time as formatted, or "unknown" when it could not be. */
  datatype Instant = Rfc3339(text: string) | UnknownInstant

  datatype Provenance = Provenance(
    engine: string,
    modelId: Option<string>,
    modelSha256: Option<string>,
    runtimeSha256: Option<string>,
    fallbackUsed: bool,
    fallbackReason: Option<string>,
    promptVersion: string,
    generatedAt: Instant)

  function ReasonText(r: Reason): string {
    match r
    case LlmUnavailable => "llm-unavailable"
    case RuntimeFailed => "runtime-failed"
    case ModelCorrupt => "model-corrupt"
    case ResourcePolicy => "resource-policy"
    case UserRequested => "user-requested"
  }

  function LocalProvenance(identity: Identity, now: Instant): Provenance {
    Provenance("local-llm", Some(identity.modelId), Some(Hex(identity.model)), Some(Hex(identity.runtime)), false, None,
               "candor-grounded-v1", now)
  }

  function HeuristicProvenance(reason: Reason, now: Instant): Provenance {
    Provenance("heuristic", None, None, None, true, Some(ReasonText(reason)), "candor-heuristic-v1", now)
  }

  // ---- The jobs ----

  /** The local model's answer to one job. A ready model has an identity before the generation,
      read again after one that succeeded. */
  datatype Generation = Generated(after: Result<Identity, Code>) | GenerationFailed(code: Code)

  datatype LocalAi =
    | NotReady(failureCode: Option<Code>)
    | ReadyWith(before: Result<Identity, Code>, generation: Generation)

  /** What a job meets: the model, the heuristic, each reading of its cancellation flag, the
      saving of its result, and the clock. */
  datatype Environment = Environment(
    local: LocalAi,
    heuristic: Result<(), Code>,
    cancelledOnError: bool,
    cancelledAtFallback: bool,
    cancelledAtEnd: bool,
    saved: Result<(), Code>,
    now: Instant)

  function Heuristic(env: Environment, reason: Reason): Result<Provenance, Code> {
    if env.heuristic.Err? then Err(env.heuristic.error) else Ok(HeuristicProvenance(reason, env.now))
  }

  /** recap_fallback_or_fail and ask_fallback_or_fail. */
  function FallbackOrFail(policy: Policy, code: Code, env: Environment): Result<Provenance, Code> {
    var reason := DisclosedFallbackReason(policy, code, env.cancelledAtFallback);
    if reason.None? then Err(code) else Heuristic(env, reason.value)
  }

  function Generate(mode: Mode, policy: Policy, env: Environment): Result<Provenance, Code> {
    if mode.HeuristicFallback? then Heuristic(env, UserRequested)
    else
      match env.local
      case NotReady(code) => FallbackOrFail(policy, StableLocalAiCode(code.Or(Some(LlmUnavailableCode)).value), env)
      case ReadyWith(Err(code), _) => Err(code)
      case ReadyWith(Ok(before), Generated(Err(code))) => Err(code)
      case ReadyWith(Ok(before), Generated(Ok(after))) =>
        if after != before then Err(LlmIdentityChanged) else Ok(LocalProvenance(before, env.now))
      case ReadyWith(Ok(_), GenerationFailed(code)) =>
        if env.cancelledOnError || IsNonFallbackError(code) then Err(code) else FallbackOrFail(policy, code, env)
  }

  /** recap and ask: they differ only in what they generate and save. */
  function Job(mode: Mode, policy: Policy, env: Environment): Result<Provenance, Code> {
    var generated := Generate(mode, policy, env);
    if generated.Err? then generated
    else if env.cancelledAtEnd then Err(JobCancelled)
    else if env.saved.Err? then Err(env.saved.error)
    else generated
  }

  /** The same job with its early returns, as the source sequences it. */
  method RunJob(mode: Mode, policy: Policy, env: Environment) returns (outcome: Result<Provenance, Code>)
    ensures outcome == Job(mode, policy, env)
    ensures outcome.Ok? && policy.RequireLocalLlm? && mode.LocalLlm? ==> outcome.value.engine == "local-llm"
  {
    var provenance: Provenance;
    if mode.HeuristicFallback? {
      if env.heuristic.Err? { return Err(env.heuristic.error); }
      provenance := HeuristicProvenance(UserRequested, env.now);
    } else if env.local.NotReady? {
      var code := if env.local.failureCode.Some? then env.local.failureCode.value else LlmUnavailableCode;
      var fallback := FallbackOrFail(policy, StableLocalAiCode(code), env);
      if fallback.Err? { return fallback; }
      provenance := fallback.value;
    } else {
      if env.local.before.Err? { return Err(env.local.before.error); }
      match env.local.generation
      case Generated(after) =>
        if after.Err? { return Err(after.error); }
        if after.value != env.local.before.value { return Err(LlmIdentityChanged); }
        provenance := LocalProvenance(env.local.before.value, env.now);
      case GenerationFailed(code) =>
        if env.cancelledOnError || IsNonFallbackError(code) { return Err(code); }
        var fallback := FallbackOrFail(policy, code, env);
        if fallback.Err? { return fallback; }
        provenance := fallback.value;
    }
    if env.cancelledAtEnd { return Err(JobCancelled); }
    if env.saved.Err? { return Err(env.saved.error); }
    outcome := Ok(provenance);
  }

  /** A request under a preference: resolve the intent, then run the job. */
  function Request(p: P.Preference, intent: Intent, env: Environment): Result<Provenance, Code> {
    var resolved := ResolveIntent(p, intent);
    if resolved.Err? then Err(resolved.error) else Job(resolved.value.0, resolved.value.1, env)
  }

  /** The first error is the one reported: generating, then a late cancellation, then saving. */
  lemma FirstErrorWins(mode: Mode, policy: Policy, env: Environment)
    ensures Generate(mode, policy, env).Err? ==> Job(mode, policy, env) == Generate(mode, policy, env)
    ensures Generate(mode, policy, env).Ok? && env.cancelledAtEnd ==> Job(mode, policy, env) == Err(JobCancelled)
    ensures Generate(mode, policy, env).Ok? && !env.cancelledAtEnd && env.saved.Err? ==>
              Job(mode, policy, env) == Err(env.saved.error)
  {
    hide Generate;
  }

  /** What a request that may not fall back is told: the stable code of a model that is not ready, the
      identity's own error, that the identity changed, or why generating failed. */
  lemma StrictRefusals(p: P.Preference, env: Environment)
    ensures var outcome := Request(p, StrictRetry, env);
            match env.local
            case NotReady(code) =>
              outcome == Err(StableLocalAiCode(if code.Some? then code.value else LlmUnavailableCode))
            case ReadyWith(Err(code), _) => outcome == Err(code)
            case ReadyWith(Ok(before), Generated(Err(code))) => outcome == Err(code)
            case ReadyWith(Ok(before), Generated(Ok(after))) => after != before ==> outcome == Err(LlmIdentityChanged)
            case ReadyWith(Ok(_), GenerationFailed(code)) => outcome == Err(code)
    ensures Request(P.Never, ExplicitHeuristic, env) == Err(HeuristicDisabled)
  {
    hide StableLocalAiCode, AllowedFallbackReason, Hex;
  }

  predicate IsHeuristic(outcome: Result<Provenance, Code>) { outcome.Ok? && outcome.value.engine == "heuristic" }

  /** The code with which the local engine did not deliver, when it is one to fall back on. */
  function LocalFailure(local: LocalAi): Option<Code> {
    match local
    case NotReady(code) => code.Or(Some(LlmUnavailableCode))
    case ReadyWith(Ok(_), GenerationFailed(code)) => Some(code)
    case _ => None
  }

  predicate NeverCancelled(env: Environment) {
    !env.cancelledAtFallback && !env.cancelledAtEnd && (env.local.ReadyWith? ==> !env.cancelledOnError)
  }

  /** When, exactly, a request ends in a heuristic result. Under Never no intent does; a strict
      retry never does; asking explicitly does unless the preference is Never; and the default
      intent does only under Automatic, when the local engine failed for an allowed reason and
      nobody cancelled. */
  lemma HeuristicExactlyWhenAuthorised(p: P.Preference, intent: Intent, env: Environment)
    ensures IsHeuristic(Request(p, intent, env)) <==>
              && env.heuristic.Ok? && env.saved.Ok?
              && match intent
                 case StrictRetry => false
                 case ExplicitHeuristic => !p.Never? && !env.cancelledAtEnd
                 case DefaultIntent =>
                   && p.Automatic? && NeverCancelled(env)
                   && LocalFailure(env.local).Some? && AllowedFallbackReason(LocalFailure(env.local).value).Some?
  {
    EnginesDiffer();
    if LocalFailure(env.local).Some? { StableCodeKeepsReason(LocalFailure(env.local).value); }
  }

  /** The bytes a lower-case hexadecimal text stands for, most significant digit first. */
  function DigitValue(c: char): nat
    requires LowerHex(c)
  {
    if '0' <= c <= '9' then c as nat - '0' as nat else c as nat - 'a' as nat + 10
  }

  /** Characters 2i and 2i + 1 are the two digits of this byte. */
  predicate SpellsAt(text: string, i: nat, byte: Byte)
    requires 2 * i + 1 < |text|
  {
    && LowerHex(text[2 * i]) && LowerHex(text[2 * i + 1])
    && DigitValue(text[2 * i]) * 16 + DigitValue(text[2 * i + 1]) == byte
  }

  predicate Spells(text: string, bytes: seq<Byte>) {
    |text| == 2 * |bytes| && forall i | 0 <= i < |bytes| :: SpellsAt(text, i, bytes[i])
  }

  lemma DigitsSpell(byte: Byte)
    ensures SpellsAt([HexDigit(byte / 16), HexDigit(byte % 16)], 0, byte)
  {}

  lemma {:induction false} HexSpells(bytes: seq<Byte>)
    ensures Spells(Hex(bytes), bytes)
  {
    if bytes != [] {
      var first, rest := [HexDigit(bytes[0] / 16), HexDigit(bytes[0] % 16)], Hex(bytes[1..]);
      HexSpells(bytes[1..]);
      DigitsSpell(bytes[0]);
      hide HexDigit, DigitValue, LowerHex;
      assert Hex(bytes) == first + rest;
      forall i | 0 <= i < |bytes|
        ensures SpellsAt(first + rest, i, bytes[i])
      {
        if i > 0 { SpellsLater(first, rest, i, bytes[i]); }
      }
    }
  }

  lemma SpellsLater(first: string, rest: string, i: nat, byte: Byte)
    requires |first| == 2 && 0 < i && 2 * i - 1 < |rest| && SpellsAt(rest, i - 1, byte)
    ensures SpellsAt(first + rest, i, byte)
  {
    assert (first + rest)[2 * i] == rest[2 * (i - 1)] && (first + rest)[2 * i + 1] == rest[2 * (i - 1) + 1];
  }

  /** When, exactly, a request ends in a result of the local model: it was not asked to avoid it,
      the model was ready and identified, had the same identity after generating, nobody cancelled
      and the result was saved; and that identity, digest by digest, is what is attached. */
  lemma LocalExactlyWhenIdentified(p: P.Preference, intent: Intent, env: Environment)
    ensures var outcome := Request(p, intent, env);
            (outcome.Ok? && outcome.value.engine == "local-llm") <==>
              && !intent.ExplicitHeuristic?
              && env.local.ReadyWith? && env.local.before.Ok? && env.local.generation == Generated(env.local.before)
              && !env.cancelledAtEnd && env.saved.Ok?
    ensures var outcome := Request(p, intent, env);
            outcome.Ok? && outcome.value.engine == "local-llm" ==>
              && env.local.ReadyWith? && env.local.before.Ok?
              && var identity, given := env.local.before.value, outcome.value;
                 && given.modelId == Some(identity.modelId)
                 && given.modelSha256.Some? && Spells(given.modelSha256.value, identity.model)
                 && given.runtimeSha256.Some? && Spells(given.runtimeSha256.value, identity.runtime)
                 && !given.fallbackUsed && given.fallbackReason.None? && given.generatedAt == env.now
    ensures var outcome := Request(p, intent, env);
            outcome.Ok? ==> outcome.value.engine == "local-llm" || outcome.value.engine == "heuristic"
  {
    hide Hex, AllowedFallbackReason, IsNonFallbackError, StableLocalAiCode;
    EnginesDiffer();
    if env.local.ReadyWith? && env.local.before.Ok? {
      HexSpells(env.local.before.value.model);
      HexSpells(env.local.before.value.runtime);
    }
  }

  /** A heuristic result names no model, and its reason is one of five distinct texts the
      consumer knows. */
  lemma HeuristicNamesNoModel(p: P.Preference, intent: Intent, env: Environment)
    requires IsHeuristic(Request(p, intent, env))
    ensures var given := Request(p, intent, env).value;
            && given.modelId.None? && given.modelSha256.None? && given.runtimeSha256.None? && given.fallbackUsed
            && given.fallbackReason.Some? && KnownReason(given.fallbackReason.value) && given.generatedAt == env.now
            && (intent.ExplicitHeuristic? ==> given.fallbackReason == Some("user-requested"))
  {
    hide Hex, AllowedFallbackReason, IsNonFallbackError, StableLocalAiCode;
    EnginesDiffer();
  }

  lemma ReasonsAreDistinct(a: Reason, b: Reason)
    ensures ReasonText(a) == ReasonText(b) <==> a == b
    ensures KnownReason(ReasonText(a))
  {
    assert |"llm-unavailable"| == |"resource-policy"| && "llm-unavailable"[0] != "resource-policy"[0];
    assert |"runtime-failed"| == |"user-requested"| && "runtime-failed"[0] != "user-requested"[0];
    assert |"model-corrupt"| == 13 && |"runtime-failed"| == 14 && |"llm-unavailable"| == 15;
  }

  lemma EnginesDiffer()
    ensures "heuristic" != "local-llm"
  {
    assert |"heuristic"| == |"local-llm"| && "heuristic"[0] != "local-llm"[0];
  }

  /** A disclosed fallback always carries the reason of the failure it covers. */
  lemma FallbackDisclosesItsReason(p: P.Preference, env: Environment)
    requires IsHeuristic(Request(p, DefaultIntent, env))
    ensures var reason := AllowedFallbackReason(LocalFailure(env.local).value);
            Request(p, DefaultIntent, env).value.fallbackReason == Some(ReasonText(reason.value))
    ensures LocalFailure(env.local).Some? && AllowedFallbackReason(LocalFailure(env.local).value).Some?
  {
    HeuristicExactlyWhenAuthorised(p, DefaultIntent, env);
    StableCodeKeepsReason(LocalFailure(env.local).value);
  }

  /** End to end, through any crash: after an interrupted update, a default request may fall back
      only if the previous preference or the new one was Automatic; and once an update to Never
      has reported success, nothing yields a heuristic result. */
  lemma UpdateNeverInventsPermission(before: P.Files<P.Preference>, stored: P.Preference,
                                     fates: P.Fates<P.Preference>, intent: Intent, env: Environment)
    ensures var (after, outcome) := P.WriteFiles(before, stored, fates);
            var effective := P.PreferenceOrSafeDefault(after);
            && (IsHeuristic(Request(effective, DefaultIntent, env)) ==>
                  P.PreferenceOrSafeDefault(before).Automatic? || stored.Automatic?)
            && (outcome.Written? && stored.Never? ==> !IsHeuristic(Request(effective, intent, env)))
  {
    P.FallbackStaysSafe(before, stored, fates);
    var effective := P.PreferenceOrSafeDefault(P.WriteFiles(before, stored, fates).0);
    HeuristicExactlyWhenAuthorised(effective, DefaultIntent, env);
    HeuristicExactlyWhenAuthorised(effective, intent, env);
  }

  // ---- The consumer's check ----

  predicate Alphanumeric(c: char) { 'A' <= c <= 'Z' || 'a' <= c <= 'z' || '0' <= c <= '9' }

  predicate IdCharacter(c: char) { Alphanumeric(c) || c == '.' || c == '_' || c == '-' }

  /** One alphanumeric character, then up to `more` identifier characters. */
  predicate MatchesId(s: string, more: nat) {
    1 <= |s| <= more + 1 && Alphanumeric(s[0]) && forall i :: 0 <= i < |s| ==> IdCharacter(s[i])
  }

  predicate LowerHex(c: char) { 'a' <= c <= 'f' || '0' <= c <= '9' }

  predicate MatchesSha256(s: string) { |s| == 64 && forall i :: 0 <= i < |s| ==> LowerHex(s[i]) }

  predicate KnownReason(s: string) {
    s == "llm-unavailable" || s == "runtime-failed" || s == "model-corrupt" || s == "resource-policy"
    || s == "user-requested"
  }

  /** canonicalAiProvenance. A formatted instant parses; "unknown" does not. */
  predicate Accepts(p: Provenance) {
    && (p.engine == "local-llm" || p.engine == "heuristic")
    && (p.modelId.Some? ==> MatchesId(p.modelId.value, 199))
    && (p.modelSha256.Some? ==> MatchesSha256(p.modelSha256.value))
    && (p.runtimeSha256.Some? ==> MatchesSha256(p.runtimeSha256.value))
    && (p.fallbackReason.Some? ==> KnownReason(p.fallbackReason.value))
    && MatchesId(p.promptVersion, 99)
    && p.generatedAt.Rfc3339? && |p.generatedAt.text| <= 64
    && (p.engine == "local-llm" ==>
          p.modelId.Some? && p.modelSha256.Some? && p.runtimeSha256.Some? && !p.fallbackUsed && p.fallbackReason.None?)
    && (p.engine == "heuristic" ==>
          p.modelId.None? && p.modelSha256.None? && p.runtimeSha256.None? && p.fallbackUsed && p.fallbackReason.Some?)
  }

  /** What the consumer can rely on: one of two engines, a model with two full digests for the one
      and a known reason for the other, and a dated prompt version. */
  lemma AcceptedNamesItsEngine(p: Provenance)
    requires Accepts(p)
    ensures p.engine == "local-llm" || p.engine == "heuristic"
    ensures p.engine == "local-llm" ==>
              && p.modelId.Some? && MatchesId(p.modelId.value, 199) && !p.fallbackUsed
              && p.modelSha256.Some? && MatchesSha256(p.modelSha256.value)
              && p.runtimeSha256.Some? && MatchesSha256(p.runtimeSha256.value) && p.fallbackReason.None?
    ensures p.engine == "heuristic" ==>
              && p.modelId.None? && p.modelSha256.None? && p.runtimeSha256.None?
              && p.fallbackUsed && p.fallbackReason.Some? && KnownReason(p.fallbackReason.value)
    ensures MatchesId(p.promptVersion, 99) && p.generatedAt.Rfc3339?
  {}

  lemma {:induction false} HexIsLowerCase(bytes: seq<Byte>)
    ensures |Hex(bytes)| == 2 * |bytes|
    ensures forall i :: 0 <= i < |Hex(bytes)| ==> LowerHex(Hex(bytes)[i])
  {
    if bytes != [] { HexIsLowerCase(bytes[1..]); }
  }

  /** Every provenance a job attaches is accepted exactly when the clock gave a time and, for the
      local engine, the model's id has the consumer's shape; the producer only asks that it is
      not blank. */
  lemma AcceptedExactlyWhenWellFormed(mode: Mode, policy: Policy, env: Environment)
    requires Job(mode, policy, env).Ok?
    ensures var p := Job(mode, policy, env).value;
            Accepts(p) <==>
              && env.now.Rfc3339? && |env.now.text| <= 64
              && (p.engine == "local-llm" ==> MatchesId(env.local.before.value.modelId, 199))
    ensures Job(mode, policy, env).value.engine == "local-llm" ==> env.local.ReadyWith? && env.local.before.Ok?
  {
    hide Hex, AllowedFallbackReason, IsNonFallbackError, StableLocalAiCode;
    EnginesDiffer();
    PromptVersionsMatch();
    var p := Job(mode, policy, env).value;
    if p.engine == "local-llm" {
      HexIsLowerCase(env.local.before.value.model);
      HexIsLowerCase(env.local.before.value.runtime);
    }
  }

  lemma PromptVersionsMatch()
    ensures MatchesId("candor-grounded-v1", 99) && MatchesId("candor-heuristic-v1", 99)
  {}

  /** The gap is real: a packaged model whose id has a blank inside generates and saves its
      result under every preference, and the consumer then refuses it. */
  lemma ModelIdWithBlankIsRefused(p: P.Preference, model: Digest, runtime: Digest, text: string)
    ensures var identity := Identity("my model", model, runtime);
            var env := Environment(ReadyWith(Ok(identity), Generated(Ok(identity))), Ok(()), false, false, false, Ok(()),
                                   Rfc3339(text));
            Request(p, DefaultIntent, env).Ok? && !Accepts(Request(p, DefaultIntent, env).value)
  {
    assert !IdCharacter("my model"[2]);
    assert !MatchesId("my model", 199);
  }
}
