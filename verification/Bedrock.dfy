/**
 * The inference seam (src/llm.ts): which client a tenant gets, and the signed Bedrock call with its retries.
 */
module Bedrock {
  import opened Options

  // ── Which client ────────────────────────────────────────────────────────────────────────────────────

  const BASE_MODEL := "anthropic.claude-haiku-4-5-20251001-v1:0"
  const ANTHROPIC_HAIKU := "claude-haiku-4-5-20251001"

  /** A jurisdiction's residency rules; the list of regions is never empty. */
  datatype Residency = Residency(regions: seq<string>, profilePrefix: string)

  predicate Valid(d: Residency) { d.regions != [] }

  datatype Profile = Profile(provider: Option<string>, region: Option<string>, tainted: bool)

  datatype Env = Env(provider: Option<string>, region: Option<string>, credentials: Option<string>, stub: bool)

  datatype Error = ForeignProvider | ForeignRegion | ForeignModel | NoCredentials | RefusesToSign | UnknownProvider

  datatype Client = Stub | Anthropic(model: string) | BedrockClient(region: string, credentials: string, model: string) | Refused(error: Error)

  function ResolveProvider(e: Env, p: Option<Profile>): string {
    match p
    case Some(q) => q.provider.GetOr(e.provider.GetOr("anthropic"))
    case None => e.provider.GetOr("anthropic")
  }

  function ResolveRegion(e: Env, p: Option<Profile>, d: Residency): string
    requires Valid(d)
  {
    match p
    case Some(q) => q.region.GetOr(e.region.GetOr(d.regions[0]))
    case None => e.region.GetOr(d.regions[0])
  }

  function ModelId(d: Residency): string { d.profilePrefix + BASE_MODEL }

  predicate StartsWith(s: string, prefix: string) { prefix <= s }

  function AssertResidency(e: Env, p: Option<Profile>, d: Residency): Option<Error>
    requires Valid(d)
  {
    if ResolveProvider(e, p) != "bedrock" then Some(ForeignProvider)
    else if ResolveRegion(e, p, d) !in d.regions then Some(ForeignRegion)
    else if !StartsWith(ModelId(d), d.profilePrefix) then Some(ForeignModel)
    else None
  }

  predicate Tainted(p: Option<Profile>) { p.Some? && p.value.tainted }

  function GetLlm(e: Env, p: Option<Profile>, d: Residency): Client
    requires Valid(d)
  {
    if e.stub then Stub else
    var residency := AssertResidency(e, p, d);
    if Tainted(p) && residency.Some? then Refused(residency.value) else
    var provider := ResolveProvider(e, p);
    if provider == "anthropic" then Anthropic(ANTHROPIC_HAIKU)
    else if provider != "bedrock" then Refused(UnknownProvider)
    else if e.credentials == None then Refused(NoCredentials)
    else if ResolveRegion(e, p, d) !in d.regions then Refused(RefusesToSign)
    else BedrockClient(ResolveRegion(e, p, d), e.credentials.value, ModelId(d))
  }

  /** Every real client is either the default API for a tenant that holds no bank-feed data, or Bedrock signed for a region
      of the tenant's own jurisdiction, on that jurisdiction's inference profile. */
  lemma {:induction false} SeamIsSafe(e: Env, p: Option<Profile>, d: Residency)
    requires Valid(d)
    ensures match GetLlm(e, p, d)
      case Stub => e.stub
      case Anthropic(_) => !Tainted(p)
      case BedrockClient(region, _, model) => region in d.regions && region == ResolveRegion(e, p, d) && StartsWith(model, d.profilePrefix)
      case Refused(_) => true
  {
    assert ModelId(d)[..|d.profilePrefix|] == d.profilePrefix;
  }

  /** A tenant holding bank-feed data is served exactly when Bedrock is configured for a region of its jurisdiction, and
      that is the region signed: nothing falls back. */
  lemma {:induction false} TaintedServedIff(e: Env, p: Option<Profile>, d: Residency)
    requires Valid(d) && Tainted(p) && !e.stub
    ensures !GetLlm(e, p, d).Refused?
       <==> ResolveProvider(e, p) == "bedrock" && ResolveRegion(e, p, d) in d.regions && e.credentials.Some?
    ensures !GetLlm(e, p, d).Refused? ==> GetLlm(e, p, d).BedrockClient?
  {
    ModelCheckIsVacuous(e, p, d);
  }

  /** The third check can never fail: the model id it tests is built from the prefix it is tested against. */
  lemma {:induction false} ModelCheckIsVacuous(e: Env, p: Option<Profile>, d: Residency)
    requires Valid(d)
    ensures AssertResidency(e, p, d) != Some(ForeignModel)
  {
    assert ModelId(d)[..|d.profilePrefix|] == d.profilePrefix;
  }

  /** Where a setting comes from: the tenant's profile, else the environment, else the default. */
  function Chosen(profile: Option<string>, env: Option<string>, default: string): string {
    match (profile, env)
    case (Some(x), _) => x
    case (None, Some(y)) => y
    case (None, None) => default
  }

  /** Which client a tenant gets, case by case: the stub whenever it is asked for; the default API only for a tenant without
      bank-feed data whose provider it is; Bedrock with the credentials on file, in the region chosen, which is one of the
      jurisdiction's, on its profile's model; and otherwise none. */
  lemma {:induction false} SeamIff(e: Env, p: Option<Profile>, d: Residency)
    requires Valid(d)
    ensures var provider := Chosen(if p.Some? then p.value.provider else None, e.provider, "anthropic");
      var region := Chosen(if p.Some? then p.value.region else None, e.region, d.regions[0]);
      var held := p.Some? && p.value.tainted;
      && (GetLlm(e, p, d) == Stub <==> e.stub)
      && (forall model :: GetLlm(e, p, d) == Anthropic(model) <==>
            !e.stub && provider == "anthropic" && !held && model == "claude-haiku-4-5-20251001")
      && (forall r, c, model :: GetLlm(e, p, d) == BedrockClient(r, c, model) <==>
            !e.stub && provider == "bedrock" && r == region && region in d.regions && e.credentials == Some(c)
            && model == d.profilePrefix + "anthropic.claude-haiku-4-5-20251001-v1:0")
  {
    ModelCheckIsVacuous(e, p, d);
    assert ResolveProvider(e, p) == Chosen(if p.Some? then p.value.provider else None, e.provider, "anthropic");
    assert ResolveRegion(e, p, d) == Chosen(if p.Some? then p.value.region else None, e.region, d.regions[0]);
  }

  /** Why a tenant holding bank-feed data is turned away. */
  lemma {:induction false} TaintedRefusal(e: Env, p: Option<Profile>, d: Residency)
    requires Valid(d) && p.Some? && p.value.tainted && !e.stub && GetLlm(e, p, d).Refused?
    ensures var provider := Chosen(p.value.provider, e.provider, "anthropic"); var region := Chosen(p.value.region, e.region, d.regions[0]);
      GetLlm(e, p, d).error == if provider != "bedrock" then ForeignProvider else if region !in d.regions then ForeignRegion else NoCredentials
  {
    ModelCheckIsVacuous(e, p, d);
    assert ResolveProvider(e, p) == Chosen(p.value.provider, e.provider, "anthropic");
    assert ResolveRegion(e, p, d) == Chosen(p.value.region, e.region, d.regions[0]);
  }

  // ── The signed call ─────────────────────────────────────────────────────────────────────────────────

  /** What one fetch comes back with. */
  datatype Reply = Response(status: int) | TimedOut | Broken(error: string)

  datatype Outcome = Ok(attempt: nat) | Timeout | NetworkError(error: string) | HttpError(status: int)

  predicate IsOk(r: Reply) { r.Response? && 200 <= r.status <= 299 }

  predicate Retryable(r: Reply) { r.Response? && r.status in {429, 500, 502, 503, 504} }

  /** One signed request: where it goes, and the request time in its signature. */
  datatype Signed<T> = Signed(target: T, stamp: nat)

  /** The world a call runs in: the reply to each attempt and the jitter of each back-off. */
  datatype World = World(reply: nat -> Reply, jitter: nat -> nat)

  function Power(n: nat): nat { if n == 0 then 1 else 2 * Power(n - 1) }

  function Backoff(w: World, attempt: nat): nat { 250 * Power(attempt) + w.jitter(attempt) % 250 }

  /** The time slept before attempt n. */
  function Slept(w: World, n: nat): nat { if n == 0 then 0 else Slept(w, n - 1) + Backoff(w, n - 1) }

  function Retries(m: int): nat { if m < 0 then 0 else m }

  /** Attempt k is the last: every earlier one failed in a way worth retrying, and k did not or was the last allowed. */
  predicate Last(w: World, m: int, k: nat) {
    && k <= Retries(m)
    && (forall i: nat | i < k :: Retryable(w.reply(i)))
    && (k == Retries(m) || !Retryable(w.reply(k)))
  }

  function Verdict(r: Reply, attempt: nat): Outcome {
    if IsOk(r) then Ok(attempt)
    else match r
         case Response(status) => HttpError(status)
         case TimedOut => Timeout
         case Broken(e) => NetworkError(e)
  }

  /** Of n requests, every one but the last came back too busy or with a server error that may pass; the last is answered as it
      came back, and was not of that kind unless no retry was left. */
  predicate Answers(w: World, m: int, n: nat, out: Outcome) {
    && n >= 1 && (forall i: nat | i < n - 1 :: Passing(w.reply(i)))
    && (Passing(w.reply(n - 1)) ==> n - 1 >= m)
    && match w.reply(n - 1)
       case TimedOut => out == Timeout
       case Broken(e) => out == NetworkError(e)
       case Response(status) => out == if 199 < status < 300 then Ok(n - 1) else HttpError(status)
  }

  predicate Passing(r: Reply) {
    match r
    case Response(status) => status == 429 || status == 500 || (502 <= status && status <= 504)
    case _ => false
  }

  /** The retry loop: sign, fetch, and either answer, back off or fail. `sent` is the trace of requests and `slept` the
      milliseconds waited between them. */
  method Invoke<T>(target: T, w: World, maxRetries: int) returns (out: Outcome, sent: seq<Signed<T>>, slept: nat)
    ensures |sent| >= 1 && Last(w, maxRetries, |sent| - 1) && out == Verdict(w.reply(|sent| - 1), |sent| - 1)
    ensures forall i | 0 <= i < |sent| :: sent[i] == Signed(target, i)
    ensures slept == Slept(w, |sent| - 1)
    ensures Answers(w, maxRetries, |sent|, out)
  {
    var attempt := 0;
    sent, slept := [], 0;
    while true
      invariant |sent| == attempt && attempt <= Retries(maxRetries) && slept == Slept(w, attempt)
      invariant forall i | 0 <= i < |sent| :: sent[i] == Signed(target, i)
      invariant forall i: nat | i < attempt :: Retryable(w.reply(i))
      decreases Retries(maxRetries) - attempt
    {
      var signed := Signed(target, attempt);
      sent := sent + [signed];
      var res := w.reply(attempt);
      match res {
        case TimedOut => return Timeout, sent, slept;
        case Broken(e) => return NetworkError(e), sent, slept;
        case Response(status) =>
          if IsOk(res) { return Ok(attempt), sent, slept; }
          if attempt < maxRetries && Retryable(res) {
            slept := slept + Backoff(w, attempt);
            attempt := attempt + 1;
            continue;
          }
          return HttpError(status), sent, slept;
      }
    }
  }

  /** The last attempt is determined, so the outcome is that of the first reply not worth retrying, or of the last
      allowed one; an ok reply ends the call, a timeout is never retried. */
  lemma {:induction false} LastIsUnique(w: World, m: int, j: nat, k: nat)
    requires Last(w, m, j) && Last(w, m, k)
    ensures j == k
    ensures forall i: nat | i < k :: !IsOk(w.reply(i)) && w.reply(i).Response?
    ensures k <= if m < 0 then 0 else m
  {
    assert j < k ==> Retryable(w.reply(j));
    assert k < j ==> Retryable(w.reply(k));
  }

  lemma {:induction false} SleepBound(w: World, n: nat)
    ensures 250 * (Power(n) - 1) <= Slept(w, n) <= 250 * (Power(n) - 1) + 249 * n
  {
    if n > 0 { SleepBound(w, n - 1); }
  }

  lemma {:induction false} PowerGrows(m: nat, n: nat)
    requires m <= n
    ensures Power(m) <= Power(n)
    decreases n
  {
    if m < n { PowerGrows(m, n - 1); }
  }

  /** However the attempts end, the call sleeps at most 250(2^m - 1) + 249m milliseconds. */
  lemma {:induction false} TotalSleep(w: World, m: int, k: nat)
    requires Last(w, m, k)
    ensures Slept(w, k) <= 250 * (Power(Retries(m)) - 1) + 249 * Retries(m)
    ensures m <= 0 ==> Slept(w, k) == 0
  {
    SleepBound(w, k);
    PowerGrows(k, Retries(m));
  }

  datatype Target = Target(region: string, model: string)

  /** A tenant's call: whatever client it gets, every request of a Bedrock call goes to the one region and model that were
      checked. */
  method Create(e: Env, p: Option<Profile>, d: Residency, w: World) returns (out: Option<Outcome>, sent: seq<Signed<Target>>)
    requires Valid(d)
    ensures forall s | s in sent :: s.target.region in d.regions && StartsWith(s.target.model, d.profilePrefix)
    ensures |sent| <= 3 && (sent != [] <==> GetLlm(e, p, d).BedrockClient?)
    ensures out.Some? <==> sent != []
    ensures out.Some? ==> Answers(w, 2, |sent|, out.value)
    ensures sent != [] ==> GetLlm(e, p, d).BedrockClient?
    ensures forall i | 0 <= i < |sent| :: sent[i] == Signed(Target(GetLlm(e, p, d).region, GetLlm(e, p, d).model), i)
  {
    SeamIsSafe(e, p, d);
    sent := [];
    match GetLlm(e, p, d) {
      case BedrockClient(region, _, model) =>
        var o;
        var slept;
        o, sent, slept := Invoke(Target(region, model), w, 2);
        out := Some(o);
      case Anthropic(_) => out := None;
      case Stub => out := None;
      case Refused(_) => out := None;
    }
  }
}
