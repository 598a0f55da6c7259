/**
 * The TaskHub service (Docker/TaskHub/EC2Hub.py): a FastAPI service on an EC2
 * instance that registers itself in Cloud Map, keeps a custom health status
 * up to date, and forwards messages to its configured targets. Modelled: the
 * prime generator behind its load endpoint, the Cloud Map registration
 * bookkeeping and health-update retry schedule, the health-check switch and
 * the database targets with their credentials.
 */
module Ec2Hub {
  import opened Common
  import opened Primes
  import opened HubCommon

  // ---------------------------------------------------------------------
  // generate_primes(floor, ceil)

  lemma AtMostSquare(x: nat)
    ensures x <= x * x || x == 0
  {
    if x >= 1 {
      assert x * x >= x * 1;
    }
  }

  lemma MulMono(a: nat, b: nat, c: nat, d: nat)
    requires a <= c && b <= d
    ensures a * b <= c * d
  {
    assert a * b <= c * b;
    assert c * b <= c * d;
  }

  /** The largest r with r * r <= n, searched upward from `r`. */
  function SqrtFrom(n: nat, r: nat): (s: nat)
    requires r * r <= n
    ensures s * s <= n < (s + 1) * (s + 1)
    decreases n - r
  {
    AtMostSquare(r + 1);
    if (r + 1) * (r + 1) > n then r else SqrtFrom(n, r + 1)
  }

  /** `int(num ** 0.5)`, taken as the exact integer square root. */
  function ISqrt(n: nat): (r: nat)
    ensures r * r <= n < (r + 1) * (r + 1)
  {
    SqrtFrom(n, 0)
  }

  /** No i in lo..hi divides num: the `for i in range(...)` of is_prime. */
  function NoDivisorIn(num: int, lo: int, hi: int): (b: bool)
    requires lo >= 2
    ensures b <==> forall d :: lo <= d <= hi ==> num % d != 0
    decreases hi - lo
  {
    if lo > hi then true
    else if num % lo == 0 then false
    else NoDivisorIn(num, lo + 1, hi)
  }

  /** is_prime: false below 2, otherwise no divisor in 2..int(num ** 0.5). */
  function IsPrime(num: int): (b: bool)
    ensures num < 2 ==> !b
    ensures num >= 2 ==> (b <==> forall d :: 2 <= d <= ISqrt(num) ==> num % d != 0)
  {
    num >= 2 && NoDivisorIn(num, 2, ISqrt(num))
  }

  /** A divisor above the square root has a cofactor at or below it. */
  lemma SmallCofactor(num: int, d: int, r: nat)
    requires 2 <= d < num && num % d == 0
    requires r * r <= num < (r + 1) * (r + 1) && r < d
    ensures 2 <= num / d <= r && num % (num / d) == 0
  {
    Quotient(num, d);
    var e := num / d;
    assert num == e * d;
    assert e <= 1 ==> e * d <= d;
    assert e >= 2;
    assert e >= r + 1 ==> (r + 1) * (r + 1) <= e * d by {
      if e >= r + 1 { MulMono(r + 1, r + 1, e, d); }
    }
    MultipleMod(d, e);
    assert d * e == num;
  }

  /** Trial division up to the square root decides primality. */
  lemma IsPrimeCorrect(num: int)
    ensures IsPrime(num) <==> Prime(num)
  {
    if num >= 2 {
      var r := ISqrt(num);
      AtMostSquare(r);
      forall d | 2 <= d < num && IsPrime(num)
        ensures num % d != 0
      {
        if r < d && num % d == 0 {
          SmallCofactor(num, d, r);
        }
      }
    }
  }

  /** `if ceil < floor: ceil = floor`, so the range randint draws from is never empty. */
  function RaisedCeil(floor: int, ceil: int): (c: int)
    ensures c >= floor
    ensures ceil >= floor ==> c == ceil
    ensures ceil < floor ==> c == floor
  {
    if ceil < floor then floor else ceil
  }

  /**
   * generate_primes: `n` is the number random.randint drew from
   * [floor, RaisedCeil(floor, ceil)]; the numbers from 2 up are checked with
   * is_prime until n primes are kept, and the text reports how many.
   */
  method GeneratePrimes(floor: int, ceil: int, n: int) returns (primes: seq<int>, text: string)
    requires floor <= n <= RaisedCeil(floor, ceil)
    ensures FirstPrimes(primes, n)
    ensures text == " Primes Generated: " + NatToString(if n < 0 then 0 else n)
  {
    primes := [];
    var num := 2;
    ghost var bound := 2;
    while |primes| < n
      invariant num >= 2
      invariant |primes| <= (if n < 0 then 0 else n)
      invariant forall k :: 0 <= k < |primes| ==> Prime(primes[k]) && primes[k] < num
      invariant forall j, k :: 0 <= j < k < |primes| ==> primes[j] < primes[k]
      invariant forall p :: 0 <= p < num && Prime(p) ==> p in primes
      invariant Prime(bound) && num <= bound
      decreases n - |primes|, bound - num
    {
      IsPrimeCorrect(num);
      if IsPrime(num) {
        primes := primes + [num];
        bound := PrimeAtLeast(num + 1);
      }
      num := num + 1;
    }
    text := " Primes Generated: " + NatToString(|primes|);
  }

  // ---------------------------------------------------------------------
  // Cloud Map registration

  const RegistrationSlots := 10

  /** `AWS_SERVICE_DISCOVERY_SERVICE_TARGET_ARN_REG_{i}`. */
  function ServiceArnVar(i: nat): string {
    IndexedName("AWS_SERVICE_DISCOVERY_SERVICE_TARGET_ARN_REG_", i)
  }

  /** `service_arn.split('/')[-1]`: the text after the last `/`, or the whole ARN without one. */
  function ServiceId(arn: string): (id: string)
    ensures !Contains(id, "/")
    ensures !Contains(arn, "/") ==> id == arn
    ensures Contains(arn, "/") ==> EndsWith(arn, "/" + id)
  {
    LastPartAfterSeparator(arn, "/");
    LastPart(arn, "/")
  }

  datatype Registration = Registration(serviceId: string, instanceId: string)

  /** Slot i is tried when its ARN variable is set and not empty. */
  predicate Tried(env: Env, i: nat) {
    ServiceArnVar(i) in env && env[ServiceArnVar(i)] != ""
  }

  /** What slot i records: the service id and `{InstanceName}-{uuid}`. */
  function RegistrationAt(env: Env, instanceName: string, uuid: nat -> string, i: nat): (reg: Registration)
    requires Tried(env, i)
    ensures reg.serviceId == ServiceId(env[ServiceArnVar(i)])
    ensures StartsWith(reg.instanceId, instanceName + "-")
  {
    var prefix := instanceName + "-";
    assert (prefix + uuid(i))[..|prefix|] == prefix;
    Registration(ServiceId(env[ServiceArnVar(i)]), prefix + uuid(i))
  }

  /**
   * The registrations slots 0..k-1 record, in slot order: a tried slot whose
   * register_instance call did not raise (is not in `failed`).
   */
  function Registered(env: Env, instanceName: string, uuid: nat -> string, failed: set<nat>, k: nat): seq<Registration> {
    if k == 0 then []
    else Registered(env, instanceName, uuid, failed, k - 1) + SlotRecord(env, instanceName, uuid, failed, k - 1)
  }

  /** What slot i contributes: its registration when tried and not failed, else nothing. */
  function SlotRecord(env: Env, instanceName: string, uuid: nat -> string, failed: set<nat>, i: nat): (rs: seq<Registration>)
    ensures |rs| <= 1
    ensures forall reg :: reg in rs <==> Tried(env, i) && i !in failed && reg == RegistrationAt(env, instanceName, uuid, i)
  {
    if Tried(env, i) && i !in failed then [RegistrationAt(env, instanceName, uuid, i)] else []
  }

  /** Slot i succeeded and recorded `reg`. */
  predicate RecordedAt(env: Env, instanceName: string, uuid: nat -> string, failed: set<nat>, i: nat, reg: Registration) {
    Tried(env, i) && i !in failed && reg == RegistrationAt(env, instanceName, uuid, i)
  }

  /** A registration is recorded exactly when some tried slot below k succeeded with it. */
  lemma {:induction false} RegisteredExactly(env: Env, instanceName: string, uuid: nat -> string, failed: set<nat>, k: nat, reg: Registration)
    ensures reg in Registered(env, instanceName, uuid, failed, k) <==>
      exists i :: 0 <= i < k && RecordedAt(env, instanceName, uuid, failed, i, reg)
  {
    if k > 0 {
      RegisteredExactly(env, instanceName, uuid, failed, k - 1, reg);
      var prev := Registered(env, instanceName, uuid, failed, k - 1);
      var last := SlotRecord(env, instanceName, uuid, failed, k - 1);
      assert Registered(env, instanceName, uuid, failed, k) == prev + last;
      if reg in prev + last {
        if reg !in prev {
          assert RecordedAt(env, instanceName, uuid, failed, k - 1, reg);
        }
      }
      if exists i :: 0 <= i < k && RecordedAt(env, instanceName, uuid, failed, i, reg) {
        var i :| 0 <= i < k && RecordedAt(env, instanceName, uuid, failed, i, reg);
        if i == k - 1 {
          assert reg in last;
        }
      }
    }
  }

  /** At most one registration per slot. */
  lemma {:induction false} RegisteredBound(env: Env, instanceName: string, uuid: nat -> string, failed: set<nat>, k: nat)
    ensures |Registered(env, instanceName, uuid, failed, k)| <= k
  {
    if k > 0 {
      RegisteredBound(env, instanceName, uuid, failed, k - 1);
    }
  }

  /** `CLOUD_MAP_REGISTRATIONS` and whether the health task was started. */
  class CloudMap {
    var registrations: seq<Registration>
    var healthTask: bool

    constructor()
      ensures registrations == [] && !healthTask
    {
      registrations := [];
      healthTask := false;
    }

    /**
     * register_instance_in_cloud_map: slots 0..9; unset or empty ARNs are
     * skipped and a failed call is only logged.
     */
    method Register(env: Env, instanceName: string, uuid: nat -> string, failed: set<nat>)
      modifies this`registrations
      ensures registrations == old(registrations) + Registered(env, instanceName, uuid, failed, RegistrationSlots)
    {
      var i := 0;
      while i < RegistrationSlots
        invariant 0 <= i <= RegistrationSlots
        invariant registrations == old(registrations) + Registered(env, instanceName, uuid, failed, i)
      {
        if Tried(env, i) && i !in failed {
          registrations := registrations + [RegistrationAt(env, instanceName, uuid, i)];
        }
        assert registrations == old(registrations) + Registered(env, instanceName, uuid, failed, i)
          + SlotRecord(env, instanceName, uuid, failed, i);
        i := i + 1;
      }
    }

    /**
     * The startup half of lifespan: with both the instance id and its address
     * known, register, then start the health task when something was
     * registered and the custom health check is on.
     */
    method Startup(env: Env, instanceId: string, ipv4: string, instanceName: string, uuid: nat -> string, failed: set<nat>)
      modifies this
      ensures instanceId == "" || ipv4 == "" ==> registrations == old(registrations) && healthTask == old(healthTask)
      ensures instanceId != "" && ipv4 != "" ==>
        registrations == old(registrations) + Registered(env, instanceName, uuid, failed, RegistrationSlots)
      ensures instanceId != "" && ipv4 != "" ==>
        healthTask == (if registrations != [] && HealthCheckEnabled(env) then true else old(healthTask))
    {
      if instanceId != "" && ipv4 != "" {
        Register(env, instanceName, uuid, failed);
        if registrations != [] && HealthCheckEnabled(env) {
          healthTask := true;
        }
      }
    }

    /** deregister_instance_from_cloud_map: one call per recorded registration, in order; the list is kept. */
    method Deregister() returns (calls: seq<Registration>)
      ensures calls == registrations
    {
      calls := [];
      var j := 0;
      while j < |registrations|
        invariant 0 <= j <= |registrations|
        invariant calls == registrations[..j]
      {
        calls := calls + [registrations[j]];
        j := j + 1;
      }
    }
  }

  /** `os.getenv('CLOUDMAP_CUSTOM_HEALTHCHECK', 'false').lower() == 'true'`. */
  function HealthCheckEnabled(env: Env): (b: bool)
    ensures "CLOUDMAP_CUSTOM_HEALTHCHECK" !in env ==> !b
    ensures "CLOUDMAP_CUSTOM_HEALTHCHECK" in env ==> (b <==> Lower(env["CLOUDMAP_CUSTOM_HEALTHCHECK"]) == "true")
  {
    var v := if "CLOUDMAP_CUSTOM_HEALTHCHECK" in env then env["CLOUDMAP_CUSTOM_HEALTHCHECK"] else "false";
    assert Lower("false") == "false";
    Lower(v) == "true"
  }

  /** The switch ignores case: two spellings equal up to case enable it alike. */
  lemma HealthCheckIgnoresCase(env: Env, v: string, w: string)
    requires Lower(v) == Lower(w)
    ensures HealthCheckEnabled(env["CLOUDMAP_CUSTOM_HEALTHCHECK" := v]) == HealthCheckEnabled(env["CLOUDMAP_CUSTOM_HEALTHCHECK" := w])
  {
  }

  // ---------------------------------------------------------------------
  // The custom health update with retries

  /** What one update_instance_custom_health_status call did. */
  datatype Outcome = Updated | NotFound | OtherError

  const MaxRetries := 5

  /** The retry delays: 3 seconds, doubled after every wait. */
  const Delays: seq<nat> := [3, 6, 12, 24]

  /** The reference: attempts from k on end in an update before the retries run out. */
  function SucceedsFrom(outcome: nat -> Outcome, k: nat): bool
    decreases MaxRetries - k
  {
    if k >= MaxRetries then false
    else if outcome(k) == Updated then true
    else if outcome(k) == NotFound then SucceedsFrom(outcome, k + 1)
    else false
  }

  /**
   * One registration's update: attempt k's outcome is `outcome(k)`. A
   * ServiceNotFound or InstanceNotFound (`NotFound`) is waited out, with a
   * doubling delay, on the first four attempts and re-raised on the fifth;
   * any other error is re-raised at once. `waits` are the sleeps taken; the
   * attempts made are one more than the waits.
   */
  method UpdateHealth(outcome: nat -> Outcome) returns (waits: seq<nat>, succeeded: bool)
    ensures |waits| < MaxRetries && waits == Delays[..|waits|]
    ensures forall k :: 0 <= k < |waits| ==> outcome(k) == NotFound
    ensures succeeded <==> outcome(|waits|) == Updated
    ensures outcome(|waits|) == NotFound ==> |waits| == MaxRetries - 1
    ensures succeeded <==> SucceedsFrom(outcome, 0)
  {
    waits := [];
    var delay := 3;
    var attempt := 0;
    while true
      invariant 0 <= attempt < MaxRetries && |waits| == attempt
      invariant waits == Delays[..attempt]
      invariant delay == 3 * Pow2(attempt)
      invariant forall k :: 0 <= k < attempt ==> outcome(k) == NotFound
      invariant SucceedsFrom(outcome, 0) == SucceedsFrom(outcome, attempt)
      decreases MaxRetries - attempt
    {
      var o := outcome(attempt);
      if o == Updated {
        return waits, true;
      }
      if o == OtherError || attempt == MaxRetries - 1 {
        return waits, false;
      }
      DelayStep(attempt);
      waits := waits + [delay];
      delay := delay * 2;
      attempt := attempt + 1;
    }
  }

  function Pow2(k: nat): nat {
    if k == 0 then 1 else 2 * Pow2(k - 1)
  }

  lemma DelayStep(k: nat)
    requires k < |Delays|
    ensures Delays[..k + 1] == Delays[..k] + [3 * Pow2(k)]
  {
    assert Pow2(1) == 2 && Pow2(2) == 4 && Pow2(3) == 8;
  }

  /**
   * One pass of update_custom_health_status_task's loop over the
   * registrations: `outcomes[r]` drives registration r. The first
   * registration whose update fails raises out of the pass; either way the
   * task then sleeps 20 seconds.
   */
  method HealthPass(outcomes: seq<nat -> Outcome>) returns (updated: nat, pause: nat)
    ensures updated <= |outcomes|
    ensures forall r :: 0 <= r < updated ==> SucceedsFrom(outcomes[r], 0)
    ensures updated < |outcomes| ==> !SucceedsFrom(outcomes[updated], 0)
    ensures pause == 20
  {
    updated := 0;
    while updated < |outcomes|
      invariant updated <= |outcomes|
      invariant forall r :: 0 <= r < updated ==> SucceedsFrom(outcomes[r], 0)
    {
      var waits, ok := UpdateHealth(outcomes[updated]);
      if !ok {
        break;
      }
      updated := updated + 1;
    }
    pause := 20;
  }

  // ---------------------------------------------------------------------
  // Database targets

  /**
   * One index of the RDS loop: `EndPoint.split(":")[0]` (a missing endpoint
   * raises, here Err) and the credentials of the first secret whose name
   * contains the database name, else `default_user`/`default_pass`.
   */
  method DatabaseAt(name: string, endpoint: Option<string>, secrets: seq<Secret>) returns (r: Result<Database>)
    ensures endpoint.None? <==> r.Err?
    ensures r.Ok? ==> r.value.name == name && r.value.host == HostOf(endpoint.value)
    ensures r.Ok? && FirstContaining(name, secrets).Some? ==>
      var s := secrets[FirstContaining(name, secrets).value];
      r.value.username == s.username && r.value.password == s.password
    ensures r.Ok? && FirstContaining(name, secrets).None? ==>
      r.value.username == "default_user" && r.value.password == "default_pass"
  {
    if endpoint.None? {
      return Err("'NoneType' object has no attribute 'split'");
    }
    var username, password := SelectCredentials(name, secrets, false, ("default_user", "default_pass"));
    r := Ok(Database(name, HostOf(endpoint.value), username, password));
  }
}
