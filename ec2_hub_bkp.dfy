/**
 * The earlier task hub (Docker/TaskHub/EC2HubBKP.py): a FastAPI service that
 * forwards every message to the targets named by numbered environment
 * variables. Modelled: its prime generator and the way it turns the SQS and
 * SNS variables into queue URLs and topic ARNs.
 */
module Ec2HubBkp {
  import opened Common
  import opened Primes
  import opened HubCommon

  /**
   * generate_primes(n): counts `num` up from 2 and keeps each number that
   * no i in 2..num-1 divides (the for/else), until n are kept.
   */
  method GeneratePrimes(n: int) returns (primes: seq<int>)
    ensures FirstPrimes(primes, n)
  {
    primes := [];
    var num := 2;
    ghost var bound := 2;
    while |primes| < n
      invariant num >= 2
      invariant |primes| <= (if n < 0 then 0 else n)
      invariant forall k :: 0 <= k < |primes| ==> Prime(primes[k]) && primes[k] < num
      invariant forall j, k :: 0 <= j < k < |primes| ==> primes[j] < primes[k]
      invariant forall p :: 0 <= p < num && Prime(p) ==> p in primes
      invariant Prime(bound) && num <= bound
      decreases n - |primes|, bound - num
    {
      var i := 2;
      var divisible := false;
      while i < num
        invariant 2 <= i <= num
        invariant forall d :: 2 <= d < i ==> num % d != 0
        invariant !divisible
      {
        if num % i == 0 {
          divisible := true;
          break;
        }
        i := i + 1;
      }
      if !divisible {
        primes := primes + [num];
        bound := PrimeAtLeast(num + 1);
      }
      num := num + 1;
    }
  }

  /** `int(os.environ.get('Primes', 0))`; None is the ValueError raised at import. */
  function PrimesCount(env: Env): (r: Option<int>)
    ensures "Primes" !in env ==> r == Some(0)
    ensures "Primes" in env ==> r == ParseInt(env["Primes"])
  {
    if "Primes" in env then ParseInt(env["Primes"]) else Some(0)
  }

  /** SQSSourceClients: the queues `aws_sqs_queue_Source_*`, polled for incoming messages. */
  method SqsSources(env: Env) returns (targets: seq<Target>)
    ensures forall j :: 0 <= j < |targets| ==>
      targets[j].address == SqsUrl(Getenv(env, IndexedName("aws_sqs_queue_Source_Region_", j)),
        Getenv(env, IndexedName("aws_sqs_queue_Source_Account_", j)), targets[j].name)
    ensures forall j :: 0 <= j < |targets| ==> Getenv(env, IndexedName("aws_sqs_queue_Source_Name_", j)) == Some(targets[j].name)
    ensures IndexedName("aws_sqs_queue_Source_Name_", |targets|) !in env
  {
    targets := ScanTargets(env, "aws_sqs_queue_Source_Name_", "aws_sqs_queue_Source_Region_", "aws_sqs_queue_Source_Account_", false);
  }
}
