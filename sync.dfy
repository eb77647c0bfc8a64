/**
 * The sync wait: start the provisioning job, wait out a fixed budget in fixed
 * steps without looking at the job, then read its status once.
 */
module Sync {
  import opened Graph

  /** The total wait, in milliseconds. */
  const Timeout: int := 60000
  /** The length of one wait step, in milliseconds. */
  const SleepInterval: int := 5000

  /** `n` wait steps. */
  function Sleeps(n: nat): (waits: seq<Event>)
    ensures |waits| == n
  {
    seq(n, _ => Event.Sleep(SleepInterval))
  }

  /**
   * Starts the job, sleeps twelve steps of 5000 ms (the whole 60000 ms budget)
   * and only then asks for the job's status, which it returns.
   */
  method RunSync(client: GraphClient, syncJob: string) returns (code: string)
    modifies client`trace
    ensures client.trace == old(client.trace) + [Event.StartSyncJob(syncJob)] + Sleeps(12) + [GetSyncJobStatus(syncJob)]
    ensures code == client.syncStatus
  {
    var sleepTime := 0;
    client.StartSyncJob(syncJob);
    ghost var started := client.trace;
    while sleepTime < Timeout
      invariant 0 <= sleepTime <= Timeout && sleepTime % SleepInterval == 0
      invariant client.trace == started + Sleeps(sleepTime / SleepInterval)
    {
      sleepTime := sleepTime + SleepInterval;
      client.Sleep(SleepInterval);
      assert Sleeps(sleepTime / SleepInterval) == Sleeps(sleepTime / SleepInterval - 1) + [Event.Sleep(SleepInterval)];
      if sleepTime >= Timeout {
        break;
      }
    }
    assert sleepTime == Timeout;
    code := client.GetSyncJobStatusCode(syncJob);
  }
}
