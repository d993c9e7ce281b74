/** The supervisor inside a worker process: runs the adapter's session again and again until it ends well, is stopped,
    or has failed too often. */
module WorkerSupervisor {
  import opened Wrappers

  /** One round of the loop, as the environment decides it: how the session ended, and whether `stop` was called during
      it or during the backoff after it. */
  datatype Attempt = Attempt(thrown: Option<string>, exitCode: int, signal: string, stopDuring: bool,
                             stopInBackoff: bool)

  datatype Ending = Stopped | Clean | Dead(attempts: nat, lastError: string)

  predicate IsClean(a: Attempt) {
    a.thrown.None? && a.exitCode == 0 && a.signal == ""
  }

  /** The attempt fails and nobody stops the supervisor, so that another attempt follows if one is left. */
  predicate FailsUnstopped(a: Attempt) {
    !a.stopDuring && !IsClean(a)
  }

  function ErrorOf(a: Attempt, describe: (int, string) -> string): string {
    if a.thrown.Some? then a.thrown.value
    else describe(a.exitCode, a.signal)
  }

  /** How the loop ends, and after how many attempts. */
  ghost predicate EndsAfter(attempts: seq<Attempt>, retries: nat, describe: (int, string) -> string, ending: Ending,
                            used: nat)
    requires retries < |attempts|
  {
    && 1 <= used <= retries + 1
    && (forall i :: 0 <= i < used - 1 ==> FailsUnstopped(attempts[i]) && !attempts[i].stopInBackoff)
    && var last := attempts[used - 1];
       if last.stopDuring then ending == Stopped
       else if IsClean(last) then ending == Clean
       else if used == retries + 1 then ending == Dead(used, ErrorOf(last, describe))
       else last.stopInBackoff && ending == Stopped
  }

  class Supervisor {
    const backoff: seq<nat>
    /** The text for an exit code and a signal. */
    const describe: (int, string) -> string
    var stopped: bool
    var failureCount: nat
    var lastError: Option<string>

    constructor (backoff: seq<nat>, describe: (int, string) -> string)
      ensures this.backoff == backoff && this.describe == describe
      ensures !stopped && failureCount == 0 && lastError == None
    {
      this.backoff, this.describe := backoff, describe;
      stopped, failureCount, lastError := false, 0, None;
    }

    /** The first call of `start`; later ones wait for it. */
    method Start(attempts: seq<Attempt>) returns (ending: Ending, used: nat)
      requires |backoff| < |attempts| && failureCount == 0 && lastError == None
      modifies this
      ensures old(stopped) ==> ending == Stopped && used == 0
      ensures !old(stopped) ==> EndsAfter(attempts, |backoff|, describe, ending, used)
      ensures stopped <==> ending == Stopped
    {
      used := 0;
      while !stopped
        invariant used == failureCount <= |backoff|
        invariant !stopped ==> lastError == None
        invariant !stopped ==> forall i :: 0 <= i < used ==> FailsUnstopped(attempts[i]) && !attempts[i].stopInBackoff
        invariant stopped && !old(stopped) ==> EndsAfter(attempts, |backoff|, describe, Stopped, used)
        invariant old(stopped) ==> stopped && used == 0
        decreases |backoff| - used, !stopped
      {
        var a := attempts[used];
        used := used + 1;
        if a.thrown.Some? {
          lastError := a.thrown;
        }
        if a.stopDuring {
          stopped := true;
          return Stopped, used;
        }
        if a.thrown.None? && a.exitCode == 0 && a.signal == "" {
          return Clean, used;
        }
        failureCount := failureCount + 1;
        if lastError.None? {
          lastError := Some(describe(a.exitCode, a.signal));
        }
        if failureCount > |backoff| {
          return Dead(failureCount, lastError.value), used;
        }
        stopped := a.stopInBackoff;
        lastError := None;
      }
      ending := Stopped;
    }
  }

  /** The first attempt that does not fail, or is stopped during itself or in the backoff after it, or has no retry
      left, decides how the loop ends. An attempt fails by throwing, by an exit code other than 0, or by a signal. */
  lemma LoopIsDetermined(attempts: seq<Attempt>, retries: nat, describe: (int, string) -> string, ending: Ending,
                         used: nat, k: nat)
    requires retries < |attempts| && EndsAfter(attempts, retries, describe, ending, used) && k <= retries
    requires forall i :: 0 <= i < k ==>
               && !attempts[i].stopDuring && !attempts[i].stopInBackoff
               && (attempts[i].thrown.Some? || attempts[i].exitCode != 0 || attempts[i].signal != "")
    requires attempts[k].stopDuring || attempts[k].stopInBackoff || k == retries
             || (attempts[k].thrown.None? && attempts[k].exitCode == 0 && attempts[k].signal == "")
    ensures used == k + 1
    ensures var Attempt(thrown, exitCode, signal, stopDuring, _) := attempts[k];
            ending ==
            if stopDuring then Stopped
            else if thrown == None && exitCode == 0 && signal == "" then Clean
            else if k < retries then Stopped
            else Dead(retries + 1, if thrown == None then describe(exitCode, signal) else thrown.value)
  {}

  /** The supervisor gives up exactly if one attempt more than there are retries has failed and none was stopped. */
  lemma DeadExactly(attempts: seq<Attempt>, retries: nat, describe: (int, string) -> string, ending: Ending, used: nat)
    requires retries < |attempts| && EndsAfter(attempts, retries, describe, ending, used)
    ensures ending.Dead? <==> (forall i :: 0 <= i <= retries ==> FailsUnstopped(attempts[i]))
                              && forall i :: 0 <= i < retries ==> !attempts[i].stopInBackoff
    ensures ending.Dead? ==> ending == Dead(retries + 1, ErrorOf(attempts[retries], describe))
  {}

  /** Three failures in a row are not enough with three backoff entries: a clean fourth attempt still ends well. */
  lemma ThreeFailuresAreNotDead(attempts: seq<Attempt>, describe: (int, string) -> string, ending: Ending, used: nat)
    requires |attempts| > 3 && EndsAfter(attempts, 3, describe, ending, used)
    requires forall i :: 0 <= i < 3 ==> FailsUnstopped(attempts[i]) && !attempts[i].stopInBackoff
    requires IsClean(attempts[3]) && !attempts[3].stopDuring
    ensures ending == Clean && used == 4
  {}
}
