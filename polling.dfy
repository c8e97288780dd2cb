/**
 * The bounded readiness polls of the stop and start paths: up to five rounds
 * of "sleep half a second, then try to connect to the client port", left
 * early as soon as the connect attempt has the outcome the caller waits for.
 */
module Polling {

  /** Rounds per poll. */
  const PollAttempts: nat := 5

  /**
   * `probes[i]` says whether the connect attempt of round `i` succeeded.
   * The stop path waits for a failed connect (`until == false`), the start
   * path for a successful one (`until == true`). The result is the number
   * of rounds run; reaching the last round is not an error for either caller.
   */
  method Poll(probes: seq<bool>, until: bool) returns (rounds: nat)
    requires |probes| >= PollAttempts
    ensures 1 <= rounds <= PollAttempts
    ensures forall k :: 0 <= k < rounds - 1 ==> probes[k] != until
    ensures rounds < PollAttempts ==> probes[rounds - 1] == until
  {
    rounds := 0;
    var i := 0;
    while i < PollAttempts
      invariant 0 <= i <= PollAttempts
      invariant rounds == i
      invariant forall k :: 0 <= k < i ==> probes[k] != until
    {
      // the half-second sleep is not modelled
      rounds := rounds + 1;
      if probes[i] == until {
        break;
      }
      i := i + 1;
    }
  }
}
