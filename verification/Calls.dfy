/** Calls to systems outside the program, any of which may fail. */
module Calls {
  /** How the environment treats one call: it works; the request is lost; the request takes effect
      and only its answer is lost; or the connection breaks half-way.  Half-way through a query means
      that the program reads these rows only and takes them for the whole answer; half-way through
      removing a directory, that these files are left.  Other calls have no half-way and work. */
  datatype Outcome = Answered | RequestLost | AnswerLost | CutShort(part: set<string>)

  /** The outcome of every call, by its number. */
  type Faults = nat -> Outcome

  /** The program is told that the call failed. */
  predicate Fails(outcome: Outcome) {
    outcome == RequestLost || outcome == AnswerLost
  }

  /** Some call between two clock readings failed. */
  ghost predicate Failing(f: Faults, from: nat, to: nat) {
    exists t: nat :: from <= t < to && Fails(f(t))
  }

  /** Some call between two clock readings did not simply work. */
  ghost predicate Disturbed(f: Faults, from: nat, to: nat) {
    exists t: nat :: from <= t < to && f(t) != Answered
  }
}
