/** What several modules need. */
module Common {
  datatype Option<+T> = None | Some(value: T)

  /** Time is in nanoseconds. */
  const SECOND: int := 1_000_000_000

  /** Provisioning states of Azure (service/controller/key). */
  predicate FailedState(s: string) { s == "Failed" || s == "Canceled" }

  predicate FinalState(s: string) { FailedState(s) || s == "Succeeded" }

  predicate HasPrefix(s: string, prefix: string) { |prefix| <= |s| && s[..|prefix|] == prefix }

  predicate HasSuffix(s: string, suffix: string) { |suffix| <= |s| && s[|s| - |suffix|..] == suffix }
}
