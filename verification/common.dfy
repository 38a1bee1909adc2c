/** Vocabulary shared by every part of the model: optional values, the way a
    call into the hosted backend ends, and the outcome of a session lookup. */
module Common {

  datatype Option<+T> = None | Some(value: T)

  /** How one call into the backend SDK ends, as decided by the environment.
      - Ok: no error, data returned;
      - NullData: no error reported, but `data` is null;
      - ErrorResult: the call resolves with an `error` object;
      - Throws: the awaited promise rejects (network failure and the like). */
  datatype Reply = Ok | NullData | ErrorResult | Throws

  /** What the caller observes of a call: `Done` (no error), `Failed` (an
      `error` value to test) or `Threw` (an exception to catch). */
  datatype Status = Done | Failed | Threw

  /** The status of a call that the store would accept exactly when `accepted`. */
  function Resolve(reply: Reply, accepted: bool): (s: Status)
    ensures s == Done <==> reply in {Ok, NullData} && accepted
    ensures s == Threw <==> reply == Throws
  {
    match reply
    case Throws => Threw
    case ErrorResult => Failed
    case _ => if accepted then Done else Failed
  }

  /** Outcome of `auth.getSession()`: no session, a session of a user, or an exception. */
  datatype SessionLookup = NoSession | Session(userId: string) | LookupThrows

  predicate StartsWith(s: string, prefix: string)
  {
    |prefix| <= |s| && s[..|prefix|] == prefix
  }

  predicate EndsWith(s: string, suffix: string)
  {
    |suffix| <= |s| && s[|s| - |suffix|..] == suffix
  }
}
