/**
 * The robots policy gate (src/utils/robotsUrlChecker.js). Fetching and parsing
 * robots.txt are outside the model: the loaded policy is an oracle predicate.
 */
module Robots {

  /** `Unset` is the module's `robots === null`; `Loaded` wraps the parser's `isAllowed`. */
  datatype Policy = Unset | Loaded(isAllowed: string -> bool)

  /** `isUrlAllowedAccordingToRobots`: everything is allowed while no policy is loaded. */
  function IsUrlAllowed(policy: Policy, url: string): (allowed: bool)
    ensures policy.Unset? ==> allowed
    ensures policy.Loaded? ==> (allowed <==> policy.isAllowed(url))
  {
    match policy
    case Unset => true
    case Loaded(isAllowed) => isAllowed(url)
  }
}
