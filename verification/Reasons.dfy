/** Why the subscription compiler leaves something out. */
module Reasons {
  /** The messages of the compiler, one constructor for each text. */
  datatype Reason =
    // about one filter
    | BadScope | ScopeTooLong | EmptyDomainRestriction | DuplicateModifier | ConflictingParty | UnsupportedModifier
    | NoResourceType | UnsupportedPattern
    // about one line
    | RuleTooLong | BadExceptionSelector | BadSelectorOrScope | ExtendedSyntax | BadfilterTargetUnsupported
    | ConservativeExemption | BroaderGuard | BlocksSuppressed | OmittedForExemption
    // about the whole compilation
    | BadSources | TooManyAllowances
}
