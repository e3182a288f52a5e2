/** The lead records the pipeline passes between its stages. */
module Leads {
  import opened Wrappers
  import opened Scorer

  /** One input row: Company, Email, Industry. `None` marks a missing cell. */
  datatype RawLead = RawLead(company: Option<string>, email: Option<string>, industry: Option<string>)

  /** A processed row: the three input columns and the six derived ones
      (Email Valid, Domain, LinkedIn, Is Free Email, Lead Score, Priority). */
  datatype ScoredLead = ScoredLead(
    company: string, email: string, industry: string,
    emailValid: bool, domain: string, linkedIn: string, isFreeEmail: bool,
    score: int, priority: Priority)
}
