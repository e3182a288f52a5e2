/**
 * enrich_lead: derives the e-mail domain, whether that domain belongs to a
 * free mail provider, and a guessed LinkedIn company URL. The URL is a guess
 * built from the company name, never a looked-up page.
 */
module Enricher {
  import opened Wrappers
  import opened Text

  /** FREE_EMAIL_DOMAINS: consumer mail providers, a negative signal for a lead. */
  const FreeEmailDomains: set<string> := {
    "gmail.com", "yahoo.com", "hotmail.com", "outlook.com", "live.com", "icloud.com",
    "aol.com", "mail.com", "protonmail.com"
  }

  /** Whether a domain is one of the listed providers. */
  predicate IsFreeDomain(domain: string) {
    domain in FreeEmailDomains
  }

  const LinkedInPrefix: string := "https://www.linkedin.com/company/"

  /** The domain used when the e-mail holds no '@'. */
  const UnknownDomain: string := "unknown"

  datatype Enrichment = Enrichment(domain: string, linkedIn: string, isFreeEmail: bool)

  /** `email.split("@")[-1]`: the text after the last '@'. */
  function AfterLastAt(email: string): string
    requires '@' in email
  {
    email[LastIndexOf(email, '@').value + 1..]
  }

  /** One character of the slug: kept when alphanumeric or '-', else '-'. */
  function SlugChar(c: char): char {
    if IsAlnum(c) || c == '-' then c else '-'
  }

  /** `s.replace(" ", "-")`. */
  function ReplaceSpaces(s: string): (r: string)
    ensures |r| == |s|
  {
    seq(|s|, i requires 0 <= i < |s| => if s[i] == ' ' then '-' else s[i])
  }

  /** The company slug: lower-cased, spaces replaced by '-', then every
      character that is neither alphanumeric nor '-' replaced by '-'. */
  function Slug(company: string): string {
    var s := ReplaceSpaces(Lower(company));
    seq(|s|, i requires 0 <= i < |s| => SlugChar(s[i]))
  }

  /** enrich_lead. `None` stands for an e-mail value that is not a string. */
  function EnrichLead(company: string, email: Option<string>): Enrichment {
    var url := LinkedInPrefix + Slug(company);
    if email.Some? && '@' in email.value then
      var domain := Trim(Lower(AfterLastAt(email.value)));
      Enrichment(domain, url, IsFreeDomain(domain))
    else
      Enrichment(UnknownDomain, url, false)
  }

  /** The slug keeps the length of the name; each character is the lower-case
      form of the name's character when that is alphanumeric, and '-'
      otherwise, so the slug is over lower-case letters, digits and '-'. */
  lemma SlugShape(company: string)
    ensures |Slug(company)| == |company|
    ensures forall i :: 0 <= i < |company| ==>
              Slug(company)[i] == (if IsAlnum(company[i]) then LowerChar(company[i]) else '-')
    ensures forall i :: 0 <= i < |company| ==>
              IsLower(Slug(company)[i]) || IsDigit(Slug(company)[i]) || Slug(company)[i] == '-'
  {
  }

  /** Every character of `Trim(Lower(s))` is the lower-case form of a character of `s`. */
  lemma TrimLowerChars(s: string)
    ensures forall j :: 0 <= j < |Trim(Lower(s))| ==>
              exists k :: 0 <= k < |s| && Trim(Lower(s))[j] == LowerChar(s[k])
  {
    var lowered := Lower(s);
    var l := TrimLeft(lowered);
    var d := TrimRight(l);
    forall j | 0 <= j < |d| ensures exists k :: 0 <= k < |s| && d[j] == LowerChar(s[k]) {
      var k := |lowered| - |l| + j;
      assert d[j] == l[j] == lowered[k];
    }
  }

  /** The text after the last '@' is the text after any '@' not followed by another. */
  lemma LastAtIsUnique(s: string, k: nat)
    requires k < |s| && s[k] == '@' && '@' !in s[k + 1..]
    ensures LastIndexOf(s, '@') == Some(k)
  {
  }

  /** The first two characters of each listed provider. */
  predicate ProviderInitials(a: char, b: char) {
    (a, b) in {('g', 'm'), ('y', 'a'), ('h', 'o'), ('o', 'u'), ('l', 'i'), ('i', 'c'), ('a', 'o'), ('m', 'a'), ('p', 'r')}
  }

  /** A domain whose first two characters are no provider's is not free. */
  lemma NotAProvider(d: string)
    requires |d| < 2 || !ProviderInitials(d[0], d[1])
    ensures !IsFreeDomain(d)
  {
  }

  /** The TechNova sample address: domain "technovaai.com", not a free provider. */
  lemma SampleTechNovaEnriched(company: string)
    ensures EnrichLead(company, Some("contact@technovaai.com")).domain == "technovaai.com"
    ensures !EnrichLead(company, Some("contact@technovaai.com")).isFreeEmail
  {
    SampleTechNovaDomain(company);
    SampleTechNovaNotListed();
  }

  lemma SampleTechNovaNotListed()
    ensures !IsFreeDomain("technovaai.com")
  {
    NotAProvider("technovaai.com");
  }

  lemma SampleTechNovaDomain(company: string)
    ensures EnrichLead(company, Some("contact@technovaai.com")).domain == "technovaai.com"
  {
    SampleTechNovaAfterAt();
    SampleTechNovaLower();
    SampleTechNovaTrim();
  }

  lemma SampleTechNovaAfterAt()
    ensures AfterLastAt("contact@technovaai.com") == "technovaai.com"
  {
    LastAtIsUnique("contact@technovaai.com", 7);
  }

  lemma SampleTechNovaLower()
    ensures Lower("technovaai.com") == "technovaai.com"
  {
  }

  lemma SampleTechNovaTrim()
    ensures Trim("technovaai.com") == "technovaai.com"
  {
    TrimUnchanged("technovaai.com");
  }

  /** The GreenFarm sample address: domain "greenfarm.com", not a free provider. */
  lemma SampleGreenFarmEnriched(company: string)
    ensures EnrichLead(company, Some("info@greenfarm.com")).domain == "greenfarm.com"
    ensures !EnrichLead(company, Some("info@greenfarm.com")).isFreeEmail
  {
    SampleGreenFarmDomain(company);
    SampleGreenFarmNotListed();
  }

  lemma SampleGreenFarmNotListed()
    ensures !IsFreeDomain("greenfarm.com")
  {
    NotAProvider("greenfarm.com");
  }

  lemma SampleGreenFarmDomain(company: string)
    ensures EnrichLead(company, Some("info@greenfarm.com")).domain == "greenfarm.com"
  {
    SampleGreenFarmAfterAt();
    SampleGreenFarmLower();
    SampleGreenFarmTrim();
  }

  lemma SampleGreenFarmAfterAt()
    ensures AfterLastAt("info@greenfarm.com") == "greenfarm.com"
  {
    LastAtIsUnique("info@greenfarm.com", 4);
  }

  lemma SampleGreenFarmLower()
    ensures Lower("greenfarm.com") == "greenfarm.com"
  {
  }

  lemma SampleGreenFarmTrim()
    ensures Trim("greenfarm.com") == "greenfarm.com"
  {
    TrimUnchanged("greenfarm.com");
  }

  /** The FinSolve sample address: domain "finsolve.io", not a free provider. */
  lemma SampleFinSolveEnriched(company: string)
    ensures EnrichLead(company, Some("support@finsolve.io")).domain == "finsolve.io"
    ensures !EnrichLead(company, Some("support@finsolve.io")).isFreeEmail
  {
    SampleFinSolveDomain(company);
    SampleFinSolveNotListed();
  }

  lemma SampleFinSolveNotListed()
    ensures !IsFreeDomain("finsolve.io")
  {
    NotAProvider("finsolve.io");
  }

  lemma SampleFinSolveDomain(company: string)
    ensures EnrichLead(company, Some("support@finsolve.io")).domain == "finsolve.io"
  {
    SampleFinSolveAfterAt();
    SampleFinSolveLower();
    SampleFinSolveTrim();
  }

  lemma SampleFinSolveAfterAt()
    ensures AfterLastAt("support@finsolve.io") == "finsolve.io"
  {
    LastAtIsUnique("support@finsolve.io", 7);
  }

  lemma SampleFinSolveLower()
    ensures Lower("finsolve.io") == "finsolve.io"
  {
  }

  lemma SampleFinSolveTrim()
    ensures Trim("finsolve.io") == "finsolve.io"
  {
    TrimUnchanged("finsolve.io");
  }

  /** The EduSmart sample address: domain "edusmart.org", not a free provider. */
  lemma SampleEduSmartEnriched(company: string)
    ensures EnrichLead(company, Some("hello@edusmart.org")).domain == "edusmart.org"
    ensures !EnrichLead(company, Some("hello@edusmart.org")).isFreeEmail
  {
    SampleEduSmartDomain(company);
    SampleEduSmartNotListed();
  }

  lemma SampleEduSmartNotListed()
    ensures !IsFreeDomain("edusmart.org")
  {
    NotAProvider("edusmart.org");
  }

  lemma SampleEduSmartDomain(company: string)
    ensures EnrichLead(company, Some("hello@edusmart.org")).domain == "edusmart.org"
  {
    SampleEduSmartAfterAt();
    SampleEduSmartLower();
    SampleEduSmartTrim();
  }

  lemma SampleEduSmartAfterAt()
    ensures AfterLastAt("hello@edusmart.org") == "edusmart.org"
  {
    LastAtIsUnique("hello@edusmart.org", 5);
  }

  lemma SampleEduSmartLower()
    ensures Lower("edusmart.org") == "edusmart.org"
  {
  }

  lemma SampleEduSmartTrim()
    ensures Trim("edusmart.org") == "edusmart.org"
  {
    TrimUnchanged("edusmart.org");
  }

  /** The domain and the free-provider flag: "unknown" and not free when the
      value is not a string or holds no '@'; otherwise the lower-cased, stripped
      text after the last '@', which holds no '@' and no upper-case letter, and
      free exactly when it is one of the listed providers. The URL is the
      LinkedIn company prefix followed by the slug. */
  lemma EnrichLeadSpec(company: string, email: Option<string>)
    ensures var r := EnrichLead(company, email);
      && r.linkedIn == LinkedInPrefix + Slug(company)
      && (r.isFreeEmail <==> r.domain in FreeEmailDomains)
      && (email.None? || '@' !in email.value ==> r.domain == UnknownDomain)
      && (email.Some? && '@' in email.value ==>
            && '@' !in r.domain
            && (forall j :: 0 <= j < |r.domain| ==> !IsUpper(r.domain[j]))
            && forall k :: 0 <= k < |email.value| && email.value[k] == '@' && '@' !in email.value[k + 1..] ==>
                 r.domain == Trim(Lower(email.value[k + 1..])))
  {
    if email.Some? && '@' in email.value {
      DerivedDomainChars(email.value);
      DerivedDomainFromLastAt(email.value);
    }
  }

  /** The derived domain holds no '@' and no upper-case letter. */
  lemma DerivedDomainChars(s: string)
    requires '@' in s
    ensures '@' !in Trim(Lower(AfterLastAt(s)))
    ensures forall j :: 0 <= j < |Trim(Lower(AfterLastAt(s)))| ==> !IsUpper(Trim(Lower(AfterLastAt(s)))[j])
  {
    var after := AfterLastAt(s);
    TrimLowerChars(after);
    var last := LastIndexOf(s, '@').value;
    forall j | 0 <= j < |after| ensures after[j] != '@' {
      assert after[j] == s[last + 1 + j];
    }
  }

  /** Any '@' with no '@' after it is the last one, so the domain is the
      text after it. */
  lemma DerivedDomainFromLastAt(s: string)
    requires '@' in s
    ensures forall k :: 0 <= k < |s| && s[k] == '@' && '@' !in s[k + 1..] ==>
              Trim(Lower(AfterLastAt(s))) == Trim(Lower(s[k + 1..]))
  {
    forall k | 0 <= k < |s| && s[k] == '@' && '@' !in s[k + 1..]
      ensures Trim(Lower(AfterLastAt(s))) == Trim(Lower(s[k + 1..]))
    {
      LastAtIsUnique(s, k);
    }
  }

  /** The enrichment of the BuildMax sample lead. */
  lemma SampleBuildMax()
    ensures EnrichLead("BuildMax", Some("sales.buildmax@gmail.com")) ==
            Enrichment("gmail.com", "https://www.linkedin.com/company/buildmax", true)
  {
    SampleBuildMaxEnriched("BuildMax");
    SampleBuildMaxUrl();
  }

  /** The BuildMax sample address: domain "gmail.com", a free provider. */
  lemma SampleBuildMaxEnriched(company: string)
    ensures EnrichLead(company, Some("sales.buildmax@gmail.com")).domain == "gmail.com"
    ensures EnrichLead(company, Some("sales.buildmax@gmail.com")).isFreeEmail
  {
    SampleBuildMaxDomain(company);
    GmailIsFree();
  }

  lemma SampleBuildMaxDomain(company: string)
    ensures EnrichLead(company, Some("sales.buildmax@gmail.com")).domain == "gmail.com"
  {
    SampleBuildMaxDomainText();
  }

  lemma SampleBuildMaxDomainText()
    ensures Trim(Lower(AfterLastAt("sales.buildmax@gmail.com"))) == "gmail.com"
  {
    SampleBuildMaxAfterAt();
    GmailLower();
    GmailTrim();
  }

  lemma SampleBuildMaxUrl()
    ensures LinkedInPrefix + Slug("BuildMax") == "https://www.linkedin.com/company/buildmax"
  {
    SampleBuildMaxSlug();
  }

  lemma SampleBuildMaxAfterAt()
    ensures AfterLastAt("sales.buildmax@gmail.com") == "gmail.com"
  {
    LastAtIsUnique("sales.buildmax@gmail.com", 14);
  }

  lemma GmailLower()
    ensures Lower("gmail.com") == "gmail.com"
  {
  }

  lemma GmailTrim()
    ensures Trim("gmail.com") == "gmail.com"
  {
    TrimUnchanged("gmail.com");
  }

  lemma GmailIsFree()
    ensures IsFreeDomain("gmail.com")
  {
  }

  lemma SampleBuildMaxSlug()
    ensures Slug("BuildMax") == "buildmax"
  {
  }

  /** An address with nothing after its '@' has the empty domain, not
      "unknown", and it is not a free provider. */
  lemma SampleDanglingAt(company: string)
    ensures EnrichLead(company, Some("random_email@")).domain == ""
    ensures !EnrichLead(company, Some("random_email@")).isFreeEmail
  {
    assert LastIndexOf("random_email@", '@') == Some(12);
  }
}
