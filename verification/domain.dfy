/** The domain enumerations and entity records of the database types
    (ethicsgate-app/src/types/database.ts). Each enumeration is a closed datatype with
    the wire string the database and the forms use, and a parser back from that string. */
module Domain {
  import opened Wrappers
  import opened JsonValues

  datatype UserRole = Researcher | Reviewer | Admin

  datatype ProposalStatus =
    | Draft
    | Submitted
    | UnderReview
    | Approved
    | Rejected
    | ReviseAndResubmit

  datatype AnnotationType = Comment | Concern | Suggestion

  datatype ReviewDecision = Approve | Reject | ReviseAndResubmitDecision

  function RoleName(r: UserRole): string
  {
    match r
    case Researcher => "researcher"
    case Reviewer => "reviewer"
    case Admin => "admin"
  }

  /** Reads a role from its wire string; any other string is not a role. */
  function ParseRole(s: string): (r: Option<UserRole>)
    ensures r.Some? ==> RoleName(r.value) == s
    ensures r.None? ==> forall role :: RoleName(role) != s
  {
    if s == "researcher" then Some(Researcher)
    else if s == "reviewer" then Some(Reviewer)
    else if s == "admin" then Some(Admin)
    else None
  }

  function StatusName(st: ProposalStatus): string
  {
    match st
    case Draft => "draft"
    case Submitted => "submitted"
    case UnderReview => "under_review"
    case Approved => "approved"
    case Rejected => "rejected"
    case ReviseAndResubmit => "revise_and_resubmit"
  }

  /** Reads a proposal status from its wire string; any other string is not a status. */
  function ParseStatus(s: string): (r: Option<ProposalStatus>)
    ensures r.Some? ==> StatusName(r.value) == s
    ensures r.None? ==> forall st :: StatusName(st) != s
  {
    if s == "draft" then Some(Draft)
    else if s == "submitted" then Some(Submitted)
    else if s == "under_review" then Some(UnderReview)
    else if s == "approved" then Some(Approved)
    else if s == "rejected" then Some(Rejected)
    else if s == "revise_and_resubmit" then Some(ReviseAndResubmit)
    else None
  }

  function AnnotationTypeName(t: AnnotationType): string
  {
    match t
    case Comment => "comment"
    case Concern => "concern"
    case Suggestion => "suggestion"
  }

  function ParseAnnotationType(s: string): (r: Option<AnnotationType>)
    ensures r.Some? ==> AnnotationTypeName(r.value) == s
    ensures r.None? ==> forall t :: AnnotationTypeName(t) != s
  {
    if s == "comment" then Some(Comment)
    else if s == "concern" then Some(Concern)
    else if s == "suggestion" then Some(Suggestion)
    else None
  }

  function DecisionName(d: ReviewDecision): string
  {
    match d
    case Approve => "approve"
    case Reject => "reject"
    case ReviseAndResubmitDecision => "revise_and_resubmit"
  }

  function ParseDecision(s: string): (r: Option<ReviewDecision>)
    ensures r.Some? ==> DecisionName(r.value) == s
    ensures r.None? ==> forall d :: DecisionName(d) != s
  {
    if s == "approve" then Some(Approve)
    else if s == "reject" then Some(Reject)
    else if s == "revise_and_resubmit" then Some(ReviseAndResubmitDecision)
    else None
  }

  /** Every enumeration value survives the trip through its wire string, so the
      wire names are pairwise distinct. */
  lemma NamesRoundTrip(r: UserRole, st: ProposalStatus, t: AnnotationType, d: ReviewDecision)
    ensures ParseRole(RoleName(r)) == Some(r)
    ensures ParseStatus(StatusName(st)) == Some(st)
    ensures ParseAnnotationType(AnnotationTypeName(t)) == Some(t)
    ensures ParseDecision(DecisionName(d)) == Some(d)
  {
  }

  // The two rows the header reads. Identifiers and timestamps are opaque strings; a `null`
  // column is an `Option`.

  datatype Organization = Organization(
    id: string,
    name: string,
    slug: string,
    settings: map<string, Json>,
    createdAt: string)

  datatype User = User(
    id: string,
    organizationId: string,
    email: string,
    fullName: string,
    role: UserRole,
    avatarUrl: Option<string>,
    createdAt: string)
}
