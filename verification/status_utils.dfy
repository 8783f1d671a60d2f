/** `getStatusColor` and `getStatusLabel` (ethicsgate-app/src/lib/utils.ts): lookups in a
    string-keyed table that fall back when the key is missing. Both take any string, not
    only a `ProposalStatus`, so the tables are maps over strings. */
module StatusUtils {
  import opened Domain

  const StatusColors: map<string, string> := map[
    "draft" := "bg-zinc-500",
    "submitted" := "bg-blue-500",
    "under_review" := "bg-yellow-500",
    "approved" := "bg-green-500",
    "rejected" := "bg-red-500",
    "revise_and_resubmit" := "bg-orange-500"
  ]

  const FallbackColor: string := "bg-zinc-500"

  const StatusLabels: map<string, string> := map[
    "draft" := "Draft",
    "submitted" := "Submitted",
    "under_review" := "Under Review",
    "approved" := "Approved",
    "rejected" := "Rejected",
    "revise_and_resubmit" := "Revise & Resubmit"
  ]

  /** `table[key] || fallback`: a missing key, or a mapped empty string (falsy), gives the fallback. */
  function LookupOr(table: map<string, string>, key: string, fallback: string): (r: string)
    ensures key !in table ==> r == fallback
    ensures key in table && table[key] != "" ==> r == table[key]
    ensures key in table && table[key] == "" ==> r == fallback
    ensures r == fallback || (key in table && r == table[key])
  {
    if key in table && table[key] != "" then table[key] else fallback
  }

  function StatusColor(status: string): (color: string)
    ensures status !in StatusColors ==> color == FallbackColor
    ensures status in StatusColors ==> color == StatusColors[status]
  {
    LookupOr(StatusColors, status, FallbackColor)
  }

  function StatusLabel(status: string): (text: string)
    ensures status !in StatusLabels ==> text == status
    ensures status in StatusLabels ==> text == StatusLabels[status]
  {
    LookupOr(StatusLabels, status, status)
  }

  /** Both tables are keyed by exactly the six `ProposalStatus` wire names. */
  lemma TablesKeyedByStatuses(s: string)
    ensures s in StatusColors <==> ParseStatus(s).Some?
    ensures s in StatusLabels <==> ParseStatus(s).Some?
  {
  }

  /** The label of each status, and the identity on every string that is not a status. */
  lemma StatusLabelValues(s: string)
    ensures StatusLabel(StatusName(Draft)) == "Draft"
    ensures StatusLabel(StatusName(Submitted)) == "Submitted"
    ensures StatusLabel(StatusName(UnderReview)) == "Under Review"
    ensures StatusLabel(StatusName(Approved)) == "Approved"
    ensures StatusLabel(StatusName(Rejected)) == "Rejected"
    ensures StatusLabel(StatusName(ReviseAndResubmit)) == "Revise & Resubmit"
    ensures ParseStatus(s).None? ==> StatusLabel(s) == s
  {
    TablesKeyedByStatuses(s);
  }

  /** No label is itself a key, so labelling a label changes nothing. */
  lemma StatusLabelIdempotent(s: string)
    ensures StatusLabel(StatusLabel(s)) == StatusLabel(s)
  {
    if s in StatusLabels {
      var l := StatusLabels[s];
      assert l !in StatusLabels by {
        assert forall k :: k in StatusLabels ==> StatusLabels[k] !in StatusLabels;
      }
    }
  }

  /** Different statuses get different labels. */
  lemma StatusLabelsDistinct(a: ProposalStatus, b: ProposalStatus)
    requires a != b
    ensures StatusLabel(StatusName(a)) != StatusLabel(StatusName(b))
  {
  }

  /** Different statuses get different colours; `draft` shares its colour with every
      string that is not a status. */
  lemma StatusColorsDistinct(a: ProposalStatus, b: ProposalStatus, other: string)
    requires a != b
    requires ParseStatus(other).None?
    ensures StatusColor(StatusName(a)) != StatusColor(StatusName(b))
    ensures StatusColor(other) == FallbackColor == StatusColor(StatusName(Draft))
  {
    TablesKeyedByStatuses(other);
  }
}
