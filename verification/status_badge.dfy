/** The status badge (ethicsgate-app/src/components/proposals/status-badge.tsx): a table
    from every `ProposalStatus` to a label and a class list, and the badge that shows the label. */
module StatusBadge {
  import opened Wrappers
  import opened Domain
  import StatusUtils

  datatype BadgeConfig = BadgeConfig(text: string, className: string)

  const StatusConfig: map<ProposalStatus, BadgeConfig> := map[
    Draft := BadgeConfig("Draft", "bg-[#F0EBE3] text-[#6B6560] border-[#E8E3DB]"),
    Submitted := BadgeConfig("Submitted", "bg-[#FEF3E0] text-[#B08A50] border-[#F5E0C0]"),
    UnderReview := BadgeConfig("In Review", "bg-[#E8F4F8] text-[#4A8A90] border-[#C8E4E8]"),
    Approved := BadgeConfig("Approved", "bg-[#E8F5E9] text-[#5A8A5E] border-[#C8E8CA]"),
    Rejected := BadgeConfig("Not Approved", "bg-[#FDECEB] text-[#C75450] border-[#F5D0CE]"),
    ReviseAndResubmit := BadgeConfig("Revisions Needed", "bg-[#FFF4E8] text-[#C77B58] border-[#F5E0D0]")
  ]

  /** The table has an entry for every status, so the badge lookup never misses. */
  lemma ConfigTotal(st: ProposalStatus)
    ensures st in StatusConfig
  {
  }

  /** What the badge renders: its text, and the class names it hands to `cn`
      (the merging itself belongs to a library and is not modelled). */
  datatype BadgeView = BadgeView(text: string, classNames: seq<string>)

  function Badge(status: ProposalStatus, className: Option<string>): (view: BadgeView)
    ensures status in StatusConfig && view.text == StatusConfig[status].text
    ensures StatusConfig[status].className in view.classNames
    ensures className.Some? ==> className.value in view.classNames
  {
    ConfigTotal(status);
    var config := StatusConfig[status];
    BadgeView(
      config.text,
      ["font-medium text-xs border", config.className] + (if className.Some? then [className.value] else []))
  }

  /** The six badge texts, which are pairwise distinct. */
  lemma BadgeTexts(a: ProposalStatus, b: ProposalStatus)
    ensures Badge(Draft, None).text == "Draft"
    ensures Badge(Submitted, None).text == "Submitted"
    ensures Badge(UnderReview, None).text == "In Review"
    ensures Badge(Approved, None).text == "Approved"
    ensures Badge(Rejected, None).text == "Not Approved"
    ensures Badge(ReviseAndResubmit, None).text == "Revisions Needed"
    ensures a != b ==> Badge(a, None).text != Badge(b, None).text
  {
  }

  /** The badge and `getStatusLabel` say the same thing for draft, submitted and
      approved, and different things for the other three statuses. */
  lemma BadgeAgreesWithStatusLabel(st: ProposalStatus)
    ensures Badge(st, None).text == StatusUtils.StatusLabel(StatusName(st))
            <==> st == Draft || st == Submitted || st == Approved
  {
  }
}
