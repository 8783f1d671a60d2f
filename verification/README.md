# EthicsGate decision logic in Dafny

EthicsGate is a web application in which research organisations run ethics review:
researchers draft and submit proposals, reviewers annotate and decide, administrators
manage members. Almost all of its code renders pages and calls a hosted backend. The
small amount of pure decision logic it does contain is modelled here:

- **Input validation.** The zod schemas for proposals (create, update, submit) and for
  users (signup, login, invite, update). Module `Zod` is a small interpreter for the part
  of zod these schemas use: strings with length and format checks, enums, records, arrays,
  `nullable` and `optional`. Given a JSON input it yields the issue list zod reports, and
  `SafeParse` yields the stripped data or that list. Issues keep zod's order, first by
  shape and then by check, because the forms show `issues[0].message`. Modules
  `ProposalValidators` and `UserValidators` state, property by property, what each schema
  accepts.
- **Status presentation.** `getStatusColor` and `getStatusLabel` (module `StatusUtils`) are
  string-keyed lookups with a fallback. The status badge table (module `StatusBadge`) covers
  every `ProposalStatus`.
- **Navigation.** The sidebar (module `Sidebar`) filters a fixed list of links by role and
  marks a link active by a path-prefix rule.
- **Header strings.** Avatar initials from the full name, and the capitalised role label
  (module `Header`).
- **Domain types.** `UserRole`, `ProposalStatus`, `ReviewDecision` and `AnnotationType` are
  closed datatypes with their wire names and parsers. The two rows the header reads,
  `Organization` and `User`, are records (module `Domain`).

There is no central transition relation for proposal status. The update schema checks a
status only for enum membership (`ethicsgate-app/src/lib/validators/proposal.ts:11`), so
any status may follow any other. `UpdateAcceptsAnyStatus` states this. The access rules
that do exist are written inline in the pages: some redirect a visitor who fails them,
others only hide the matching controls. They are not part of this model (see "Left out").

zod's `.min` and `.max` bounds are inclusive. So a 200-character title is accepted even
though the message for a longer title reads "less than 200 characters".
`TitleBoundaries` pins this down. The code's behaviour is modelled, not the message.

Files: `wrappers.dfy` (Option, Result), `json.dfy` (JSON values), `sequences.dfy` (the
subsequence order and concatenation facts), `ascii.dfy` (ASCII character classes and case
mapping), `domain.dfy`, `zod.dfy`, `proposal_validators.dfy`, `user_validators.dfy`,
`status_utils.dfy`, `status_badge.dfy`, `sidebar.dfy`, `header.dfy`.

## Model

| member | source | states |
|---|---|---|
| Domain.ParseRole | ethicsgate-app/src/types/database.ts:3 | a string parses to a role exactly when it is that role's wire name; every other string parses to nothing |
| Domain.ParseStatus | ethicsgate-app/src/types/database.ts:5-11 | a string parses to a status exactly when it is one of the six status wire names |
| Domain.ParseAnnotationType | ethicsgate-app/src/types/database.ts:13 | a string parses to an annotation kind exactly when it is comment, concern or suggestion |
| Domain.ParseDecision | ethicsgate-app/src/types/database.ts:15 | a string parses to a decision exactly when it is approve, reject or revise_and_resubmit |
| Domain.NamesRoundTrip | ethicsgate-app/src/types/database.ts:3-15 | every enumeration value parses back from its wire name, so the names are distinct |
| Zod.FailingFromCompleteSorted | ethicsgate-app/src/lib/validators/user.ts:5-8 | the scan over the checks from a position on misses no failing check and lists the positions in increasing order |
| Zod.FailingChecks | ethicsgate-app/src/lib/validators/user.ts:5-8 | the positions of exactly the checks a string fails, in increasing order |
| Zod.CheckIssues | ethicsgate-app/src/lib/validators/user.ts:5-8 | all checks of a string run, and a failing one does not stop the rest: the k-th issue is the issue of the k-th failing check, so there is one issue per failing check, in check order; no issue arises exactly when every check holds; each issue is at the property's path |
| Zod.FirstIssueIsFirstFailure | ethicsgate-app/src/lib/validators/user.ts:5-8 | the first issue, the one a form shows, is that of the first failing check |
| Zod.FieldIssues | ethicsgate-app/src/lib/validators/proposal.ts:9-12 | every issue of a property, including an array element's, lies at or below that property's path |
| Zod.FieldIssuesEmptyIff | ethicsgate-app/src/lib/validators/proposal.ts:8-13 | a value raises no issue exactly when the schema admits it: an absent value under optional, null under nullable, a listed enum string, any object for a record, an array whose every element is admitted |
| Zod.ElementIssuesEmptyIff | ethicsgate-app/src/lib/validators/proposal.ts:12 | an array's elements raise no issue exactly when each element is admitted |
| Zod.ShapeIssues | ethicsgate-app/src/lib/validators/proposal.ts:3-6 | every issue of an object schema lies under one of the properties the schema declares |
| Zod.ShapeIssuesEmptyIff | ethicsgate-app/src/lib/validators/proposal.ts:3-6 | an object raises no issue exactly when every declared property is admitted by its schema |
| Zod.SingleShapeIssues | ethicsgate-app/src/lib/validators/proposal.ts:3-6 | a one-property shape raises exactly that property's issues, each under the property's key |
| Zod.ShapeIssuesConcat | ethicsgate-app/src/lib/validators/proposal.ts:3-6 | properties are checked in declaration order: the issues of two consecutive parts of a shape are those of the first part followed by those of the second |
| Zod.FirstShapeIssue | ethicsgate-app/src/lib/validators/proposal.ts:3-6 | the first issue, the one the forms display, is the first issue of the first declared property that is not admitted |
| Zod.AcceptsIff | ethicsgate-app/src/lib/validators/user.ts:3-12 | an object schema accepts exactly the objects whose declared properties are all admitted; undeclared properties play no part |
| Zod.SafeParse | ethicsgate-app/src/lib/validators/user.ts:3-12 | success exactly on acceptance, with the declared properties that were present, unchanged and undeclared ones stripped; otherwise the non-empty issue list, whose first message the signup form shows |
| ProposalValidators.TitleAdmitsIff | ethicsgate-app/src/lib/validators/proposal.ts:4 | a title is admitted exactly when it is a string of 5 to 200 characters, both bounds inclusive |
| ProposalValidators.TitleBoundaries | ethicsgate-app/src/lib/validators/proposal.ts:4 | "Shor" fails with the single issue "Title must be at least 5 characters"; "Short" and any 200-character title pass; 201 characters fail with "Title must be less than 200 characters" |
| ProposalValidators.CreateTitleIssues | ethicsgate-app/src/lib/validators/proposal.ts:3-6 | for a title and an empty content object, the create issues are exactly the title's check issues, in check order |
| ProposalValidators.CreateAcceptsIff | ethicsgate-app/src/lib/validators/proposal.ts:3-6 | create accepts exactly an object with a valid title and an object content, whatever that content holds |
| ProposalValidators.StatusOptionsAreStatuses | ethicsgate-app/src/lib/validators/proposal.ts:11 | the status enum lists exactly the six ProposalStatus wire names |
| ProposalValidators.StatusAdmitsIff | ethicsgate-app/src/lib/validators/proposal.ts:11 | a status is admitted exactly when it is a string naming a ProposalStatus |
| ProposalValidators.ReviewersAdmitsIff | ethicsgate-app/src/lib/validators/proposal.ts:12 | a reviewer list is admitted exactly when it is an array whose every element is a UUID string |
| ProposalValidators.UpdateAcceptsIff | ethicsgate-app/src/lib/validators/proposal.ts:8-13 | update accepts exactly an object in which each of title, content, status and assigned_reviewers is absent or valid |
| ProposalValidators.EmptyUpdateAccepted | ethicsgate-app/src/lib/validators/proposal.ts:8-13 | the update with no properties is accepted |
| ProposalValidators.UpdateAcceptsAnyStatus | ethicsgate-app/src/lib/validators/proposal.ts:11 | an update setting only the status is accepted for every status; the schema takes no current status, so it refuses no transition |
| ProposalValidators.EmptyReviewersAccepted | ethicsgate-app/src/lib/validators/proposal.ts:12 | an empty reviewer list is accepted |
| ProposalValidators.CreateInputValidForUpdate | ethicsgate-app/src/lib/validators/proposal.ts:3-13 | every create input that carries no status or reviewer list is also a valid update |
| ProposalValidators.SubmitAcceptsIff | ethicsgate-app/src/lib/validators/proposal.ts:15-17 | submit accepts exactly an object whose proposalId is a UUID string |
| UserValidators.SlugAdmitsIff | ethicsgate-app/src/lib/validators/user.ts:5-8 | a slug is admitted exactly when it has 3 to 50 characters, each a lower-case ASCII letter, a digit or a hyphen |
| UserValidators.AdmittedSlugIsLowercase | ethicsgate-app/src/lib/validators/user.ts:8 | an admitted slug is unchanged by lower-casing |
| UserValidators.UppercaseSlugIssues | ethicsgate-app/src/lib/validators/user.ts:8 | "My-Org" raises only the character-class issue, with its custom message |
| UserValidators.OrganizationNameAdmitsIff | ethicsgate-app/src/lib/validators/user.ts:4 | an organisation name is admitted exactly when it has 2 to 100 characters |
| UserValidators.EmailAdmitsIff | ethicsgate-app/src/lib/validators/user.ts:9 | an email is admitted exactly when it is a string the email recogniser accepts |
| UserValidators.SignupPasswordAdmitsIff | ethicsgate-app/src/lib/validators/user.ts:10 | a signup password is admitted exactly when it has at least 8 characters; there is no upper bound |
| UserValidators.SignupPasswordPassesLogin | ethicsgate-app/src/lib/validators/user.ts:10-16 | every password admitted at signup is admitted at login |
| UserValidators.FullNameSameBounds | ethicsgate-app/src/lib/validators/user.ts:11-26 | signup, invite and a present update full name all admit exactly the names of 2 to 100 characters |
| UserValidators.RoleOptionsAreRoles | ethicsgate-app/src/lib/validators/user.ts:21 | the role enum lists exactly the UserRole wire names |
| UserValidators.RoleAdmitsIff | ethicsgate-app/src/lib/validators/user.ts:27 | a role is admitted exactly when it is a string naming a UserRole |
| UserValidators.SignupShapeExpansion | ethicsgate-app/src/lib/validators/user.ts:3-12 | the signup shape admits its input exactly when each of its five properties is admitted |
| UserValidators.SignupAcceptsIff | ethicsgate-app/src/lib/validators/user.ts:3-12 | signup accepts exactly an object with a valid organisation name, slug, email, password and full name |
| UserValidators.LoginAcceptsIff | ethicsgate-app/src/lib/validators/user.ts:14-17 | login accepts exactly an object with a valid email and a non-empty password |
| UserValidators.InviteAcceptsIff | ethicsgate-app/src/lib/validators/user.ts:19-23 | invite accepts exactly an object with a valid email, a UserRole name and a 2..100-character full name |
| UserValidators.UpdateFullNameAdmitsIff | ethicsgate-app/src/lib/validators/user.ts:26 | an update full name is admitted when absent or 2 to 100 characters long |
| UserValidators.AvatarAdmitsIff | ethicsgate-app/src/lib/validators/user.ts:28 | an avatar URL is admitted when absent, null, or a string the URL recogniser accepts |
| UserValidators.UpdateUserAcceptsIff | ethicsgate-app/src/lib/validators/user.ts:25-29 | update accepts exactly an object in which full name, role and avatar URL are each absent or valid |
| UserValidators.EmptyUserUpdateAccepted | ethicsgate-app/src/lib/validators/user.ts:25-29 | the update with no properties is accepted |
| StatusUtils.LookupOr | ethicsgate-app/src/lib/utils.ts:35 | `table[key] \|\| fallback` gives the fallback for a missing key and for a key mapped to the empty string, and the mapped value otherwise |
| StatusUtils.StatusColor | ethicsgate-app/src/lib/utils.ts:26-36 | an unmapped string gets "bg-zinc-500"; a mapped one gets its table colour |
| StatusUtils.StatusLabel | ethicsgate-app/src/lib/utils.ts:38-48 | an unmapped string is returned unchanged; a mapped one gets its table label |
| StatusUtils.TablesKeyedByStatuses | ethicsgate-app/src/lib/utils.ts:26-48 | both tables are keyed by exactly the six ProposalStatus wire names |
| StatusUtils.StatusLabelValues | ethicsgate-app/src/lib/utils.ts:39-47 | the label of each of the six statuses, e.g. under_review gives "Under Review", and the identity on non-statuses |
| StatusUtils.StatusLabelIdempotent | ethicsgate-app/src/lib/utils.ts:39-47 | labelling a label changes nothing, because no label is a key |
| StatusUtils.StatusLabelsDistinct | ethicsgate-app/src/lib/utils.ts:40-45 | different statuses get different labels |
| StatusUtils.StatusColorsDistinct | ethicsgate-app/src/lib/utils.ts:28-35 | different statuses get different colours, and draft shares its colour with every non-status |
| StatusBadge.ConfigTotal | ethicsgate-app/src/components/proposals/status-badge.tsx:10 | the badge table has an entry for every ProposalStatus |
| StatusBadge.Badge | ethicsgate-app/src/components/proposals/status-badge.tsx:37-52 | the badge text is the table label of the status; the table's class list and any caller class are passed on |
| StatusBadge.BadgeTexts | ethicsgate-app/src/components/proposals/status-badge.tsx:11-34 | the six badge texts Draft, Submitted, In Review, Approved, Not Approved, Revisions Needed, pairwise distinct |
| StatusBadge.BadgeAgreesWithStatusLabel | ethicsgate-app/src/components/proposals/status-badge.tsx:11-34 | the badge text equals getStatusLabel's exactly for draft, submitted and approved |
| Sidebar.FilterByRole | ethicsgate-app/src/components/layout/sidebar.tsx:50-52 | the filter keeps exactly the items that list the role, in their original order |
| Sidebar.FilterByRoleCounts | ethicsgate-app/src/components/layout/sidebar.tsx:50-52 | an item that lists the role occurs in the result as often as in the input; any other item does not occur |
| Sidebar.FilterConcat | ethicsgate-app/src/components/layout/sidebar.tsx:50-52 | filtering a concatenation is concatenating the filtered parts |
| Sidebar.FilterKeepsAll | ethicsgate-app/src/components/layout/sidebar.tsx:50-52 | a list whose every item lists the role is kept whole |
| Sidebar.FilterDropsAll | ethicsgate-app/src/components/layout/sidebar.tsx:50-52 | a list none of whose items lists the role filters to nothing |
| Sidebar.FilteredNav | ethicsgate-app/src/components/layout/sidebar.tsx:23-52 | the links shown for a role are exactly the navigation items listing it, in order |
| Sidebar.AdminNav | ethicsgate-app/src/components/layout/sidebar.tsx:23-52 | an admin sees Dashboard, Proposals, Team, Settings in that order |
| Sidebar.NonAdminNav | ethicsgate-app/src/components/layout/sidebar.tsx:23-52 | a reviewer or researcher sees exactly Dashboard and Proposals |
| Sidebar.ActiveHrefIsPrefix | ethicsgate-app/src/components/layout/sidebar.tsx:67 | an active link's href is a prefix of the pathname |
| Sidebar.AtMostOneActiveAmong | ethicsgate-app/src/components/layout/sidebar.tsx:67 | of two hrefs neither of which is a prefix of the other, no pathname activates both |
| Sidebar.AtMostOneNavActive | ethicsgate-app/src/components/layout/sidebar.tsx:23-67 | for every pathname at most one of the four navigation links is active |
| Sidebar.IsActiveExamples | ethicsgate-app/src/components/layout/sidebar.tsx:67 | "/proposals/abc" is active for "/proposals", "/proposalsx" is not |
| Sidebar.NavLinks | ethicsgate-app/src/components/layout/sidebar.tsx:66-84 | one rendered link per shown item, with its name and href, highlighted exactly when active |
| Sidebar.AtMostOneLinkActive | ethicsgate-app/src/components/layout/sidebar.tsx:66-84 | for every role and pathname, no two of the rendered links are highlighted at once |
| Header.Split | ethicsgate-app/src/components/layout/header.tsx:39 | split yields at least one piece and no piece holds the separator |
| Header.JoinSplit | ethicsgate-app/src/components/layout/header.tsx:39 | joining the pieces of a split with the same separator gives the string back |
| Header.SplitAppend | ethicsgate-app/src/components/layout/header.tsx:39 | a separator-free piece followed by the separator splits off as one piece |
| Header.SplitConcat | ethicsgate-app/src/components/layout/header.tsx:39 | splitting `a + sep + b` gives the pieces of `a` followed by the pieces of `b` |
| Header.Heads | ethicsgate-app/src/components/layout/header.tsx:40-41 | the joined first characters are no more than the pieces |
| Header.HeadsConcat | ethicsgate-app/src/components/layout/header.tsx:40-41 | the first characters of a concatenation of piece lists are those of each list, concatenated |
| Header.HeadsAreFirstLetters | ethicsgate-app/src/components/layout/header.tsx:40-41 | the joined first characters are the first letters of the non-empty pieces: an empty piece contributes nothing |
| Header.Prefix | ethicsgate-app/src/components/layout/header.tsx:43 | slice(0, n) keeps the first n elements, or all when there are fewer |
| Header.Initials | ethicsgate-app/src/components/layout/header.tsx:38-43 | the initials have at most two characters and no lower-case ASCII letter |
| Header.InitialsOfWords | ethicsgate-app/src/components/layout/header.tsx:38-43 | the initials are the upper-cased first characters of the first two non-empty space-separated pieces |
| Header.InitialsOfTwoWords | ethicsgate-app/src/components/layout/header.tsx:38-43 | two words and one space give the two upper-cased first letters |
| Header.InitialsIgnoreLeadingSpace | ethicsgate-app/src/components/layout/header.tsx:39-41 | a leading space changes nothing |
| Header.InitialsIgnoreRepeatedSpace | ethicsgate-app/src/components/layout/header.tsx:39-41 | for every name, a doubled space anywhere in it gives the same initials as a single space |
| Header.InitialsExamples | ethicsgate-app/src/components/layout/header.tsx:38-43 | "jane smith" gives "JS" and the empty name gives "" |
| Header.InitialsKeepFirstTwo | ethicsgate-app/src/components/layout/header.tsx:38-43 | after two leading words, whatever follows is dropped: the initials are the two upper-cased first letters |
| Header.InitialsKeepTwo | ethicsgate-app/src/components/layout/header.tsx:43 | "mary ann lee" gives "MA" |
| Header.Capitalize | ethicsgate-app/src/components/layout/header.tsx:45 | the result is as long as the input: its first character is upper-cased and the rest is unchanged |
| Header.RoleLabels | ethicsgate-app/src/components/layout/header.tsx:45 | the labels Researcher, Reviewer, Admin: each as long as its role name, and distinct |
| Header.View | ethicsgate-app/src/components/layout/header.tsx:47-79 | the header shows the organisation name, the user's name and email, initials of at most two characters, and a role label that starts upper-case and is as long as the role |

## Left out

- The page-level access gates: the proposal page computes who may view it and redirects anyone else (`ethicsgate-app/src/app/(dashboard)/proposals/[id]/page.tsx:43-51`). It also computes who may edit a draft, review a proposal under review, or assign reviewers to a submitted one (lines 66-68); those three redirect nobody and only show or hide the matching controls. The team and settings pages redirect non-admins. These gates are written inline against database rows fetched in the page, so they sit outside the modelled helpers and are not modelled.
- Rendering, styling and routing: the React components, the pages, and the proposal card. The card imports a `formatDistanceToNow` that utils.ts does not define.
- Supabase sign-out, router calls, toasts and the contact page's mailto and timer flow: these are I/O.
- The Tiptap editor wrapper: it sits on a library that is not part of this model.
- `cn`, `formatDate` and `formatDateTime`: these are wrappers over clsx, tailwind-merge and Intl. The badge model only lists the class names it hands to `cn`.
- zod's email, UUID and URL recognisers: they are parameters (`Zod.Recognisers`), so every statement holds for any recogniser.
- zod's default messages: such an issue's message is `None`. The issue's `expected` and `received` details are not modelled either.
- JSON numbers are integers: no schema looks at a number. Non-JSON inputs (`undefined` inside arrays, dates, functions) are not modelled.
- Strings are sequences of Dafny characters, not UTF-16 code units. This affects lengths, and also the header's indexing `n[0]` and `.slice(0, 2)`. For a name that starts with a character outside the Basic Multilingual Plane, JavaScript takes a lone surrogate, while `Heads` takes the whole character. Lengths of such text are also counted differently.
- Case mapping covers ASCII only: JavaScript's `toUpperCase` also maps other letters and can change a string's length.
- JavaScript prototype keys such as "constructor" in the `Record` lookups: the tables are finite maps.
- The compile-time `Database` insert and update typings, and the proposal, annotation, reply and review rows: none of the modelled helpers reads them, and they carry no behaviour. `Domain` keeps their enumerations and the two rows the header reads.
- Zod.FieldIssues: its contract says only where the issues lie. Whether any issue arises is stated by `Zod.FieldIssuesEmptyIff`. The exact codes and messages are stated only by the concrete lemmas.
- Header.View: its contract bounds the initials and the role label rather than restating them. Their exact values are stated by `Header.InitialsOfWords` and `Header.RoleLabels`.
