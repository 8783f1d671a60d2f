/** The proposal schemas (ethicsgate-app/src/lib/validators/proposal.ts) as zod shapes,
    with what each one accepts stated field by field. */
module ProposalValidators {
  import opened Wrappers
  import opened JsonValues
  import opened Domain
  import opened Zod

  const TitleChecks: seq<Check> := [
    MinLength(5, Some("Title must be at least 5 characters")),
    MaxLength(200, Some("Title must be less than 200 characters"))
  ]

  const StatusOptions: seq<string> :=
    ["draft", "submitted", "under_review", "approved", "rejected", "revise_and_resubmit"]

  const CreateProposal: Shape := [
    ("title", Str(TitleChecks)),
    ("content", Record)
  ]

  const UpdateProposal: Shape := [
    ("title", Optional(Str(TitleChecks))),
    ("content", Optional(Record)),
    ("status", Optional(Enum(StatusOptions))),
    ("assigned_reviewers", Optional(ArrayOf(Str([Matches(Uuid, None)]))))
  ]

  const SubmitProposal: Shape := [
    ("proposalId", Str([Matches(Uuid, None)]))
  ]

  /** A title property is admitted exactly when it is a string of 5 to 200 characters, both inclusive. */
  predicate TitleOk(v: Option<Json>)
  {
    v.Some? && v.value.JString? && 5 <= |v.value.s| <= 200
  }

  lemma TitleAdmitsIff(rec: Recognisers, v: Option<Json>)
    ensures Admits(rec, Str(TitleChecks), v) <==> TitleOk(v)
  {
    if v.Some? && v.value.JString? {
      var s := v.value.s;
      if 5 <= |s| <= 200 {
        forall i | 0 <= i < |TitleChecks| ensures CheckHolds(rec, TitleChecks[i], s) {}
      } else {
        assert !CheckHolds(rec, TitleChecks[0], s) || !CheckHolds(rec, TitleChecks[1], s);
      }
    }
  }

  /** The six status strings of the enum are exactly the wire names of `ProposalStatus`. */
  lemma StatusOptionsAreStatuses(s: string)
    ensures s in StatusOptions <==> ParseStatus(s).Some?
  {
  }

  lemma CreateShapeAdmitsIff(rec: Recognisers, fields: map<string, Json>)
    ensures ShapeAdmits(rec, CreateProposal, fields) <==>
      TitleOk(Lookup(fields, "title")) && ContentOk(Lookup(fields, "content"))
  {
    TitleAdmitsIff(rec, Lookup(fields, "title"));
    assert CreateProposal[0] == ("title", Str(TitleChecks));
    assert CreateProposal[1] == ("content", Record);
  }

  /** `createProposalSchema` accepts exactly an object with a 5..200-character string
      title and an object content; any object content will do. */
  lemma CreateAcceptsIff(rec: Recognisers, input: Json)
    ensures Accepts(rec, CreateProposal, input) <==>
      input.JObject? && TitleOk(Lookup(input.fields, "title")) && ContentOk(Lookup(input.fields, "content"))
  {
    AcceptsIff(rec, CreateProposal, input);
    if input.JObject? { CreateShapeAdmitsIff(rec, input.fields); }
  }

  predicate ContentOk(v: Option<Json>)
  {
    v.Some? && v.value.JObject?
  }

  predicate StatusOk(v: Option<Json>)
  {
    v.Some? && v.value.JString? && ParseStatus(v.value.s).Some?
  }

  /** An array whose every element is a string the UUID recogniser accepts. */
  predicate ReviewersOk(rec: Recognisers, v: Option<Json>)
  {
    v.Some? && v.value.JArray? &&
    forall k :: 0 <= k < |v.value.items| ==> v.value.items[k].JString? && rec.isUuid(v.value.items[k].s)
  }

  /** The member-wise meaning of `updateProposalSchema`: each property may be absent;
      when present, the title obeys the create rule, the content is an object, the status
      is one of the six `ProposalStatus` names, and `assigned_reviewers` is an array of
      UUID strings. Nothing refers to the proposal's current status. */
  predicate UpdateOk(rec: Recognisers, fields: map<string, Json>)
  {
    var title := Lookup(fields, "title");
    var content := Lookup(fields, "content");
    var status := Lookup(fields, "status");
    var reviewers := Lookup(fields, "assigned_reviewers");
    && (title.None? || TitleOk(title))
    && (content.None? || ContentOk(content))
    && (status.None? || StatusOk(status))
    && (reviewers.None? || ReviewersOk(rec, reviewers))
  }

  lemma StatusAdmitsIff(rec: Recognisers, v: Option<Json>)
    ensures Admits(rec, Enum(StatusOptions), v) <==> StatusOk(v)
  {
    if v.Some? && v.value.JString? { StatusOptionsAreStatuses(v.value.s); }
  }

  lemma UuidAdmitsIff(rec: Recognisers, v: Json)
    ensures Admits(rec, Str([Matches(Uuid, None)]), Some(v)) <==> v.JString? && rec.isUuid(v.s)
  {
    if v.JString? {
      assert [Matches(Uuid, None)][0] == Matches(Uuid, None);
    }
  }

  lemma ReviewersAdmitsIff(rec: Recognisers, v: Option<Json>)
    ensures Admits(rec, ArrayOf(Str([Matches(Uuid, None)])), v) <==> ReviewersOk(rec, v)
  {
    if v.Some? && v.value.JArray? {
      forall k | 0 <= k < |v.value.items| {
        UuidAdmitsIff(rec, v.value.items[k]);
      }
    }
  }

  lemma UpdateShapeAdmitsIff(rec: Recognisers, fields: map<string, Json>)
    ensures ShapeAdmits(rec, UpdateProposal, fields) <==> UpdateOk(rec, fields)
  {
    var title, content := Lookup(fields, "title"), Lookup(fields, "content");
    var status, reviewers := Lookup(fields, "status"), Lookup(fields, "assigned_reviewers");
    TitleAdmitsIff(rec, title);
    StatusAdmitsIff(rec, status);
    ReviewersAdmitsIff(rec, reviewers);
    assert ShapeAdmits(rec, UpdateProposal, fields) <==>
      && Admits(rec, Optional(Str(TitleChecks)), title)
      && Admits(rec, Optional(Record), content)
      && Admits(rec, Optional(Enum(StatusOptions)), status)
      && Admits(rec, Optional(ArrayOf(Str([Matches(Uuid, None)]))), reviewers)
    by {
      assert UpdateProposal[0] == ("title", Optional(Str(TitleChecks)));
      assert UpdateProposal[1] == ("content", Optional(Record));
      assert UpdateProposal[2] == ("status", Optional(Enum(StatusOptions)));
      assert UpdateProposal[3] == ("assigned_reviewers", Optional(ArrayOf(Str([Matches(Uuid, None)]))));
    }
  }

  lemma UpdateAcceptsIff(rec: Recognisers, input: Json)
    ensures Accepts(rec, UpdateProposal, input) <==> input.JObject? && UpdateOk(rec, input.fields)
  {
    AcceptsIff(rec, UpdateProposal, input);
    if input.JObject? { UpdateShapeAdmitsIff(rec, input.fields); }
  }

  /** An update object with no properties at all is accepted. */
  lemma EmptyUpdateAccepted(rec: Recognisers)
    ensures Accepts(rec, UpdateProposal, JObject(map[]))
  {
    UpdateAcceptsIff(rec, JObject(map[]));
  }

  /** An update that sets only the status is accepted for every status. The schema takes
      no current status, so no transition is ever refused. */
  lemma UpdateAcceptsAnyStatus(rec: Recognisers, to: ProposalStatus)
    ensures Accepts(rec, UpdateProposal, JObject(map["status" := JString(StatusName(to))]))
  {
    var fields := map["status" := JString(StatusName(to))];
    assert ParseStatus(StatusName(to)) == Some(to);
    assert Lookup(fields, "title").None?;
    assert Lookup(fields, "content").None?;
    assert Lookup(fields, "assigned_reviewers").None?;
    UpdateAcceptsIff(rec, JObject(fields));
  }

  /** An empty reviewer list is accepted on update. */
  lemma EmptyReviewersAccepted(rec: Recognisers)
    ensures Accepts(rec, UpdateProposal, JObject(map["assigned_reviewers" := JArray([])]))
  {
    var fields := map["assigned_reviewers" := JArray([])];
    assert Lookup(fields, "title").None?;
    assert Lookup(fields, "content").None?;
    assert Lookup(fields, "status").None?;
    UpdateAcceptsIff(rec, JObject(fields));
  }

  /** Whatever the create schema accepts, the update schema accepts too, provided the
      input carries no status and no reviewer list (the properties only update has). */
  lemma CreateInputValidForUpdate(rec: Recognisers, input: Json)
    requires Accepts(rec, CreateProposal, input)
    requires input.JObject? && "status" !in input.fields && "assigned_reviewers" !in input.fields
    ensures Accepts(rec, UpdateProposal, input)
  {
    CreateAcceptsIff(rec, input);
    UpdateAcceptsIff(rec, input);
  }

  /** `submitProposalSchema` accepts exactly an object whose `proposalId` is a UUID string. */
  lemma SubmitAcceptsIff(rec: Recognisers, input: Json)
    ensures Accepts(rec, SubmitProposal, input) <==>
      input.JObject? && Lookup(input.fields, "proposalId").Some?
      && Lookup(input.fields, "proposalId").value.JString?
      && rec.isUuid(Lookup(input.fields, "proposalId").value.s)
  {
    AcceptsIff(rec, SubmitProposal, input);
    if input.JObject? {
      assert SubmitProposal[0] == ("proposalId", Str([Matches(Uuid, None)]));
      var v := Lookup(input.fields, "proposalId");
      if v.Some? && v.value.JString? {
        assert AllChecksHold(rec, [Matches(Uuid, None)], v.value.s) <==> rec.isUuid(v.value.s) by {
          assert [Matches(Uuid, None)][0] == Matches(Uuid, None);
        }
      }
    }
  }

  function CreateInput(title: string): Json
  {
    JObject(map["title" := JString(title), "content" := JObject(map[])])
  }

  /** The title boundaries: 4 characters fail with the custom minimum message as the
      only issue, 5 and 200 pass, 201 fails with the maximum message (which says "less
      than 200" although 200 itself is accepted). */
  lemma TitleBoundaries(rec: Recognisers, t200: string, t201: string)
    requires |t200| == 200 && |t201| == 201
    ensures ObjectIssues(rec, CreateProposal, CreateInput("Shor"))
            == [Issue([Key("title")], TooSmall(5), Some("Title must be at least 5 characters"))]
    ensures Accepts(rec, CreateProposal, CreateInput("Short"))
    ensures Accepts(rec, CreateProposal, CreateInput(t200))
    ensures ObjectIssues(rec, CreateProposal, CreateInput(t201))
            == [Issue([Key("title")], TooBig(200), Some("Title must be less than 200 characters"))]
  {
    CreateAcceptsIff(rec, CreateInput("Short"));
    CreateAcceptsIff(rec, CreateInput(t200));
    CreateTitleIssues(rec, "Shor");
    CreateTitleIssues(rec, t201);
  }

  /** With an object content, the create issues are exactly the title's check issues. */
  lemma CreateTitleIssues(rec: Recognisers, t: string)
    ensures ObjectIssues(rec, CreateProposal, CreateInput(t)) == CheckIssues(rec, [Key("title")], TitleChecks, t)
  {
    var fields := CreateInput(t).fields;
    assert Lookup(fields, "title") == Some(JString(t));
    assert Lookup(fields, "content") == Some(JObject(map[]));
    assert CreateProposal[1..] == [("content", Record)];
    assert ShapeIssues(rec, [("content", Record)], fields) == [] by {
      assert [("content", Record)][1..] == [];
    }
  }
}
