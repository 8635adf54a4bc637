/** Stage-progression tracking (app/handlers.py): which label events concern a stage, which
    stage they name, and how the tracking issue's body is rewritten. The GitHub calls the
    update makes are inputs: the installation lookup, the token exchange and the search. */
module Handlers {
  import opened Common
  import Text
  import Auth

  const StagePrefix: string := "stage:"

  /** `STAGE_LABELS`: the display name of each known stage label. */
  const StageLabels: map<string, string> := map[
    "stage:initiation" := "Initiation",
    "stage:protocol-development" := "Protocol Development",
    "stage:phenotype-development" := "Phenotype Development",
    "stage:analysis-specifications" := "Analysis Specifications",
    "stage:network-execution" := "Network Execution",
    "stage:results-evaluation" := "Results Evaluation"
  ]

  predicate IsStageLabel(name: string) {
    Text.StartsWith(name, StagePrefix)
  }

  /** `STAGE_LABELS.get(label, label)`. */
  function StageName(labelName: string): (r: string)
    ensures labelName in StageLabels ==> r in StageLabels.Values
    ensures labelName !in StageLabels ==> r == labelName
  {
    if labelName in StageLabels then StageLabels[labelName] else labelName
  }

  /** The table and the filter agree: every known stage label passes the `stage:` test, and
      a label outside the table is its own stage name. */
  lemma StageNameFallsBack(labelName: string)
    ensures labelName in StageLabels ==> IsStageLabel(labelName) && StageName(labelName) == StageLabels[labelName]
    ensures labelName !in StageLabels ==> StageName(labelName) == labelName
  {
  }

  datatype Status = Started | Completed {
    function Word(): string {
      match this
      case Started => "started"
      case Completed => "completed"
    }
  }

  /** A call `update_factory_tracking(study_repo, stage_name, status)`. */
  datatype TrackingRequest = TrackingRequest(studyRepo: string, stage: string, status: Status)

  /** `handle_issue_labeled`: a stage label that was added starts that stage; any other
      label changes nothing. Missing fields read as "". */
  function HandleIssueLabeled(labelName: Option<string>, repoFullName: Option<string>)
    : (r: Option<TrackingRequest>)
    ensures r.Some? <==> IsStageLabel(labelName.GetOr(""))
    ensures r.Some? ==>
              && r.value.status == Started
              && r.value.stage == StageName(labelName.value)
              && r.value.studyRepo == repoFullName.GetOr("")
  {
    var name := labelName.GetOr("");
    if !IsStageLabel(name) then None
    else Some(TrackingRequest(repoFullName.GetOr(""), StageName(name), Started))
  }

  /** The list comprehension `[l for l in labels if l.get("name", "").startswith("stage:")]`,
      on the label names. */
  function StageLabelNames(names: seq<string>): (r: seq<string>)
    ensures forall k :: 0 <= k < |r| ==> IsStageLabel(r[k])
    decreases |names|
  {
    if |names| == 0 then []
    else if IsStageLabel(names[0]) then [names[0]] + StageLabelNames(names[1..])
    else StageLabelNames(names[1..])
  }

  /** The filter keeps a stage label exactly when there is one, and puts the first one first. */
  lemma {:induction false} FirstStageLabel(names: seq<string>)
    ensures |StageLabelNames(names)| > 0 <==> exists i :: 0 <= i < |names| && IsStageLabel(names[i])
    ensures |StageLabelNames(names)| > 0 ==>
              exists i :: 0 <= i < |names| && IsStageLabel(names[i])
                          && (forall j :: 0 <= j < i ==> !IsStageLabel(names[j]))
                          && StageLabelNames(names)[0] == names[i]
    decreases |names|
  {
    if |names| > 0 {
      FirstStageLabel(names[1..]);
      if !IsStageLabel(names[0]) {
        if exists i :: 0 <= i < |names| && IsStageLabel(names[i]) {
          var i :| 0 <= i < |names| && IsStageLabel(names[i]);
          assert IsStageLabel(names[1..][i - 1]);
        }
        if |StageLabelNames(names)| > 0 {
          var i :| 0 <= i < |names[1..]| && IsStageLabel(names[1..][i])
                   && (forall j :: 0 <= j < i ==> !IsStageLabel(names[1..][j]))
                   && StageLabelNames(names[1..])[0] == names[1..][i];
          forall j | 1 <= j <= i ensures !IsStageLabel(names[j]) {
            assert names[j] == names[1..][j - 1];
          }
          assert IsStageLabel(names[i + 1]) && StageLabelNames(names)[0] == names[i + 1];
        }
      } else {
        assert StageLabelNames(names)[0] == names[0];
      }
    }
  }

  function LabelNames(labels: seq<Option<string>>): (r: seq<string>)
    ensures |r| == |labels|
    ensures forall k :: 0 <= k < |labels| ==> r[k] == labels[k].GetOr("")
    decreases |labels|
  {
    if |labels| == 0 then [] else [labels[0].GetOr("")] + LabelNames(labels[1..])
  }

  /** `handle_issue_closed`: the first stage label of the closed issue is completed; an issue
      without one changes nothing. `labels` holds each label's `name` field. */
  function HandleIssueClosed(labels: seq<Option<string>>, repoFullName: Option<string>)
    : (r: Option<TrackingRequest>)
    ensures |labels| == 0 ==> r == None
    ensures r.Some? ==> r.value.status == Completed && r.value.studyRepo == repoFullName.GetOr("")
  {
    var stageLabels := StageLabelNames(LabelNames(labels));
    if |stageLabels| == 0 then None
    else Some(TrackingRequest(repoFullName.GetOr(""), StageName(stageLabels[0]), Completed))
  }

  /** A closed issue completes the stage of its first stage label, and only an issue that has
      a stage label leads to an update. */
  lemma ClosedUsesFirstStageLabel(labels: seq<Option<string>>, repoFullName: Option<string>)
    ensures HandleIssueClosed(labels, repoFullName).Some?
            <==> exists i :: 0 <= i < |labels| && IsStageLabel(labels[i].GetOr(""))
    ensures HandleIssueClosed(labels, repoFullName).Some? ==>
              exists i :: 0 <= i < |labels| && IsStageLabel(labels[i].GetOr(""))
                          && (forall j :: 0 <= j < i ==> !IsStageLabel(labels[j].GetOr("")))
                          && HandleIssueClosed(labels, repoFullName).value
                             == TrackingRequest(repoFullName.GetOr(""), StageName(labels[i].GetOr("")), Completed)
  {
    var names := LabelNames(labels);
    FirstStageLabel(names);
    if |StageLabelNames(names)| > 0 {
      var i :| && 0 <= i < |names| && IsStageLabel(names[i])
               && (forall j :: 0 <= j < i ==> !IsStageLabel(names[j]))
               && StageLabelNames(names)[0] == names[i];
      assert names[i] == labels[i].GetOr("");
      assert forall j :: 0 <= j < i ==> !IsStageLabel(labels[j].GetOr("")) by {
        forall j | 0 <= j < i
          ensures !IsStageLabel(labels[j].GetOr(""))
        {
          assert names[j] == labels[j].GetOr("");
        }
      }
    } else {
      forall i | 0 <= i < |labels|
        ensures !IsStageLabel(labels[i].GetOr(""))
      {
        assert names[i] == labels[i].GetOr("");
      }
    }
  }

  // The body rewrite of update_factory_tracking.

  function OpenBox(stage: string): string { "- [ ] " + stage }
  function TickedBox(stage: string): string { "- [x] " + stage }

  const ActivityMarker: string := "Last updated:"

  /** The text that replaces each `Last updated:` marker. */
  function ActivityText(timestamp: string, stage: string, status: Status): string {
    "Last updated: " + timestamp + "\nLast stage: " + stage + " (" + status.Word() + ")\nPrevious:"
  }

  /** The checklist step: a completed stage has its open boxes ticked. A ticked box is as long
      as an open one, so the body keeps its length. */
  function TickStage(body: string, stage: string, status: Status): (r: string)
    ensures |r| == |body|
    ensures !Text.Contains(body, OpenBox(stage)) ==> r == body
  {
    if status == Completed then
      var open, ticked := OpenBox(stage), TickedBox(stage);
      Text.ReplaceKeepsLength(body, open, ticked);
      assert open[3] != ticked[3];
      Text.ReplaceUnchangedIff(body, open, ticked);
      Text.ReplaceAll(body, open, ticked)
    else body
  }

  /** The new body of the tracking issue; a `null` body reads as "". */
  function RewriteBody(body: Option<string>, stage: string, status: Status, timestamp: string): (r: string)
    ensures var ticked := TickStage(body.GetOr(""), stage, status);
            !Text.Contains(ticked, ActivityMarker) ==> r == ticked
  {
    var ticked := TickStage(body.GetOr(""), stage, status);
    var text := ActivityText(timestamp, stage, status);
    assert |text| > |ActivityMarker|;
    Text.ReplaceUnchangedIff(ticked, ActivityMarker, text);
    Text.ReplaceAll(ticked, ActivityMarker, text)
  }

  /** Completing a stage replaces every non-overlapping open box of that stage, scanning from
      the left, by a ticked one, and keeps the text in between; the body changes exactly when
      it holds such a box. Starting a stage leaves the checklist alone. */
  lemma TickStageSpec(body: string, stage: string, status: Status)
    ensures status == Started ==> TickStage(body, stage, status) == body
    ensures status == Completed ==>
              && TickStage(body, stage, status) == Text.Join(Text.Split(body, OpenBox(stage)), TickedBox(stage))
              && Text.Join(Text.Split(body, OpenBox(stage)), OpenBox(stage)) == body
              && (TickStage(body, stage, status) == body <==> !Text.Contains(body, OpenBox(stage)))
  {
    if status == Completed {
      Text.ReplaceAllIsJoinSplit(body, OpenBox(stage), TickedBox(stage));
      Text.JoinSplit(body, OpenBox(stage));
      assert OpenBox(stage)[3] != TickedBox(stage)[3];
      Text.ReplaceUnchangedIff(body, OpenBox(stage), TickedBox(stage));
    }
  }

  /** Every `Last updated:` marker becomes the activity text, and a body without the marker
      keeps its text through this step. */
  lemma ActivityStepSpec(text: string, stage: string, status: Status, timestamp: string)
    ensures Text.ReplaceAll(text, ActivityMarker, ActivityText(timestamp, stage, status))
            == Text.Join(Text.Split(text, ActivityMarker), ActivityText(timestamp, stage, status))
    ensures Text.ReplaceAll(text, ActivityMarker, ActivityText(timestamp, stage, status)) == text
            <==> !Text.Contains(text, ActivityMarker)
  {
    var rep := ActivityText(timestamp, stage, status);
    Text.ReplaceAllIsJoinSplit(text, ActivityMarker, rep);
    assert |rep| > |ActivityMarker|;
    Text.ReplaceUnchangedIff(text, ActivityMarker, rep);
  }

  /** A body with neither an open box of a completed stage nor the marker is left unchanged,
      and a `null` body becomes the empty body. */
  lemma RewriteWithoutMarkers(body: string, stage: string, status: Status, timestamp: string)
    requires !Text.Contains(body, ActivityMarker)
    requires status == Completed ==> !Text.Contains(body, OpenBox(stage))
    ensures RewriteBody(Some(body), stage, status, timestamp) == body
    ensures RewriteBody(None, stage, status, timestamp) == ""
  {
    TickStageSpec(body, stage, status);
    ActivityStepSpec(body, stage, status, timestamp);
  }

  /** One search hit: the issue number and its body (`None` for JSON null). */
  datatype IssueHit = IssueHit(number: int, body: Option<string>)

  /** GitHub's reply to the issue search. */
  datatype SearchReply = SearchReply(status: int, totalCount: Option<int>, items: seq<IssueHit>)
                       | SearchUnreachable

  /** What `update_factory_tracking` ends with: no PATCH for one of its early exits or
      because a step raised (`Failed`, caught and logged), or the PATCH it sends. */
  datatype TrackingOutcome =
    | NotConfigured
    | NoInstallation
    | NoTrackingIssue
    | Failed
    | Patched(repo: string, issueNumber: int, body: string)

  /** `update_factory_tracking`. `installation` is what `get_app_installation_id` returned
      (or raised), `token` what `get_installation_token` returned (or raised), `search` the
      reply to the issue search and `timestamp` the formatted current time. */
  function UpdateFactoryTracking(factoryRepo: string, request: TrackingRequest,
                                 installation: Result<Option<string>, Auth.AuthError>,
                                 token: Result<string, Auth.AuthError>,
                                 search: SearchReply, timestamp: string): (r: TrackingOutcome)
    ensures r.Patched? <==>
              && factoryRepo != ""
              && installation.Ok? && installation.value.Some? && installation.value.value != ""
              && token.Ok?
              && search.SearchReply? && Auth.IsSuccess(search.status)
              && search.totalCount.GetOr(0) != 0 && |search.items| > 0
    ensures r.Patched? ==>
              && r.repo == factoryRepo
              && r.issueNumber == search.items[0].number
              && r.body == RewriteBody(search.items[0].body, request.stage, request.status, timestamp)
  {
    if factoryRepo == "" then NotConfigured
    else if installation.Err? then Failed
    else if installation.value.None? || installation.value.value == "" then NoInstallation
    else if token.Err? then Failed
    else if search.SearchUnreachable? || !Auth.IsSuccess(search.status) then Failed
    else if search.totalCount.GetOr(0) == 0 then NoTrackingIssue
    else if |search.items| == 0 then Failed
    else
      var hit := search.items[0];
      Patched(factoryRepo, hit.number, RewriteBody(hit.body, request.stage, request.status, timestamp))
  }

  /** The three documented early exits send no PATCH: no factory repository configured, no
      installation for it, or a search that found nothing. */
  lemma NoPatchOnEarlyExit(factoryRepo: string, request: TrackingRequest,
                           installation: Result<Option<string>, Auth.AuthError>,
                           token: Result<string, Auth.AuthError>,
                           search: SearchReply, timestamp: string)
    requires || factoryRepo == ""
             || installation == Ok(None)
             || (search.SearchReply? && search.totalCount.GetOr(0) == 0)
    ensures !UpdateFactoryTracking(factoryRepo, request, installation, token, search, timestamp).Patched?
  {
  }

  /** Any installation id that the resolver returns is accepted by the `not installation_id`
      test: only `None` means "no installation". */
  lemma ResolvedInstallationIsUsed(appId: string, privateKeyPath: string, key: Auth.KeyFile,
                                   now: int, reply: Auth.InstallationReply)
    ensures var r := Auth.GetAppInstallationId(appId, privateKeyPath, key, now, reply);
            r.Ok? && r.value.Some? ==> r.value.value != ""
  {
  }

  /** The labeled and closed events of the test suite: both name the stage label
      `stage:protocol-development` of `test-org/study-test`. */
  lemma ProtocolDevelopmentScenario()
    ensures HandleIssueLabeled(Some("stage:protocol-development"), Some("test-org/study-test"))
         == Some(TrackingRequest("test-org/study-test", "Protocol Development", Started))
    ensures HandleIssueClosed([Some("stage:protocol-development")], Some("test-org/study-test"))
         == Some(TrackingRequest("test-org/study-test", "Protocol Development", Completed))
  {
    assert IsStageLabel("stage:protocol-development");
    assert LabelNames([Some("stage:protocol-development")]) == ["stage:protocol-development"];
    assert StageLabelNames(["stage:protocol-development"]) == ["stage:protocol-development"];
  }
}
