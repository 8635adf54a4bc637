/** The workflow security-policy validator (tools/validate_workflows.py). Each check walks an
    already-loaded workflow with loops, as the script does, and is proved equal to a
    function that specifies it; the properties of the policy are lemmas about those
    functions. A Python exception inside a check is the `Raised` outcome. */
module ValidateWorkflows {
  import opened Common
  import opened PyValue
  import Text

  const ForbiddenPermissions: seq<string> := ["write-all", "admin"]
  const RequiredPinOrgs: seq<string> := ["actions", "github", "docker"]
  const DangerousEvents: seq<string> := ["pull_request_target", "workflow_run"]
  const SuspiciousPatterns: seq<string> := ["sk-", "api_key:", "password:", "token:", "secret:", "AKIA"]

  /** One line of the report, without its wording. Steps are numbered from 1. */
  datatype Finding =
    | ForbiddenAtWorkflow(permission: string)
    | ForbiddenInJob(permission: string, job: Value)
    | ShouldBeShaPinned(action: string, job: Value, step: nat)
    | NotPinned(action: string, job: Value, step: nat)
    | DangerousTrigger(trigger: string)
    | PotentialSecret(pattern: string)
    | InvalidYaml
    | ReadError

  // ---------------------------------------------------------------------------------------
  // check_permissions

  predicate IsForbidden(v: Value) {
    v.Str? && v.s in ForbiddenPermissions
  }

  /** `"permissions" in v` and, when it is, `v["permissions"]`. */
  function DeclaredPermissions(v: Value): Outcome<Option<Value>> {
    var has :- In("permissions", v);
    if !has then Returned(None)
    else
      var p :- GetItem(v, "permissions");
      Returned(Some(p))
  }

  function WorkflowPermissionFindings(w: Value): Outcome<seq<Finding>> {
    var p :- DeclaredPermissions(w);
    Returned(if p.Some? && IsForbidden(p.value) then [ForbiddenAtWorkflow(p.value.s)] else [])
  }

  function JobPermissionFindings(name: Value, job: Value): Outcome<seq<Finding>> {
    var p :- DeclaredPermissions(job);
    Returned(if p.Some? && IsForbidden(p.value) then [ForbiddenInJob(p.value.s, name)] else [])
  }

  function JobsPermissionFindings(jobs: seq<(Value, Value)>): Outcome<seq<Finding>>
    decreases |jobs|
  {
    if |jobs| == 0 then Returned([])
    else
      var here :- JobPermissionFindings(jobs[0].0, jobs[0].1);
      Then(here, JobsPermissionFindings(jobs[1..]))
  }

  /** The entries of `workflow["jobs"]`, or none when there is no `jobs` key. */
  function JobEntries(w: Value): Outcome<seq<(Value, Value)>> {
    var has :- In("jobs", w);
    if !has then Returned([])
    else
      var jobs :- GetItem(w, "jobs");
      Items(jobs)
  }

  function PermissionFindings(w: Value): Outcome<seq<Finding>> {
    var top :- WorkflowPermissionFindings(w);
    var jobs :- JobEntries(w);
    Then(top, JobsPermissionFindings(jobs))
  }

  lemma UnfoldJobsPermission(jobs: seq<(Value, Value)>, i: nat)
    requires i < |jobs|
    ensures JobsPermissionFindings(jobs[i..])
         == match JobPermissionFindings(jobs[i].0, jobs[i].1)
            case Raised => Raised
            case Returned(here) => Then(here, JobsPermissionFindings(jobs[i + 1..]))
  {
    assert jobs[i..][1..] == jobs[i + 1..];
  }

  method CheckPermissions(w: Value) returns (r: Outcome<seq<Finding>>)
    ensures r == PermissionFindings(w)
  {
    var issues: seq<Finding> := [];
    var top := DeclaredPermissions(w);
    if top.Raised? {
      return Raised;
    }
    if top.value.Some? && IsForbidden(top.value.value) {
      issues := [ForbiddenAtWorkflow(top.value.value.s)];
    }
    var jobs := JobEntries(w);
    if jobs.Raised? {
      return Raised;
    }
    assert WorkflowPermissionFindings(w) == Returned(issues);
    r := CheckJobPermissions(jobs.value, issues);
  }

  /** The loop `for job_name, job in jobs.items()`, appending to the list `issues` built so far. */
  method CheckJobPermissions(jobs: seq<(Value, Value)>, issues0: seq<Finding>) returns (r: Outcome<seq<Finding>>)
    ensures r == Then(issues0, JobsPermissionFindings(jobs))
  {
    var issues := issues0;
    assert jobs[0..] == jobs;
    var i := 0;
    while i < |jobs|
      invariant 0 <= i <= |jobs|
      invariant Then(issues0, JobsPermissionFindings(jobs)) == Then(issues, JobsPermissionFindings(jobs[i..]))
    {
      var entry := jobs[i];
      UnfoldJobsPermission(jobs, i);
      var p := DeclaredPermissions(entry.1);
      if p.Raised? {
        return Raised;
      }
      var here: seq<Finding> := [];
      if p.value.Some? && IsForbidden(p.value.value) {
        here := [ForbiddenInJob(p.value.value.s, entry.0)];
      }
      ThenAssociative(issues, here, JobsPermissionFindings(jobs[i + 1..]));
      issues := issues + here;
      i := i + 1;
    }
    assert jobs[i..] == [] && issues + [] == issues;
    return Returned(issues);
  }

  // ---------------------------------------------------------------------------------------
  // check_action_pinning

  predicate IsHexChar(c: char) {
    '0' <= c <= '9' || 'a' <= c <= 'f' || 'A' <= c <= 'F'
  }

  /** 40 hexadecimal characters, in either case (`ref.lower()` must consist of 0-9 and a-f). */
  predicate IsFullSha(ref: string) {
    |ref| == 40 && forall k :: 0 <= k < |ref| ==> IsHexChar(ref[k])
  }

  /** `action.split("@")[1]`: the text between the first `@` and the next one (or the end). */
  function PinnedRef(action: string): string
    requires Text.Contains(action, "@")
  {
    Text.ContainsIffFound(action, "@");
    Text.Split(action, "@")[1]
  }

  /** A ref the policy accepts: a full commit SHA or a version tag. */
  predicate AcceptableRef(ref: string) {
    IsFullSha(ref) || Text.StartsWith(ref, "v")
  }

  /** The test an action of an organisation that must be pinned goes through. */
  function RefCheck(action: string, job: Value, step: nat): seq<Finding> {
    if !Text.Contains(action, "@") then [NotPinned(action, job, step)]
    else if AcceptableRef(PinnedRef(action)) then []
    else [ShouldBeShaPinned(action, job, step)]
  }

  /** The body of `for org in REQUIRED_PIN_ORGS` for one organisation. */
  function OrgFinding(action: string, org: string, job: Value, step: nat): seq<Finding> {
    if !Text.StartsWith(action, org + "/") then [] else RefCheck(action, job, step)
  }

  function OrgFindings(action: string, orgs: seq<string>, job: Value, step: nat): seq<Finding>
    decreases |orgs|
  {
    if |orgs| == 0 then [] else OrgFinding(action, orgs[0], job, step) + OrgFindings(action, orgs[1..], job, step)
  }

  /** The findings for one step (`step` is its 1-based number). A `uses` value that is not a
      string raises at `action.startswith`. */
  function StepFindings(job: Value, step: Value, number: nat): Outcome<seq<Finding>> {
    var has :- In("uses", step);
    if !has then Returned([])
    else
      var action :- GetItem(step, "uses");
      if !action.Str? then Raised else Returned(OrgFindings(action.s, RequiredPinOrgs, job, number))
  }

  /** The findings for `steps`, the first of which is step number `first`. */
  function StepsFindings(job: Value, steps: seq<Value>, first: nat): Outcome<seq<Finding>>
    decreases |steps|
  {
    if |steps| == 0 then Returned([])
    else
      var here :- StepFindings(job, steps[0], first);
      Then(here, StepsFindings(job, steps[1..], first + 1))
  }

  /** The steps `for i, step in enumerate(job["steps"])` visits, or none without `steps`. */
  function JobSteps(job: Value): Outcome<seq<Value>> {
    var has :- In("steps", job);
    if !has then Returned([])
    else
      var steps :- GetItem(job, "steps");
      Iterate(steps)
  }

  function JobPinningFindings(name: Value, job: Value): Outcome<seq<Finding>> {
    var steps :- JobSteps(job);
    StepsFindings(name, steps, 1)
  }

  function JobsPinningFindings(jobs: seq<(Value, Value)>): Outcome<seq<Finding>>
    decreases |jobs|
  {
    if |jobs| == 0 then Returned([])
    else
      var here :- JobPinningFindings(jobs[0].0, jobs[0].1);
      Then(here, JobsPinningFindings(jobs[1..]))
  }

  function PinningFindings(w: Value): Outcome<seq<Finding>> {
    var jobs :- JobEntries(w);
    JobsPinningFindings(jobs)
  }

  /** One pass of the loop body: a step whose action belongs to `org` must carry a ref, and
      that ref must be a full SHA or a tag. */
  method CheckOrg(action: string, org: string, job: Value, step: nat) returns (here: seq<Finding>)
    ensures here == OrgFinding(action, org, job, step)
  {
    here := [];
    if Text.StartsWith(action, org + "/") {
      if Text.Contains(action, "@") {
        var ref := PinnedRef(action);
        if !IsFullSha(ref) {
          if !Text.StartsWith(ref, "v") {
            here := [ShouldBeShaPinned(action, job, step)];
          }
        }
      } else {
        here := [NotPinned(action, job, step)];
      }
    }
  }

  /** The loop `for org in REQUIRED_PIN_ORGS` for one step's action (`orgs` is that list). */
  method CheckOrgs(action: string, orgs: seq<string>, job: Value, step: nat) returns (found: seq<Finding>)
    ensures found == OrgFindings(action, orgs, job, step)
  {
    found := [];
    var k := 0;
    while k < |orgs|
      invariant 0 <= k <= |orgs|
      invariant OrgFindings(action, orgs, job, step) == found + OrgFindings(action, orgs[k..], job, step)
    {
      var here := CheckOrg(action, orgs[k], job, step);
      UnfoldOrgs(action, orgs, k, job, step, found);
      found := found + here;
      k := k + 1;
    }
    assert orgs[k..] == [] && found + [] == found;
  }

  lemma UnfoldOrgs(action: string, orgs: seq<string>, k: nat, job: Value, step: nat, found: seq<Finding>)
    requires k < |orgs|
    ensures found + OrgFindings(action, orgs[k..], job, step)
         == (found + OrgFinding(action, orgs[k], job, step)) + OrgFindings(action, orgs[k + 1..], job, step)
  {
    assert orgs[k..][1..] == orgs[k + 1..];
  }

  lemma ThenEmpty(o: Outcome<seq<Finding>>)
    ensures Then([], o) == o
  {
    if o.Returned? {
      assert [] + o.value == o.value;
    }
  }

  lemma UnfoldSteps(job: Value, steps: seq<Value>, i: nat)
    requires i < |steps|
    ensures StepsFindings(job, steps[i..], i + 1)
         == match StepFindings(job, steps[i], i + 1)
            case Raised => Raised
            case Returned(here) => Then(here, StepsFindings(job, steps[i + 1..], i + 2))
  {
    assert steps[i..][1..] == steps[i + 1..];
  }

  /** The body of the loop over one job's steps, for step number `number`. */
  method CheckStep(name: Value, step: Value, number: nat) returns (r: Outcome<seq<Finding>>)
    ensures r == StepFindings(name, step, number)
  {
    var has := In("uses", step);
    if has.Raised? {
      return Raised;
    }
    if !has.value {
      return Returned([]);
    }
    var action := GetItem(step, "uses");
    if action.Raised? || !action.value.Str? {
      return Raised;
    }
    var found := CheckOrgs(action.value.s, RequiredPinOrgs, name, number);
    return Returned(found);
  }

  method CheckJobSteps(name: Value, job: Value) returns (r: Outcome<seq<Finding>>)
    ensures r == JobPinningFindings(name, job)
  {
    var steps := JobSteps(job);
    if steps.Raised? {
      return Raised;
    }
    r := CheckSteps(name, steps.value);
  }

  /** The loop `for i, step in enumerate(steps)` of one job, with steps numbered from 1. */
  method CheckSteps(name: Value, steps: seq<Value>) returns (r: Outcome<seq<Finding>>)
    ensures r == StepsFindings(name, steps, 1)
  {
    var found: seq<Finding> := [];
    var i := 0;
    assert steps[0..] == steps;
    ThenEmpty(StepsFindings(name, steps, 1));
    while i < |steps|
      invariant 0 <= i <= |steps|
      invariant StepsFindings(name, steps, 1) == Then(found, StepsFindings(name, steps[i..], i + 1))
    {
      UnfoldSteps(name, steps, i);
      var here := CheckStep(name, steps[i], i + 1);
      if here.Raised? {
        return Raised;
      }
      ThenAssociative(found, here.value, StepsFindings(name, steps[i + 1..], i + 2));
      found := found + here.value;
      i := i + 1;
    }
    assert steps[i..] == [] && found + [] == found;
    return Returned(found);
  }

  lemma UnfoldJobsPinning(jobs: seq<(Value, Value)>, i: nat)
    requires i < |jobs|
    ensures JobsPinningFindings(jobs[i..])
         == match JobPinningFindings(jobs[i].0, jobs[i].1)
            case Raised => Raised
            case Returned(here) => Then(here, JobsPinningFindings(jobs[i + 1..]))
  {
    assert jobs[i..][1..] == jobs[i + 1..];
  }

  method CheckActionPinning(w: Value) returns (r: Outcome<seq<Finding>>)
    ensures r == PinningFindings(w)
  {
    var jobs := JobEntries(w);
    if jobs.Raised? {
      return Raised;
    }
    var issues: seq<Finding> := [];
    var i := 0;
    assert jobs.value[0..] == jobs.value;
    assert PinningFindings(w) == JobsPinningFindings(jobs.value);
    ThenEmpty(JobsPinningFindings(jobs.value));
    while i < |jobs.value|
      invariant 0 <= i <= |jobs.value|
      invariant PinningFindings(w) == Then(issues, JobsPinningFindings(jobs.value[i..]))
    {
      var entry := jobs.value[i];
      UnfoldJobsPinning(jobs.value, i);
      var here := CheckJobSteps(entry.0, entry.1);
      if here.Raised? {
        return Raised;
      }
      ThenAssociative(issues, here.value, JobsPinningFindings(jobs.value[i + 1..]));
      issues := issues + here.value;
      i := i + 1;
    }
    assert jobs.value[i..] == [] && issues + [] == issues;
    return Returned(issues);
  }

  // ---------------------------------------------------------------------------------------
  // check_dangerous_triggers

  /** The normalised `on` value: a string becomes a one-element list, a mapping contributes
      its keys, a list is used as it is; anything else raises when iterated. */
  function TriggerList(on: Value): Outcome<seq<Value>> {
    if on.Str? then Returned([on]) else Iterate(on)
  }

  predicate IsDangerous(trigger: Value) {
    trigger.Str? && trigger.s in DangerousEvents
  }

  function TriggerFindings(triggers: seq<Value>): seq<Finding>
    decreases |triggers|
  {
    if |triggers| == 0 then []
    else (if IsDangerous(triggers[0]) then [DangerousTrigger(triggers[0].s)] else [])
         + TriggerFindings(triggers[1..])
  }

  function DangerousTriggerFindings(w: Value): Outcome<seq<Finding>> {
    var has :- In("on", w);
    if !has then Returned([])
    else
      var on :- GetItem(w, "on");
      var triggers :- TriggerList(on);
      Returned(TriggerFindings(triggers))
  }

  method CheckDangerousTriggers(w: Value) returns (r: Outcome<seq<Finding>>)
    ensures r == DangerousTriggerFindings(w)
  {
    var has := In("on", w);
    if has.Raised? {
      return Raised;
    }
    if !has.value {
      return Returned([]);
    }
    var on := GetItem(w, "on");
    if on.Raised? {
      return Raised;
    }
    var triggers := TriggerList(on.value);
    if triggers.Raised? {
      return Raised;
    }
    var issues := FlagTriggers(triggers.value);
    return Returned(issues);
  }

  /** The loop of `check_dangerous_triggers` over the normalised triggers. */
  method FlagTriggers(ts: seq<Value>) returns (issues: seq<Finding>)
    ensures issues == TriggerFindings(ts)
  {
    issues := [];
    var i := 0;
    while i < |ts|
      invariant 0 <= i <= |ts|
      invariant TriggerFindings(ts) == issues + TriggerFindings(ts[i..])
    {
      assert ts[i..][1..] == ts[i + 1..];
      var here: seq<Finding> := [];
      if IsDangerous(ts[i]) {
        here := [DangerousTrigger(ts[i].s)];
      }
      assert issues + (here + TriggerFindings(ts[i + 1..])) == (issues + here) + TriggerFindings(ts[i + 1..]);
      issues := issues + here;
      i := i + 1;
    }
    assert ts[i..] == [];
  }

  // ---------------------------------------------------------------------------------------
  // check_secrets

  function PatternFindings(rendered: string, patterns: seq<string>): seq<Finding>
    decreases |patterns|
  {
    if |patterns| == 0 then []
    else (if Text.Contains(rendered, patterns[0]) then [PotentialSecret(patterns[0])] else [])
         + PatternFindings(rendered, patterns[1..])
  }

  /** `check_secrets` on `rendered`, the text `str(workflow)`. */
  function SecretFindings(rendered: string): seq<Finding> {
    PatternFindings(rendered, SuspiciousPatterns)
  }

  method CheckSecrets(rendered: string) returns (issues: seq<Finding>)
    ensures issues == SecretFindings(rendered)
  {
    issues := ScanPatterns(rendered, SuspiciousPatterns);
  }

  /** The loop `for pattern in suspicious_patterns`. */
  method ScanPatterns(rendered: string, patterns: seq<string>) returns (issues: seq<Finding>)
    ensures issues == PatternFindings(rendered, patterns)
  {
    issues := [];
    var i := 0;
    while i < |patterns|
      invariant 0 <= i <= |patterns|
      invariant PatternFindings(rendered, patterns) == issues + PatternFindings(rendered, patterns[i..])
    {
      var pattern := patterns[i];
      assert patterns[i..][1..] == patterns[i + 1..];
      var here: seq<Finding> := [];
      if Text.Contains(rendered, pattern) {
        here := [PotentialSecret(pattern)];
      }
      assert issues + (here + PatternFindings(rendered, patterns[i + 1..]))
          == (issues + here) + PatternFindings(rendered, patterns[i + 1..]);
      issues := issues + here;
      i := i + 1;
    }
    assert patterns[i..] == [] && issues + [] == issues;
  }

  // ---------------------------------------------------------------------------------------
  // validate_workflow and main

  /** What opening and loading a workflow file gave. */
  datatype Loaded = Unreadable | NotYaml | Loaded(workflow: Value)

  datatype Report = Report(issues: seq<Finding>, warnings: seq<Finding>)

  /** `validate_workflow`: permission and secret findings are issues, pinning and trigger
      findings are warnings; an exception in a check adds one error issue and keeps what the
      earlier checks had added. `rendered` is `str(workflow)`. */
  function Validate(file: Loaded, rendered: string): Report {
    match file
    case Unreadable => Report([ReadError], [])
    case NotYaml => Report([InvalidYaml], [])
    case Loaded(w) =>
      if !Truthy(w) then Report([], [])
      else
        match PermissionFindings(w)
        case Raised => Report([ReadError], [])
        case Returned(p) =>
          match PinningFindings(w)
          case Raised => Report(p + [ReadError], [])
          case Returned(a) =>
            match DangerousTriggerFindings(w)
            case Raised => Report(p + [ReadError], a)
            case Returned(t) => Report(p + SecretFindings(rendered), a + t)
  }

  method ValidateWorkflow(file: Loaded, rendered: string) returns (issues: seq<Finding>, warnings: seq<Finding>)
    ensures Report(issues, warnings) == Validate(file, rendered)
  {
    warnings := [];
    if file.Unreadable? {
      issues := [ReadError];
      return;
    }
    if file.NotYaml? {
      issues := [InvalidYaml];
      return;
    }
    issues := [];
    var w := file.workflow;
    if !Truthy(w) {
      return;
    }
    var p := CheckPermissions(w);
    if p.Raised? {
      issues := [ReadError];
      return;
    }
    issues := p.value;
    var a := CheckActionPinning(w);
    if a.Raised? {
      issues := issues + [ReadError];
      return;
    }
    warnings := a.value;
    var t := CheckDangerousTriggers(w);
    if t.Raised? {
      issues := issues + [ReadError];
      return;
    }
    warnings := warnings + t.value;
    var secrets := CheckSecrets(rendered);
    issues := issues + secrets;
  }

  /** The concatenated issues of a list of files, in order. */
  function AllIssues(files: seq<(Loaded, string)>): seq<Finding>
    decreases |files|
  {
    if |files| == 0 then []
    else AllIssues(files[..|files| - 1]) + Validate(files[|files| - 1].0, files[|files| - 1].1).issues
  }

  lemma {:induction false} AllIssuesEmptyIff(files: seq<(Loaded, string)>)
    ensures AllIssues(files) == []
            <==> forall k :: 0 <= k < |files| ==> Validate(files[k].0, files[k].1).issues == []
    decreases |files|
  {
    if |files| > 0 {
      var init := files[..|files| - 1];
      AllIssuesEmptyIff(init);
      assert forall k :: 0 <= k < |init| ==> init[k] == files[k];
    }
  }

  /** `main`: exit code 1 when the workflow directory is missing or some file has an issue,
      0 otherwise (no files, or warnings only). `files` pairs each loaded file with the
      rendering `str(workflow)` of its content. */
  method RunValidation(dirExists: bool, files: seq<(Loaded, string)>) returns (exitCode: int)
    ensures exitCode == 0 || exitCode == 1
    ensures exitCode == 1
            <==> !dirExists
                 || exists k :: 0 <= k < |files| && Validate(files[k].0, files[k].1).issues != []
  {
    if !dirExists {
      return 1;
    }
    if |files| == 0 {
      return 0;
    }
    var allIssues: seq<Finding> := [];
    var allWarnings: seq<Finding> := [];
    var i := 0;
    while i < |files|
      invariant 0 <= i <= |files|
      invariant allIssues == AllIssues(files[..i])
    {
      var issues, warnings := ValidateWorkflow(files[i].0, files[i].1);
      assert files[..i + 1][..i] == files[..i];
      allIssues := allIssues + issues;
      allWarnings := allWarnings + warnings;
      i := i + 1;
    }
    assert files[..i] == files;
    AllIssuesEmptyIff(files);
    if allIssues == [] && allWarnings == [] {
      return 0;
    }
    exitCode := if allIssues != [] then 1 else 0;
  }

  // ---------------------------------------------------------------------------------------
  // Properties of the policy

  /** A workflow of the shape GitHub documents: a mapping whose `jobs`, when present, map
      names to mappings; whose steps, when present, are a list of mappings with string
      `uses`; and whose `on`, when present, is a string, a list or a mapping. */
  predicate WellShapedJob(job: Value) {
    && job.Dict?
    && (HasKey(job.entries, "steps") ==>
          var steps := Lookup(job.entries, "steps").value;
          && steps.List?
          && forall k :: 0 <= k < |steps.items| ==> WellShapedStep(steps.items[k]))
  }

  predicate WellShapedStep(step: Value) {
    step.Dict? && (HasKey(step.entries, "uses") ==> Lookup(step.entries, "uses").value.Str?)
  }

  predicate WellShaped(w: Value) {
    && w.Dict?
    && (HasKey(w.entries, "jobs") ==>
          var jobs := Lookup(w.entries, "jobs").value;
          && jobs.Dict?
          && forall k :: 0 <= k < |jobs.entries| ==> WellShapedJob(jobs.entries[k].1))
    && (HasKey(w.entries, "on") ==>
          var on := Lookup(w.entries, "on").value;
          on.Str? || on.List? || on.Dict?)
  }

  /** The permissions a job or workflow mapping declares, when it declares any. */
  function PermissionsValue(v: Value): Option<Value>
    requires v.Dict?
  {
    if HasKey(v.entries, "permissions") then Some(Lookup(v.entries, "permissions").value) else None
  }

  /** Job-level permissions: exactly the jobs whose `permissions` is the string `write-all`
      or `admin` are flagged, once each, with the job's name; a mapping of scopes never is. */
  lemma {:induction false} JobsPermissionsExact(jobs: seq<(Value, Value)>)
    requires forall k :: 0 <= k < |jobs| ==> jobs[k].1.Dict?
    ensures JobsPermissionFindings(jobs).Returned?
    ensures |JobsPermissionFindings(jobs).value| <= |jobs|
    ensures forall f :: f in JobsPermissionFindings(jobs).value ==>
              && f.ForbiddenInJob?
              && f.permission in ForbiddenPermissions
              && exists k :: 0 <= k < |jobs| && jobs[k].0 == f.job
                             && PermissionsValue(jobs[k].1) == Some(Str(f.permission))
    ensures forall k :: 0 <= k < |jobs| && PermissionsValue(jobs[k].1).Some?
                        && IsForbidden(PermissionsValue(jobs[k].1).value) ==>
              ForbiddenInJob(PermissionsValue(jobs[k].1).value.s, jobs[k].0) in JobsPermissionFindings(jobs).value
    decreases |jobs|
  {
    if |jobs| > 0 {
      var rest := jobs[1..];
      assert forall k :: 0 <= k < |rest| ==> rest[k] == jobs[k + 1];
      JobsPermissionsExact(rest);
      var here := JobPermissionFindings(jobs[0].0, jobs[0].1).value;
      var tail := JobsPermissionFindings(rest).value;
      assert JobsPermissionFindings(jobs).value == here + tail;
      forall f: Finding | f in here + tail
        ensures && f.ForbiddenInJob?
                && exists k :: 0 <= k < |jobs| && jobs[k].0 == f.job
                               && PermissionsValue(jobs[k].1) == Some(Str(f.permission))
      {
        if f !in here {
          var k :| 0 <= k < |rest| && rest[k].0 == f.job
                   && PermissionsValue(rest[k].1) == Some(Str(f.permission));
          assert jobs[k + 1] == rest[k];
        }
      }
      forall k | 0 <= k < |jobs| && PermissionsValue(jobs[k].1).Some? && IsForbidden(PermissionsValue(jobs[k].1).value)
        ensures ForbiddenInJob(PermissionsValue(jobs[k].1).value.s, jobs[k].0) in here + tail
      {
        if k > 0 {
          assert jobs[k] == rest[k - 1];
        }
      }
    }
  }

  /** Workflow-level permissions: the workflow is flagged exactly when its `permissions` is
      one of the forbidden strings; all permission findings are of the two permission kinds. */
  /** The part of a document's shape that `check_permissions` reads: a mapping whose `jobs`,
      when present, is a mapping of mappings. */
  predicate PermissionsShaped(w: Value) {
    && w.Dict?
    && (HasKey(w.entries, "jobs") ==>
          var jobs := Lookup(w.entries, "jobs").value;
          && jobs.Dict?
          && forall k :: 0 <= k < |jobs.entries| ==> jobs.entries[k].1.Dict?)
  }

  lemma PermissionsExact(w: Value)
    requires PermissionsShaped(w)
    ensures PermissionFindings(w).Returned?
    ensures forall p :: ForbiddenAtWorkflow(p) in PermissionFindings(w).value
                        <==> PermissionsValue(w) == Some(Str(p)) && p in ForbiddenPermissions
    ensures forall f :: f in PermissionFindings(w).value ==> f.ForbiddenAtWorkflow? || f.ForbiddenInJob?
  {
    var jobs := JobEntries(w);
    if HasKey(w.entries, "jobs") {
      var j := Lookup(w.entries, "jobs").value;
      assert jobs == Returned(j.entries);
    }
    JobsPermissionsExact(jobs.value);
  }


  predicate IsOfficialAction(action: string) {
    Text.StartsWith(action, "actions/") || Text.StartsWith(action, "github/") || Text.StartsWith(action, "docker/")
  }

  lemma OrgLoopUnrolled(action: string, job: Value, step: nat)
    ensures OrgFindings(action, RequiredPinOrgs, job, step)
         == OrgFinding(action, "actions", job, step) + OrgFinding(action, "github", job, step)
            + OrgFinding(action, "docker", job, step)
  {
    OrgFindingsOfThree(action, "actions", "github", "docker", job, step);
  }

  lemma OrgFindingsOfThree(action: string, a: string, b: string, c: string, job: Value, step: nat)
    ensures OrgFindings(action, [a, b, c], job, step)
         == OrgFinding(action, a, job, step) + OrgFinding(action, b, job, step) + OrgFinding(action, c, job, step)
  {
    var fa, fb, fc := OrgFinding(action, a, job, step), OrgFinding(action, b, job, step), OrgFinding(action, c, job, step);
    assert [c][1..] == [];
    assert OrgFindings(action, [c], job, step) == fc + [] == fc;
    assert [b, c][1..] == [c];
    assert OrgFindings(action, [b, c], job, step) == fb + fc;
    assert [a, b, c][1..] == [b, c];
    assert OrgFindings(action, [a, b, c], job, step) == fa + (fb + fc);
  }

  /** The three organisation prefixes exclude each other, so the loop over them yields a
      single verdict, and at most one pinning finding per step: nothing for an action outside
      the three organisations; "not pinned at all" without `@`; otherwise "should be
      SHA-pinned" exactly when the ref is neither a full SHA nor a version tag. */
  lemma OrgLoopIsVerdict(action: string, job: Value, step: nat)
    ensures var r := OrgFindings(action, RequiredPinOrgs, job, step);
            && |r| <= 1
            && (!IsOfficialAction(action) ==> r == [])
            && (IsOfficialAction(action) && !Text.Contains(action, "@") ==> r == [NotPinned(action, job, step)])
            && (IsOfficialAction(action) && Text.Contains(action, "@") ==>
                  (r == [] <==> AcceptableRef(PinnedRef(action)))
                  && (!AcceptableRef(PinnedRef(action)) ==> r == [ShouldBeShaPinned(action, job, step)]))
  {
    OrgLoopUnrolled(action, job, step);
    // The three prefixes start with different letters, so at most one of them matches.
    assert "actions" + "/" == "actions/" && "github" + "/" == "github/" && "docker" + "/" == "docker/";
    assert Text.StartsWith(action, "actions/") ==> action[0] == "actions/"[0];
    assert Text.StartsWith(action, "github/") ==> action[0] == "github/"[0];
    assert Text.StartsWith(action, "docker/") ==> action[0] == "docker/"[0];
    var a := OrgFinding(action, "actions", job, step);
    var g := OrgFinding(action, "github", job, step);
    var d := OrgFinding(action, "docker", job, step);
    var check := RefCheck(action, job, step);
    assert |check| <= 1;
    if Text.StartsWith(action, "actions/") {
      assert a == check && g == [] && d == [];
      assert a + g + d == check;
    } else if Text.StartsWith(action, "github/") {
      assert a == [] && g == check && d == [];
      assert a + g + d == check;
    } else if Text.StartsWith(action, "docker/") {
      assert a == [] && g == [] && d == check;
      assert a + g + d == check;
    } else {
      assert a == [] && g == [] && d == [];
      assert a + g + d == [];
    }
  }

  /** The ref is the text right after the first `@`, up to the next `@` or the end. */
  lemma PinnedRefSegment(action: string)
    requires Text.Contains(action, "@")
    ensures var i := Text.FindFirst(action, "@").value;
            var ref := PinnedRef(action);
            && i + 1 + |ref| <= |action|
            && action[i + 1..i + 1 + |ref|] == ref
            && !Text.Contains(ref, "@")
            && (i + 1 + |ref| == |action| || action[i + 1 + |ref|] == '@')
  {
    Text.ContainsIffFound(action, "@");
    var i := Text.FindFirst(action, "@").value;
    var rest := action[i + 1..];
    assert Text.Split(action, "@") == [action[..i]] + Text.Split(rest, "@");
    Text.SplitPiecesFree(rest, "@", 0);
    Text.SplitFirstPiece(rest, "@");
    var ref := Text.Split(rest, "@")[0];
    assert PinnedRef(action) == ref;
    assert action[i + 1..i + 1 + |ref|] == rest[..|ref|];
    if |ref| < |rest| {
      assert rest[|ref|..|ref| + 1] == "@";
      assert action[i + 1 + |ref|] == rest[|ref|];
    }
  }

  lemma {:induction false} StepsPinningBounded(job: Value, steps: seq<Value>, first: nat)
    requires StepsFindings(job, steps, first).Returned?
    ensures |StepsFindings(job, steps, first).value| <= |steps|
    decreases |steps|
  {
    if |steps| > 0 {
      StepsPinningBounded(job, steps[1..], first + 1);
      var step := steps[0];
      var has := In("uses", step);
      if has.value {
        var action := GetItem(step, "uses").value;
        OrgLoopIsVerdict(action.s, job, first);
      }
    }
  }

  lemma SkippedWithoutStepsOrUses(name: Value, job: Value, step: Value, number: nat)
    ensures job.Dict? && !HasKey(job.entries, "steps") ==> JobPinningFindings(name, job) == Returned([])
    ensures step.Dict? && !HasKey(step.entries, "uses") ==> StepFindings(name, step, number) == Returned([])
  {
  }

  /** A dangerous trigger is reported exactly when it is among the normalised triggers, and
      nothing else is reported. */
  lemma {:induction false} TriggerFindingsExact(triggers: seq<Value>)
    ensures |TriggerFindings(triggers)| <= |triggers|
    ensures forall f :: f in TriggerFindings(triggers) ==> f.DangerousTrigger? && f.trigger in DangerousEvents
    ensures forall t :: DangerousTrigger(t) in TriggerFindings(triggers) <==> t in DangerousEvents && Str(t) in triggers
    decreases |triggers|
  {
    if |triggers| > 0 {
      TriggerFindingsExact(triggers[1..]);
      assert triggers == [triggers[0]] + triggers[1..];
      forall t ensures DangerousTrigger(t) in TriggerFindings(triggers) <==> t in DangerousEvents && Str(t) in triggers {
        assert Str(t) in triggers <==> Str(t) == triggers[0] || Str(t) in triggers[1..];
      }
    }
  }

  /** How `on` is normalised: absent gives nothing; a string is one trigger; a mapping gives
      its keys; a list gives its elements. */
  lemma TriggerNormalisation(w: Value)
    requires w.Dict?
    ensures !HasKey(w.entries, "on") ==> DangerousTriggerFindings(w) == Returned([])
    ensures HasKey(w.entries, "on") ==>
              var on := Lookup(w.entries, "on").value;
              && (on.Str? ==> DangerousTriggerFindings(w)
                              == Returned(if on.s in DangerousEvents then [DangerousTrigger(on.s)] else []))
              && (on.Dict? ==> DangerousTriggerFindings(w) == Returned(TriggerFindings(Keys(on.entries))))
              && (on.List? ==> DangerousTriggerFindings(w) == Returned(TriggerFindings(on.items)))
  {
    if HasKey(w.entries, "on") {
      var on := Lookup(w.entries, "on").value;
      if on.Str? {
        assert GetItem(w, "on") == Returned(on);
        assert TriggerList(on) == Returned([on]);
        assert DangerousTriggerFindings(w) == Returned(TriggerFindings([on]));
        assert [on][1..] == [];
        assert TriggerFindings([on])
            == (if IsDangerous(on) then [DangerousTrigger(on.s)] else []) + TriggerFindings([]);
        var verdict: seq<Finding> := if on.s in DangerousEvents then [DangerousTrigger(on.s)] else [];
        assert verdict + [] == verdict;
      }
    }
  }

  /** One finding per suspicious pattern that occurs in the rendering, and no other: so at most
      six. */
  lemma {:induction false} PatternFindingsExact(rendered: string, patterns: seq<string>)
    ensures |PatternFindings(rendered, patterns)| <= |patterns|
    ensures forall f :: f in PatternFindings(rendered, patterns) ==> f.PotentialSecret?
    ensures forall p :: PotentialSecret(p) in PatternFindings(rendered, patterns)
                        <==> p in patterns && Text.Contains(rendered, p)
    decreases |patterns|
  {
    if |patterns| > 0 {
      PatternFindingsExact(rendered, patterns[1..]);
      assert patterns == [patterns[0]] + patterns[1..];
      forall p ensures PotentialSecret(p) in PatternFindings(rendered, patterns)
                       <==> p in patterns && Text.Contains(rendered, p) {
        assert p in patterns <==> p == patterns[0] || p in patterns[1..];
      }
    }
  }

  /** The position of `p` in `patterns` (its length when absent). */
  function IndexOf(p: string, patterns: seq<string>): (k: nat)
    ensures k <= |patterns|
    ensures k < |patterns| <==> p in patterns
    ensures k < |patterns| ==> patterns[k] == p
    decreases |patterns|
  {
    if |patterns| == 0 then 0 else if patterns[0] == p then 0 else 1 + IndexOf(p, patterns[1..])
  }

  /** Secret findings whose patterns appear in strictly increasing positions of `patterns`. */
  predicate InPatternOrder(r: seq<Finding>, patterns: seq<string>) {
    && (forall a :: 0 <= a < |r| ==> r[a].PotentialSecret?)
    && forall a, b :: 0 <= a < b < |r| ==> IndexOf(r[a].pattern, patterns) < IndexOf(r[b].pattern, patterns)
  }

  /** The findings follow the order of the pattern list. */
  lemma {:induction false} PatternFindingsInOrder(rendered: string, patterns: seq<string>)
    requires forall i, j :: 0 <= i < j < |patterns| ==> patterns[i] != patterns[j]
    ensures InPatternOrder(PatternFindings(rendered, patterns), patterns)
    decreases |patterns|
  {
    if |patterns| > 0 {
      var p0, rest := patterns[0], patterns[1..];
      var tail := PatternFindings(rendered, rest);
      assert patterns == [p0] + rest;
      assert p0 !in rest by {
        forall j | 0 <= j < |rest|
          ensures rest[j] != p0
        {
          assert rest[j] == patterns[j + 1];
        }
      }
      PatternFindingsInOrder(rendered, rest);
      TailPatternsListed(rendered, rest);
      ShiftOrder(p0, rest, tail);
      if Text.Contains(rendered, p0) {
        assert PatternFindings(rendered, patterns) == [PotentialSecret(p0)] + tail;
      } else {
        assert PatternFindings(rendered, patterns) == tail;
      }
    }
  }

  /** Every finding names one of the patterns. */
  predicate PatternsListed(r: seq<Finding>, patterns: seq<string>) {
    forall a :: 0 <= a < |r| ==> r[a].PotentialSecret? && r[a].pattern in patterns
  }

  lemma TailPatternsListed(rendered: string, patterns: seq<string>)
    ensures PatternsListed(PatternFindings(rendered, patterns), patterns)
  {
    var r := PatternFindings(rendered, patterns);
    PatternFindingsExact(rendered, patterns);
    forall a | 0 <= a < |r|
      ensures r[a].PotentialSecret? && r[a].pattern in patterns
    {
      assert r[a] in r;
      assert PotentialSecret(r[a].pattern) in r;
    }
  }

  lemma IndexOfCons(p: string, p0: string, rest: seq<string>)
    requires p != p0
    ensures IndexOf(p, [p0] + rest) == 1 + IndexOf(p, rest)
  {
    assert ([p0] + rest)[1..] == rest;
  }

  /** Putting a new pattern in front of the list shifts every listed finding by one place,
      and a finding for the new pattern comes first. */
  lemma ShiftOrder(p0: string, rest: seq<string>, tail: seq<Finding>)
    requires p0 !in rest
    requires PatternsListed(tail, rest)
    requires InPatternOrder(tail, rest)
    ensures InPatternOrder(tail, [p0] + rest)
    ensures InPatternOrder([PotentialSecret(p0)] + tail, [p0] + rest)
  {
    var patterns := [p0] + rest;
    forall a | 0 <= a < |tail|
      ensures IndexOf(tail[a].pattern, patterns) == 1 + IndexOf(tail[a].pattern, rest)
    {
      IndexOfCons(tail[a].pattern, p0, rest);
    }
    var r := [PotentialSecret(p0)] + tail;
    assert IndexOf(p0, patterns) == 0;
    forall a, b | 0 <= a < b < |r|
      ensures IndexOf(r[a].pattern, patterns) < IndexOf(r[b].pattern, patterns)
    {
      assert r[b] == tail[b - 1];
      if a > 0 {
        assert r[a] == tail[a - 1];
      }
    }
  }

  lemma SuspiciousPatternsDistinct()
    ensures |SuspiciousPatterns| == 6
    ensures forall i, j :: 0 <= i < j < |SuspiciousPatterns| ==> SuspiciousPatterns[i] != SuspiciousPatterns[j]
  {
    var p := SuspiciousPatterns;
    assert p[0][0] == 's' && p[1][0] == 'a' && p[2][0] == 'p' && p[3][0] == 't' && p[4][0] == 's' && p[5][0] == 'A';
    assert p[0][1] == 'k' && p[4][1] == 'e';
  }

  lemma SecretFindingsExact(rendered: string)
    ensures |SecretFindings(rendered)| <= 6
    ensures forall p :: PotentialSecret(p) in SecretFindings(rendered)
                        <==> p in SuspiciousPatterns && Text.Contains(rendered, p)
    ensures InPatternOrder(SecretFindings(rendered), SuspiciousPatterns)
  {
    SuspiciousPatternsDistinct();
    PatternFindingsExact(rendered, SuspiciousPatterns);
    PatternFindingsInOrder(rendered, SuspiciousPatterns);
  }

  lemma {:induction false} OrgFindingsArePinning(action: string, orgs: seq<string>, job: Value, step: nat)
    ensures forall f :: f in OrgFindings(action, orgs, job, step) ==> f.NotPinned? || f.ShouldBeShaPinned?
    decreases |orgs|
  {
    if |orgs| > 0 {
      OrgFindingsArePinning(action, orgs[1..], job, step);
    }
  }

  lemma {:induction false} StepsFindingsArePinning(job: Value, steps: seq<Value>, first: nat)
    requires StepsFindings(job, steps, first).Returned?
    ensures forall f :: f in StepsFindings(job, steps, first).value ==> f.NotPinned? || f.ShouldBeShaPinned?
    decreases |steps|
  {
    if |steps| > 0 {
      StepsFindingsArePinning(job, steps[1..], first + 1);
      if In("uses", steps[0]).value {
        OrgFindingsArePinning(GetItem(steps[0], "uses").value.s, RequiredPinOrgs, job, first);
      }
    }
  }

  lemma {:induction false} JobsPinningArePinning(jobs: seq<(Value, Value)>)
    requires JobsPinningFindings(jobs).Returned?
    ensures forall f :: f in JobsPinningFindings(jobs).value ==> f.NotPinned? || f.ShouldBeShaPinned?
    decreases |jobs|
  {
    if |jobs| > 0 {
      JobsPinningArePinning(jobs[1..]);
      StepsFindingsArePinning(jobs[0].0, JobSteps(jobs[0].1).value, 1);
    }
  }

  lemma {:induction false} JobsPermissionsArePermissions(jobs: seq<(Value, Value)>)
    requires JobsPermissionFindings(jobs).Returned?
    ensures forall f :: f in JobsPermissionFindings(jobs).value ==> f.ForbiddenInJob?
    decreases |jobs|
  {
    if |jobs| > 0 {
      JobsPermissionsArePermissions(jobs[1..]);
    }
  }

  predicate IsIssueKind(f: Finding) {
    f.ForbiddenAtWorkflow? || f.ForbiddenInJob? || f.PotentialSecret? || f.InvalidYaml? || f.ReadError?
  }

  predicate IsWarningKind(f: Finding) {
    f.NotPinned? || f.ShouldBeShaPinned? || f.DangerousTrigger?
  }

  /** Issues are permission and secret findings (and load or check errors); warnings are
      pinning and trigger findings. An empty or false-like document yields nothing. */
  lemma ReportClassification(file: Loaded, rendered: string)
    ensures forall f :: f in Validate(file, rendered).issues ==> IsIssueKind(f)
    ensures forall f :: f in Validate(file, rendered).warnings ==> IsWarningKind(f)
    ensures file.Loaded? && !Truthy(file.workflow) ==> Validate(file, rendered) == Report([], [])
  {
    if file.Loaded? && Truthy(file.workflow) {
      var w := file.workflow;
      if PermissionFindings(w).Returned? {
        var top := WorkflowPermissionFindings(w).value;
        JobsPermissionsArePermissions(JobEntries(w).value);
        if PinningFindings(w).Returned? {
          JobsPinningArePinning(JobEntries(w).value);
          if DangerousTriggerFindings(w).Returned? {
            if In("on", w).value {
              TriggerFindingsExact(TriggerList(GetItem(w, "on").value).value);
            }
            PatternFindingsExact(rendered, SuspiciousPatterns);
          }
        }
      }
    }
  }

  /** For a well-shaped workflow no check raises, so the report is exactly the findings of
      the four checks. */
  lemma WellShapedNeverRaises(w: Value, rendered: string)
    requires WellShaped(w) && Truthy(w)
    ensures PermissionFindings(w).Returned? && PinningFindings(w).Returned?
            && DangerousTriggerFindings(w).Returned?
    ensures Validate(Loaded(w), rendered)
         == Report(PermissionFindings(w).value + SecretFindings(rendered),
                   PinningFindings(w).value + DangerousTriggerFindings(w).value)
  {
    assert PermissionsShaped(w) by {
      if HasKey(w.entries, "jobs") {
        var jobs := Lookup(w.entries, "jobs").value;
        assert forall k :: 0 <= k < |jobs.entries| ==> WellShapedJob(jobs.entries[k].1);
      }
    }
    PermissionsExact(w);
    PinningNeverRaises(w);
    TriggersNeverRaise(w);
  }

  lemma PinningNeverRaises(w: Value)
    requires WellShaped(w)
    ensures PinningFindings(w).Returned?
  {
    var jobs := JobEntries(w).value;
    if HasKey(w.entries, "jobs") {
      var j := Lookup(w.entries, "jobs").value;
      assert jobs == j.entries;
      assert forall k :: 0 <= k < |jobs| ==> WellShapedJob(jobs[k].1);
    }
    JobsPinningNeverRaises(jobs);
  }

  /** An `on` value that is a string, a list or a mapping yields its triggers. */
  lemma TriggersNeverRaise(w: Value)
    requires WellShaped(w)
    ensures DangerousTriggerFindings(w).Returned?
  {
  }

  lemma {:induction false} JobsPinningNeverRaises(jobs: seq<(Value, Value)>)
    requires forall k :: 0 <= k < |jobs| ==> WellShapedJob(jobs[k].1)
    ensures JobsPinningFindings(jobs).Returned?
    decreases |jobs|
  {
    if |jobs| > 0 {
      var job := jobs[0].1;
      assert WellShapedJob(job);
      if HasKey(job.entries, "steps") {
        var steps := Lookup(job.entries, "steps").value;
        assert JobSteps(job) == Returned(steps.items);
        StepsNeverRaise(jobs[0].0, steps.items, 1);
      }
      var rest := jobs[1..];
      assert forall k :: 0 <= k < |rest| ==> rest[k] == jobs[k + 1];
      JobsPinningNeverRaises(rest);
    }
  }

  lemma {:induction false} StepsNeverRaise(job: Value, steps: seq<Value>, first: nat)
    requires forall k :: 0 <= k < |steps| ==> WellShapedStep(steps[k])
    ensures StepsFindings(job, steps, first).Returned?
    decreases |steps|
  {
    if |steps| > 0 {
      assert WellShapedStep(steps[0]);
      var rest := steps[1..];
      assert forall k :: 0 <= k < |rest| ==> rest[k] == steps[k + 1];
      StepsNeverRaise(job, rest, first + 1);
    }
  }
}
