/** The action's `main` (src/main.rs:63-165) with the category extraction
    of `run` (src/main.rs:210-215): parse the pull-request number and the
    repository name, obtain the analysis report, and on a pull request
    set the label of the observed category and remove the other three. */
module Action {
  import opened Wrappers
  import opened IntParse
  import opened Serde
  import opened Refs
  import opened Report
  import opened LabelPlan
  import opened Reconcile

  /** The environment the action reads (`GITHUB_REF`, `GITHUB_REPOSITORY`
      and the four `LABEL_*` variables). */
  datatype Inputs = Inputs(headRef: string, repository: string, labels: LabelConfig)

  /** Why a run fails, in the order the steps are taken. */
  datatype ActionError =
    | BadInput(input: RefError)       // PR number or repository name
    | ClientSetup                     // the API client could not be built
    | AnalysisFailed(reason: string)  // work directories, `cargo semver`, or unreadable output
    | BadReport(shape: DeError)       // the report does not have the expected shape
    | LabelUpdate(call: LabelError)  // a label call was refused

  /** The label work of a run on a pull request. */
  datatype Job = Job(handler: IssueHandler, prNum: U64, plan: Plan)

  /** What a run decides before touching any label: a failure, nothing to
      do (not a pull request), or the label calls to make. */
  function Prepare(inputs: Inputs, clientReady: bool, analysis: Result<Json, string>)
    : Result<Option<Job>, ActionError>
  {
    match PrNumber(inputs.headRef)
    case Err(e) => Err(BadInput(e))
    case Ok(prNum) =>
      match OwnerRepo(inputs.repository)
      case Err(e) => Err(BadInput(e))
      case Ok(names) =>
        if !clientReady then Err(ClientSetup)
        else
          match analysis
          case Err(reason) => Err(AnalysisFailed(reason))
          case Ok(report) =>
            match MaxCategory(report)
            case Err(e) => Err(BadReport(e))
            case Ok(c) =>
              if prNum.None? then Ok(None)
              else Ok(Some(Job(IssueHandler(names.0, names.1), prNum.value, SelectPlan(c, inputs.labels))))
  }

  /** The calls a job intends, in order. */
  function JobCalls(job: Job): seq<Request>
  {
    Planned(KeyOf(job.handler, job.prNum), job.plan.setLabel, job.plan.removeLabels)
  }

  /** One run of the action against the issues API of `remote`.
      `clientReady` says whether the API client could be built, and
      `analysis` is the analyzer's output as a JSON tree, or why there is
      none. A run that fails before the label step, or that is not on a
      pull request, makes no call; otherwise the calls made and their
      effect are those of sending the job's calls in order. */
  method RunAction(remote: Remote, inputs: Inputs, clientReady: bool, analysis: Result<Json, string>)
    returns (r: Outcome<ActionError>)
    modifies remote
    ensures Prepare(inputs, clientReady, analysis).Err? ==>
      r == Fail(Prepare(inputs, clientReady, analysis).error)
      && remote.log == old(remote.log) && remote.labels == old(remote.labels)
    ensures Prepare(inputs, clientReady, analysis) == Ok(None) ==>
      r == Pass && remote.log == old(remote.log) && remote.labels == old(remote.labels)
    ensures Prepare(inputs, clientReady, analysis).Ok? && Prepare(inputs, clientReady, analysis).value.Some? ==>
      var t := Deliver(JobCalls(Prepare(inputs, clientReady, analysis).value.value),
                       |old(remote.log)|, remote.rejected);
      remote.log == old(remote.log) + t.sent
      && remote.labels == ApplyAll(old(remote.labels), t.Accepted())
      && r == if t.failed then Fail(LabelUpdate(ErrorFor(t.sent[|t.sent| - 1]))) else Pass
  {
    var prNum := PrNumber(inputs.headRef);
    if prNum.Err? {
      return Fail(BadInput(prNum.error));
    }
    var names := OwnerRepo(inputs.repository);
    if names.Err? {
      return Fail(BadInput(names.error));
    }
    if !clientReady {
      return Fail(ClientSetup);
    }
    if analysis.Err? {
      return Fail(AnalysisFailed(analysis.error));
    }
    var category := MaxCategory(analysis.value);
    if category.Err? {
      return Fail(BadReport(category.error));
    }
    if prNum.value.None? {
      return Pass;
    }
    var plan := SelectPlan(category.value, inputs.labels);
    var h := IssueHandler(names.value.0, names.value.1);
    var done := SetAndRemoveLabels(remote, h, prNum.value.value, plan.setLabel, plan.removeLabels);
    r := if done.Fail? then Fail(LabelUpdate(done.error)) else Pass;
  }

  /** A run reaches the label step exactly when every step before it
      succeeds on a pull request, and then the job is the repository's
      issue handler, the pull-request number, and the plan for the
      report's category. */
  lemma PrepareMeaning(inputs: Inputs, clientReady: bool, analysis: Result<Json, string>, job: Job)
    ensures Prepare(inputs, clientReady, analysis) == Ok(Some(job)) <==>
      (PrNumber(inputs.headRef) == Ok(Some(job.prNum))
       && OwnerRepo(inputs.repository) == Ok((job.handler.owner, job.handler.repo))
       && clientReady && analysis.Ok?
       && exists c :: MaxCategory(analysis.value) == Ok(c) && job.plan == SelectPlan(c, inputs.labels))
  {
    if PrNumber(inputs.headRef) == Ok(Some(job.prNum))
       && OwnerRepo(inputs.repository) == Ok((job.handler.owner, job.handler.repo))
       && clientReady && analysis.Ok?
       && exists c :: MaxCategory(analysis.value) == Ok(c) && job.plan == SelectPlan(c, inputs.labels)
    {
      var c :| MaxCategory(analysis.value) == Ok(c) && job.plan == SelectPlan(c, inputs.labels);
      assert Prepare(inputs, clientReady, analysis) == Ok(Some(job));
    }
  }

  /** Outside a pull request the run makes no label call and succeeds, but
      only once everything before the check has succeeded: the analysis
      still runs, and its failure still fails the run. */
  lemma NonPullRequest(inputs: Inputs, clientReady: bool, analysis: Result<Json, string>)
    requires PrNumber(inputs.headRef) == Ok(None)
    ensures Prepare(inputs, clientReady, analysis) == Ok(None) <==>
      (OwnerRepo(inputs.repository).Ok? && clientReady && analysis.Ok?
       && MaxCategory(analysis.value).Ok?)
    ensures Prepare(inputs, clientReady, analysis).Ok? ==> Prepare(inputs, clientReady, analysis) == Ok(None)
  {
  }

  /** The steps fail in order: a bad reference or repository name is
      reported before the client, the client before the analysis, and the
      analysis before the report's shape. */
  lemma ErrorPrecedence(inputs: Inputs, clientReady: bool, analysis: Result<Json, string>)
    ensures PrNumber(inputs.headRef).Err? ==>
      Prepare(inputs, clientReady, analysis) == Err(BadInput(PrNumber(inputs.headRef).error))
    ensures PrNumber(inputs.headRef).Ok? && OwnerRepo(inputs.repository).Err? ==>
      Prepare(inputs, clientReady, analysis) == Err(BadInput(OwnerRepo(inputs.repository).error))
    ensures PrNumber(inputs.headRef).Ok? && OwnerRepo(inputs.repository).Ok? && !clientReady ==>
      Prepare(inputs, clientReady, analysis) == Err(ClientSetup)
    ensures PrNumber(inputs.headRef).Ok? && OwnerRepo(inputs.repository).Ok? && clientReady
            && analysis.Ok? && MaxCategory(analysis.value).Err? ==>
      Prepare(inputs, clientReady, analysis) == Err(BadReport(MaxCategory(analysis.value).error))
  {
  }

  /** A breaking change on a pull request, with labels configured for the
      breaking and patch categories only: the job adds the breaking label
      to that pull request and then removes the patch label, and nothing
      else. (`PrNumberAccepts` gives the number of `refs/pull/42/merge`.) */
  lemma BreakingScenario(inputs: Inputs, report: Json, n: U64, owner: string, repo: string,
                         patch: string, breaking: string)
    requires PrNumber(inputs.headRef) == Ok(Some(n))
    requires OwnerRepo(inputs.repository) == Ok((owner, repo))
    requires inputs.labels == LabelConfig(Some(patch), None, None, Some(breaking))
    requires MaxCategory(report) == Ok(Breaking)
    ensures var k := IssueKey(owner, repo, n);
      var p := Prepare(inputs, true, Ok(report));
      p.Ok? && p.value.Some?
      && JobCalls(p.value.value) == [AddLabels(k, [breaking]), RemoveLabel(k, patch)]
  {
    var k := IssueKey(owner, repo, n);
    assert Removals(k, [Some(patch), None, None]) == [RemoveLabel(k, patch)] by {
      OnlyFirstRemoved(k, patch);
    }
  }

  /** A remove list configuring its first slot only. */
  lemma OnlyFirstRemoved(k: IssueKey, name: string)
    ensures Removals(k, [Some(name), None, None]) == [RemoveLabel(k, name)]
  {
    var xs := [Some(name), None, None];
    var q := RemoveLabel(k, name);
    assert xs[..2][..1][..0] == [];
    assert Removals(k, xs[..2][..1]) == [q];
    assert xs[..2][..1] == [Some(name)] && xs[..2] == [Some(name), None];
    assert Removals(k, xs[..2]) == [q];
  }
}
