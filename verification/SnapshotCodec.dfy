/**
 `frb_generated.rs`, the snapshot that the server pushes to the phone: every record on the wire,
 field by field in the order in which it is written and read, and the round trip of the whole.
 */
module SnapshotCodec {
  import opened Wrappers
  import opened SseCodec

  datatype ApprovalRuleKind = AnyApprover | Regular | CodeOwner | ReportApprover | Other

  datatype ApprovalStatus = Unapproved | NeedsCodeOwner | NeedsApprovals | Approved | NotRequired | Blocked | Unknown

  datatype CodeHostProvider = Github | Gitlab

  datatype OperationKind = Cascade | PushStack

  datatype OperationOutcomeKind = Succeeded | Paused | Failed

  datatype PrState = Open | Closed | Merged

  datatype PullBlockReason = Dirty | Diverged | WorktreeConflict

  datatype PullStatusKind = Advanced | UpToDate | Blocked | SoftFail

  datatype ReviewDecision = ReviewRequired | Approved | ChangesRequested

  datatype SessionStatus = Creating | Running | Stopped | Merging | CascadePaused | Pushing

  datatype ProjectId = ProjectId(id: Uuid)

  datatype SessionId = SessionId(id: Uuid)

  datatype WorkspaceDef = WorkspaceDef(name: Text)

  datatype ApprovalRule = ApprovalRule(
    id: Text,
    name: Text,
    kind: ApprovalRuleKind,
    approvalsRequired: Option<u32>,
    approvalsReceived: Option<u32>,
    approvalsRemaining: Option<u32>,
    satisfied: Option<bool>
  )

  datatype ApprovalSummary = ApprovalSummary(
    status: ApprovalStatus,
    requirementsSatisfied: Option<bool>,
    approvalsReceived: Option<u32>,
    approvalsRequired: Option<u32>,
    approvalsRemaining: Option<u32>,
    rules: Option<seq<ApprovalRule>>,
    observedAt: Time,
    stale: bool,
    headSha: Option<Text>
  )

  datatype CodeHostStatus = CodeHostStatus(provider: CodeHostProvider, hostname: Option<Text>, cliAvailable: bool)

  datatype OperationOutcomeDto = OperationOutcomeDto(kind: OperationOutcomeKind, detail: Text)

  datatype OperationStatusDto = OperationStatusDto(
    id: u64,
    kind: OperationKind,
    outcome: OperationOutcomeDto,
    finishedAt: Option<Time>
  )

  datatype ProjectInfoDto = ProjectInfoDto(
    id: ProjectId,
    name: Text,
    repoPath: Text,
    mainBranch: Text,
    sessionIds: seq<SessionId>,
    originUrl: Option<Text>,
    workspace: Option<Text>
  )

  datatype PullStatusDto = PullStatusDto(kind: PullStatusKind, blockedReason: Option<PullBlockReason>)

  datatype ProjectPullDto = ProjectPullDto(projectId: ProjectId, status: PullStatusDto)

  datatype ServerStatus = ServerStatus(ghAvailable: bool, codeHost: CodeHostStatus, tmuxOk: bool, version: Text)

  datatype SessionIdentity = SessionIdentity(
    id: Text,
    sessionId: SessionId,
    title: Text,
    branch: Text,
    status: SessionStatus,
    program: Text,
    pendingProgram: Option<Text>,
    projectId: ProjectId,
    projectName: Text
  )

  datatype SessionPullRequest = SessionPullRequest(
    prNumber: Option<u32>,
    prUrl: Option<Text>,
    prState: PrState,
    prDraft: bool,
    prLabels: seq<Text>,
    reviewDecision: Option<ReviewDecision>,
    approvalSummary: Option<ApprovalSummary>,
    prReviewers: seq<Text>
  )

  datatype SessionStack = SessionStack(
    createdAt: Time,
    unread: bool,
    stackParentSessionId: Option<SessionId>,
    prBaseBranch: Option<Text>,
    prMerged: bool
  )

  datatype SessionPlace = SessionPlace(
    currentSection: Option<Text>,
    sectionOverride: Option<Text>,
    enteredSectionAt: Option<Time>,
    lastAttachedAt: Option<Time>,
    worktreePath: Text,
    tmuxSessionName: Text,
    keepAlive: bool
  )

  datatype SessionInfo = SessionInfo(
    identity: SessionIdentity,
    pullRequest: SessionPullRequest,
    stack: SessionStack,
    place: SessionPlace
  )

  datatype SnapshotDto = SnapshotDto(
    projects: seq<ProjectInfoDto>,
    sessions: seq<SessionInfo>,
    cascadePaused: Option<SessionId>,
    pendingCommentSessions: seq<SessionId>,
    projectPull: seq<ProjectPullDto>,
    operations: seq<OperationStatusDto>,
    server: ServerStatus,
    workspaces: seq<WorkspaceDef>,
    mainWorkspace: Option<WorkspaceDef>,
    startupWorkspace: Text
  )

  // ---- enumerations, as 32-bit codes ---------------------------------------------------------

  function ApprovalRuleKindCode(v: ApprovalRuleKind): i32 {
    match v
    case AnyApprover => 0
    case Regular => 1
    case CodeOwner => 2
    case ReportApprover => 3
    case Other => 4
  }

  function EncApprovalRuleKind(v: ApprovalRuleKind, tail: Bytes): Bytes {
    EncI32(ApprovalRuleKindCode(v), tail)
  }

  function DecApprovalRuleKind(bytes: Bytes): Option<Read<ApprovalRuleKind>> {
    var n :- DecI32(bytes);
    match n.value
    case 0 => Some(Read(ApprovalRuleKind.AnyApprover, n.rest))
    case 1 => Some(Read(ApprovalRuleKind.Regular, n.rest))
    case 2 => Some(Read(ApprovalRuleKind.CodeOwner, n.rest))
    case 3 => Some(Read(ApprovalRuleKind.ReportApprover, n.rest))
    case 4 => Some(Read(ApprovalRuleKind.Other, n.rest))
    case _ => None
  }

  lemma ApprovalRuleKindCodec(v: ApprovalRuleKind, s: Bytes, t: Bytes) returns (e: Bytes)
    ensures e == EncApprovalRuleKind(v, s) && EncApprovalRuleKind(v, s + t) == e + t && DecApprovalRuleKind(e) == Some(Read(v, s))
  {
    e := I32Codec(ApprovalRuleKindCode(v), s, t);
  }

  function ApprovalStatusCode(v: ApprovalStatus): i32 {
    match v
    case Unapproved => 0
    case NeedsCodeOwner => 1
    case NeedsApprovals => 2
    case Approved => 3
    case NotRequired => 4
    case Blocked => 5
    case Unknown => 6
  }

  function EncApprovalStatus(v: ApprovalStatus, tail: Bytes): Bytes {
    EncI32(ApprovalStatusCode(v), tail)
  }

  function DecApprovalStatus(bytes: Bytes): Option<Read<ApprovalStatus>> {
    var n :- DecI32(bytes);
    match n.value
    case 0 => Some(Read(ApprovalStatus.Unapproved, n.rest))
    case 1 => Some(Read(ApprovalStatus.NeedsCodeOwner, n.rest))
    case 2 => Some(Read(ApprovalStatus.NeedsApprovals, n.rest))
    case 3 => Some(Read(ApprovalStatus.Approved, n.rest))
    case 4 => Some(Read(ApprovalStatus.NotRequired, n.rest))
    case 5 => Some(Read(ApprovalStatus.Blocked, n.rest))
    case 6 => Some(Read(ApprovalStatus.Unknown, n.rest))
    case _ => None
  }

  lemma ApprovalStatusCodec(v: ApprovalStatus, s: Bytes, t: Bytes) returns (e: Bytes)
    ensures e == EncApprovalStatus(v, s) && EncApprovalStatus(v, s + t) == e + t && DecApprovalStatus(e) == Some(Read(v, s))
  {
    e := I32Codec(ApprovalStatusCode(v), s, t);
  }

  function CodeHostProviderCode(v: CodeHostProvider): i32 {
    match v
    case Github => 0
    case Gitlab => 1
  }

  function EncCodeHostProvider(v: CodeHostProvider, tail: Bytes): Bytes {
    EncI32(CodeHostProviderCode(v), tail)
  }

  function DecCodeHostProvider(bytes: Bytes): Option<Read<CodeHostProvider>> {
    var n :- DecI32(bytes);
    match n.value
    case 0 => Some(Read(CodeHostProvider.Github, n.rest))
    case 1 => Some(Read(CodeHostProvider.Gitlab, n.rest))
    case _ => None
  }

  lemma CodeHostProviderCodec(v: CodeHostProvider, s: Bytes, t: Bytes) returns (e: Bytes)
    ensures e == EncCodeHostProvider(v, s) && EncCodeHostProvider(v, s + t) == e + t && DecCodeHostProvider(e) == Some(Read(v, s))
  {
    e := I32Codec(CodeHostProviderCode(v), s, t);
  }

  function OperationKindCode(v: OperationKind): i32 {
    match v
    case Cascade => 0
    case PushStack => 1
  }

  function EncOperationKind(v: OperationKind, tail: Bytes): Bytes {
    EncI32(OperationKindCode(v), tail)
  }

  function DecOperationKind(bytes: Bytes): Option<Read<OperationKind>> {
    var n :- DecI32(bytes);
    match n.value
    case 0 => Some(Read(OperationKind.Cascade, n.rest))
    case 1 => Some(Read(OperationKind.PushStack, n.rest))
    case _ => None
  }

  lemma OperationKindCodec(v: OperationKind, s: Bytes, t: Bytes) returns (e: Bytes)
    ensures e == EncOperationKind(v, s) && EncOperationKind(v, s + t) == e + t && DecOperationKind(e) == Some(Read(v, s))
  {
    e := I32Codec(OperationKindCode(v), s, t);
  }

  function OperationOutcomeKindCode(v: OperationOutcomeKind): i32 {
    match v
    case Succeeded => 0
    case Paused => 1
    case Failed => 2
  }

  function EncOperationOutcomeKind(v: OperationOutcomeKind, tail: Bytes): Bytes {
    EncI32(OperationOutcomeKindCode(v), tail)
  }

  function DecOperationOutcomeKind(bytes: Bytes): Option<Read<OperationOutcomeKind>> {
    var n :- DecI32(bytes);
    match n.value
    case 0 => Some(Read(OperationOutcomeKind.Succeeded, n.rest))
    case 1 => Some(Read(OperationOutcomeKind.Paused, n.rest))
    case 2 => Some(Read(OperationOutcomeKind.Failed, n.rest))
    case _ => None
  }

  lemma OperationOutcomeKindCodec(v: OperationOutcomeKind, s: Bytes, t: Bytes) returns (e: Bytes)
    ensures e == EncOperationOutcomeKind(v, s) && EncOperationOutcomeKind(v, s + t) == e + t && DecOperationOutcomeKind(e) == Some(Read(v, s))
  {
    e := I32Codec(OperationOutcomeKindCode(v), s, t);
  }

  function PrStateCode(v: PrState): i32 {
    match v
    case Open => 0
    case Closed => 1
    case Merged => 2
  }

  function EncPrState(v: PrState, tail: Bytes): Bytes {
    EncI32(PrStateCode(v), tail)
  }

  function DecPrState(bytes: Bytes): Option<Read<PrState>> {
    var n :- DecI32(bytes);
    match n.value
    case 0 => Some(Read(PrState.Open, n.rest))
    case 1 => Some(Read(PrState.Closed, n.rest))
    case 2 => Some(Read(PrState.Merged, n.rest))
    case _ => None
  }

  lemma PrStateCodec(v: PrState, s: Bytes, t: Bytes) returns (e: Bytes)
    ensures e == EncPrState(v, s) && EncPrState(v, s + t) == e + t && DecPrState(e) == Some(Read(v, s))
  {
    e := I32Codec(PrStateCode(v), s, t);
  }

  function PullBlockReasonCode(v: PullBlockReason): i32 {
    match v
    case Dirty => 0
    case Diverged => 1
    case WorktreeConflict => 2
  }

  function EncPullBlockReason(v: PullBlockReason, tail: Bytes): Bytes {
    EncI32(PullBlockReasonCode(v), tail)
  }

  function DecPullBlockReason(bytes: Bytes): Option<Read<PullBlockReason>> {
    var n :- DecI32(bytes);
    match n.value
    case 0 => Some(Read(PullBlockReason.Dirty, n.rest))
    case 1 => Some(Read(PullBlockReason.Diverged, n.rest))
    case 2 => Some(Read(PullBlockReason.WorktreeConflict, n.rest))
    case _ => None
  }

  lemma PullBlockReasonCodec(v: PullBlockReason, s: Bytes, t: Bytes) returns (e: Bytes)
    ensures e == EncPullBlockReason(v, s) && EncPullBlockReason(v, s + t) == e + t && DecPullBlockReason(e) == Some(Read(v, s))
  {
    e := I32Codec(PullBlockReasonCode(v), s, t);
  }

  function PullStatusKindCode(v: PullStatusKind): i32 {
    match v
    case Advanced => 0
    case UpToDate => 1
    case Blocked => 2
    case SoftFail => 3
  }

  function EncPullStatusKind(v: PullStatusKind, tail: Bytes): Bytes {
    EncI32(PullStatusKindCode(v), tail)
  }

  function DecPullStatusKind(bytes: Bytes): Option<Read<PullStatusKind>> {
    var n :- DecI32(bytes);
    match n.value
    case 0 => Some(Read(PullStatusKind.Advanced, n.rest))
    case 1 => Some(Read(PullStatusKind.UpToDate, n.rest))
    case 2 => Some(Read(PullStatusKind.Blocked, n.rest))
    case 3 => Some(Read(PullStatusKind.SoftFail, n.rest))
    case _ => None
  }

  lemma PullStatusKindCodec(v: PullStatusKind, s: Bytes, t: Bytes) returns (e: Bytes)
    ensures e == EncPullStatusKind(v, s) && EncPullStatusKind(v, s + t) == e + t && DecPullStatusKind(e) == Some(Read(v, s))
  {
    e := I32Codec(PullStatusKindCode(v), s, t);
  }

  function ReviewDecisionCode(v: ReviewDecision): i32 {
    match v
    case ReviewRequired => 0
    case Approved => 1
    case ChangesRequested => 2
  }

  function EncReviewDecision(v: ReviewDecision, tail: Bytes): Bytes {
    EncI32(ReviewDecisionCode(v), tail)
  }

  function DecReviewDecision(bytes: Bytes): Option<Read<ReviewDecision>> {
    var n :- DecI32(bytes);
    match n.value
    case 0 => Some(Read(ReviewDecision.ReviewRequired, n.rest))
    case 1 => Some(Read(ReviewDecision.Approved, n.rest))
    case 2 => Some(Read(ReviewDecision.ChangesRequested, n.rest))
    case _ => None
  }

  lemma ReviewDecisionCodec(v: ReviewDecision, s: Bytes, t: Bytes) returns (e: Bytes)
    ensures e == EncReviewDecision(v, s) && EncReviewDecision(v, s + t) == e + t && DecReviewDecision(e) == Some(Read(v, s))
  {
    e := I32Codec(ReviewDecisionCode(v), s, t);
  }

  function SessionStatusCode(v: SessionStatus): i32 {
    match v
    case Creating => 0
    case Running => 1
    case Stopped => 2
    case Merging => 3
    case CascadePaused => 4
    case Pushing => 5
  }

  function EncSessionStatus(v: SessionStatus, tail: Bytes): Bytes {
    EncI32(SessionStatusCode(v), tail)
  }

  function DecSessionStatus(bytes: Bytes): Option<Read<SessionStatus>> {
    var n :- DecI32(bytes);
    match n.value
    case 0 => Some(Read(SessionStatus.Creating, n.rest))
    case 1 => Some(Read(SessionStatus.Running, n.rest))
    case 2 => Some(Read(SessionStatus.Stopped, n.rest))
    case 3 => Some(Read(SessionStatus.Merging, n.rest))
    case 4 => Some(Read(SessionStatus.CascadePaused, n.rest))
    case 5 => Some(Read(SessionStatus.Pushing, n.rest))
    case _ => None
  }

  lemma SessionStatusCodec(v: SessionStatus, s: Bytes, t: Bytes) returns (e: Bytes)
    ensures e == EncSessionStatus(v, s) && EncSessionStatus(v, s + t) == e + t && DecSessionStatus(e) == Some(Read(v, s))
  {
    e := I32Codec(SessionStatusCode(v), s, t);
  }

  // ---- records --------------------------------------------------------------------------------

  function EncProjectId(v: ProjectId, tail: Bytes): Bytes {
    EncUuid(v.id, tail)
  }

  function DecProjectId(bytes: Bytes): Option<Read<ProjectId>> {
    var id :- DecUuid(bytes);
    Some(Read(ProjectId(id.value), id.rest))
  }

  lemma ProjectIdCodec(v: ProjectId, s: Bytes, t: Bytes) returns (e: Bytes)
    ensures e == EncProjectId(v, s) && EncProjectId(v, s + t) == e + t
    ensures DecProjectId(e) == Some(Read(v, s))
  {
    e := UuidCodec(v.id, s, t);
  }

  function EncSessionId(v: SessionId, tail: Bytes): Bytes {
    EncUuid(v.id, tail)
  }

  function DecSessionId(bytes: Bytes): Option<Read<SessionId>> {
    var id :- DecUuid(bytes);
    Some(Read(SessionId(id.value), id.rest))
  }

  lemma SessionIdCodec(v: SessionId, s: Bytes, t: Bytes) returns (e: Bytes)
    ensures e == EncSessionId(v, s) && EncSessionId(v, s + t) == e + t
    ensures DecSessionId(e) == Some(Read(v, s))
  {
    e := UuidCodec(v.id, s, t);
  }

  function EncWorkspaceDef(v: WorkspaceDef, tail: Bytes): Bytes {
    EncText(v.name, tail)
  }

  function DecWorkspaceDef(bytes: Bytes): Option<Read<WorkspaceDef>> {
    var name :- DecText(bytes);
    Some(Read(WorkspaceDef(name.value), name.rest))
  }

  ghost predicate WorkspaceDefFits(v: WorkspaceDef) {
    TextFits(v.name)
  }

  lemma WorkspaceDefCodec(v: WorkspaceDef, s: Bytes, t: Bytes) returns (e: Bytes)
    ensures e == EncWorkspaceDef(v, s) && EncWorkspaceDef(v, s + t) == e + t
    ensures Exact(DecWorkspaceDef(e), v, s, WorkspaceDefFits(v))
  {
    e := TextCodec(v.name, s, t);
  }

  lemma U32Law()
    ensures Lawful(EncU32, DecU32, Same, Always)
  {
    forall v: u32, s: Bytes, t: Bytes
      ensures LawAt(EncU32, DecU32, Same, Always, v, s, t)
    {
      var _ := U32Codec(v, s, t);
    }
  }

  lemma BoolLaw()
    ensures Lawful(EncBool, DecBool, Same, Always)
  {
    forall v: bool, s: Bytes, t: Bytes
      ensures LawAt(EncBool, DecBool, Same, Always, v, s, t)
    {
      var _ := BoolCodec(v, s, t);
    }
  }

  function EncApprovalRule(v: ApprovalRule, tail: Bytes): Bytes {
    EncText(v.id,
    EncText(v.name,
    EncApprovalRuleKind(v.kind,
    EncOption(EncU32, v.approvalsRequired,
    EncOption(EncU32, v.approvalsReceived,
    EncOption(EncU32, v.approvalsRemaining,
    EncOption(EncBool, v.satisfied, tail)))))))
  }

  function DecApprovalRule(bytes: Bytes): Option<Read<ApprovalRule>> {
    var id :- DecText(bytes);
    var name :- DecText(id.rest);
    var kind :- DecApprovalRuleKind(name.rest);
    var approvalsRequired :- DecOption(DecU32, kind.rest);
    var approvalsReceived :- DecOption(DecU32, approvalsRequired.rest);
    var approvalsRemaining :- DecOption(DecU32, approvalsReceived.rest);
    var satisfied :- DecOption(DecBool, approvalsRemaining.rest);
    var v := ApprovalRule(
      id.value, name.value, kind.value, approvalsRequired.value, approvalsReceived.value,
      approvalsRemaining.value, satisfied.value);
    Some(Read(v, satisfied.rest))
  }

  ghost predicate ApprovalRuleFits(v: ApprovalRule) {
    && TextFits(v.id)
    && TextFits(v.name)
  }

  lemma ApprovalRuleCodec(v: ApprovalRule, s: Bytes, t: Bytes) returns (e: Bytes)
    ensures e == EncApprovalRule(v, s) && EncApprovalRule(v, s + t) == e + t
    ensures Exact(DecApprovalRule(e), v, s, ApprovalRuleFits(v))
  {
    hide EncText, DecText, EncApprovalRuleKind, DecApprovalRuleKind, EncOption, DecOption, Lawful;
    U32Law();
    BoolLaw();
    e := OptionCodec(EncBool, DecBool, Same, Always, v.satisfied, s, t);
    e := OptionCodec(EncU32, DecU32, Same, Always, v.approvalsRemaining, e, t);
    e := OptionCodec(EncU32, DecU32, Same, Always, v.approvalsReceived, e, t);
    e := OptionCodec(EncU32, DecU32, Same, Always, v.approvalsRequired, e, t);
    e := ApprovalRuleKindCodec(v.kind, e, t);
    e := TextCodec(v.name, e, t);
    e := TextCodec(v.id, e, t);
  }

  lemma ApprovalRuleLaw()
    ensures Lawful(EncApprovalRule, DecApprovalRule, Same, ApprovalRuleFits)
  {
    forall v: ApprovalRule, s: Bytes, t: Bytes
      ensures LawAt(EncApprovalRule, DecApprovalRule, Same, ApprovalRuleFits, v, s, t)
    {
      var _ := ApprovalRuleCodec(v, s, t);
    }
  }

  function EncApprovalRules(v: seq<ApprovalRule>, tail: Bytes): Bytes {
    EncVec(EncApprovalRule, v, tail)
  }

  function DecApprovalRules(bytes: Bytes): Option<Read<seq<ApprovalRule>>> {
    DecVec(DecApprovalRule, bytes)
  }

  ghost predicate ApprovalRulesFits(v: seq<ApprovalRule>) {
    VecFits(ApprovalRuleFits, v)
  }

  lemma ApprovalRulesCodec(v: seq<ApprovalRule>, s: Bytes, t: Bytes) returns (e: Bytes)
    ensures e == EncApprovalRules(v, s) && EncApprovalRules(v, s + t) == e + t && Exact(DecApprovalRules(e), v, s, ApprovalRulesFits(v))
  {
    ApprovalRuleLaw();
    e := VecCodec(EncApprovalRule, DecApprovalRule, Same, ApprovalRuleFits, v, s, t);
  }

  lemma ApprovalRulesLaw()
    ensures Lawful(EncApprovalRules, DecApprovalRules, Same, ApprovalRulesFits)
  {
    forall v: seq<ApprovalRule>, s: Bytes, t: Bytes
      ensures LawAt(EncApprovalRules, DecApprovalRules, Same, ApprovalRulesFits, v, s, t)
    {
      var _ := ApprovalRulesCodec(v, s, t);
    }
  }

  lemma TextLaw()
    ensures Lawful(EncText, DecText, Same, TextFits)
  {
    forall v: Text, s: Bytes, t: Bytes
      ensures LawAt(EncText, DecText, Same, TextFits, v, s, t)
    {
      var _ := TextCodec(v, s, t);
    }
  }

  function EncApprovalSummary(v: ApprovalSummary, tail: Bytes): Bytes {
    EncApprovalStatus(v.status,
    EncOption(EncBool, v.requirementsSatisfied,
    EncOption(EncU32, v.approvalsReceived,
    EncOption(EncU32, v.approvalsRequired,
    EncOption(EncU32, v.approvalsRemaining,
    EncOption(EncApprovalRules, v.rules,
    EncTime(v.observedAt,
    EncBool(v.stale,
    EncOption(EncText, v.headSha, tail)))))))))
  }

  function DecApprovalSummary(bytes: Bytes): Option<Read<ApprovalSummary>> {
    var status :- DecApprovalStatus(bytes);
    var requirementsSatisfied :- DecOption(DecBool, status.rest);
    var approvalsReceived :- DecOption(DecU32, requirementsSatisfied.rest);
    var approvalsRequired :- DecOption(DecU32, approvalsReceived.rest);
    var approvalsRemaining :- DecOption(DecU32, approvalsRequired.rest);
    var rules :- DecOption(DecApprovalRules, approvalsRemaining.rest);
    var observedAt :- DecTime(rules.rest);
    var stale :- DecBool(observedAt.rest);
    var headSha :- DecOption(DecText, stale.rest);
    var v := ApprovalSummary(
      status.value, requirementsSatisfied.value, approvalsReceived.value, approvalsRequired.value,
      approvalsRemaining.value, rules.value, observedAt.value, stale.value, headSha.value);
    Some(Read(v, headSha.rest))
  }

  ghost predicate ApprovalSummaryFits(v: ApprovalSummary) {
    && OptionFits(ApprovalRulesFits, v.rules)
    && TimeFits(v.observedAt)
    && OptionFits(TextFits, v.headSha)
  }

  function NormApprovalSummary(v: ApprovalSummary): ApprovalSummary {
    v.(observedAt := NormTime(v.observedAt))
  }

  lemma ApprovalSummaryCodec(v: ApprovalSummary, s: Bytes, t: Bytes) returns (e: Bytes)
    ensures e == EncApprovalSummary(v, s) && EncApprovalSummary(v, s + t) == e + t
    ensures Exact(DecApprovalSummary(e), NormApprovalSummary(v), s, ApprovalSummaryFits(v))
  {
    hide EncApprovalStatus, DecApprovalStatus, EncOption, DecOption, EncTime, DecTime, EncBool, DecBool,
      Lawful;
    BoolLaw();
    U32Law();
    ApprovalRulesLaw();
    TextLaw();
    e := OptionCodec(EncText, DecText, Same, TextFits, v.headSha, s, t);
    e := BoolCodec(v.stale, e, t);
    e := TimeCodec(v.observedAt, e, t);
    e := OptionCodec(EncApprovalRules, DecApprovalRules, Same, ApprovalRulesFits, v.rules, e, t);
    e := OptionCodec(EncU32, DecU32, Same, Always, v.approvalsRemaining, e, t);
    e := OptionCodec(EncU32, DecU32, Same, Always, v.approvalsRequired, e, t);
    e := OptionCodec(EncU32, DecU32, Same, Always, v.approvalsReceived, e, t);
    e := OptionCodec(EncBool, DecBool, Same, Always, v.requirementsSatisfied, e, t);
    e := ApprovalStatusCodec(v.status, e, t);
  }

  function EncCodeHostStatus(v: CodeHostStatus, tail: Bytes): Bytes {
    EncCodeHostProvider(v.provider,
    EncOption(EncText, v.hostname,
    EncBool(v.cliAvailable, tail)))
  }

  function DecCodeHostStatus(bytes: Bytes): Option<Read<CodeHostStatus>> {
    var provider :- DecCodeHostProvider(bytes);
    var hostname :- DecOption(DecText, provider.rest);
    var cliAvailable :- DecBool(hostname.rest);
    Some(Read(CodeHostStatus(provider.value, hostname.value, cliAvailable.value), cliAvailable.rest))
  }

  ghost predicate CodeHostStatusFits(v: CodeHostStatus) {
    OptionFits(TextFits, v.hostname)
  }

  lemma CodeHostStatusCodec(v: CodeHostStatus, s: Bytes, t: Bytes) returns (e: Bytes)
    ensures e == EncCodeHostStatus(v, s) && EncCodeHostStatus(v, s + t) == e + t
    ensures Exact(DecCodeHostStatus(e), v, s, CodeHostStatusFits(v))
  {
    hide EncCodeHostProvider, DecCodeHostProvider, EncOption, DecOption, EncBool, DecBool, Lawful;
    TextLaw();
    e := BoolCodec(v.cliAvailable, s, t);
    e := OptionCodec(EncText, DecText, Same, TextFits, v.hostname, e, t);
    e := CodeHostProviderCodec(v.provider, e, t);
  }

  function EncOperationOutcomeDto(v: OperationOutcomeDto, tail: Bytes): Bytes {
    EncOperationOutcomeKind(v.kind,
    EncText(v.detail, tail))
  }

  function DecOperationOutcomeDto(bytes: Bytes): Option<Read<OperationOutcomeDto>> {
    var kind :- DecOperationOutcomeKind(bytes);
    var detail :- DecText(kind.rest);
    Some(Read(OperationOutcomeDto(kind.value, detail.value), detail.rest))
  }

  ghost predicate OperationOutcomeDtoFits(v: OperationOutcomeDto) {
    TextFits(v.detail)
  }

  lemma OperationOutcomeDtoCodec(v: OperationOutcomeDto, s: Bytes, t: Bytes) returns (e: Bytes)
    ensures e == EncOperationOutcomeDto(v, s) && EncOperationOutcomeDto(v, s + t) == e + t
    ensures Exact(DecOperationOutcomeDto(e), v, s, OperationOutcomeDtoFits(v))
  {
    e := TextCodec(v.detail, s, t);
    e := OperationOutcomeKindCodec(v.kind, e, t);
  }

  lemma TimeLaw()
    ensures Lawful(EncTime, DecTime, NormTime, TimeFits)
  {
    forall v: Time, s: Bytes, t: Bytes
      ensures LawAt(EncTime, DecTime, NormTime, TimeFits, v, s, t)
    {
      var _ := TimeCodec(v, s, t);
    }
  }

  function EncOperationStatusDto(v: OperationStatusDto, tail: Bytes): Bytes {
    EncU64(v.id,
    EncOperationKind(v.kind,
    EncOperationOutcomeDto(v.outcome,
    EncOption(EncTime, v.finishedAt, tail))))
  }

  function DecOperationStatusDto(bytes: Bytes): Option<Read<OperationStatusDto>> {
    var id :- DecU64(bytes);
    var kind :- DecOperationKind(id.rest);
    var outcome :- DecOperationOutcomeDto(kind.rest);
    var finishedAt :- DecOption(DecTime, outcome.rest);
    Some(Read(OperationStatusDto(id.value, kind.value, outcome.value, finishedAt.value), finishedAt.rest))
  }

  ghost predicate OperationStatusDtoFits(v: OperationStatusDto) {
    && OperationOutcomeDtoFits(v.outcome)
    && OptionFits(TimeFits, v.finishedAt)
  }

  function NormOperationStatusDto(v: OperationStatusDto): OperationStatusDto {
    v.(finishedAt := MapOption(NormTime, v.finishedAt))
  }

  lemma OperationStatusDtoCodec(v: OperationStatusDto, s: Bytes, t: Bytes) returns (e: Bytes)
    ensures e == EncOperationStatusDto(v, s) && EncOperationStatusDto(v, s + t) == e + t
    ensures Exact(DecOperationStatusDto(e), NormOperationStatusDto(v), s, OperationStatusDtoFits(v))
  {
    hide EncU64, DecU64, EncOperationKind, DecOperationKind, EncOperationOutcomeDto,
      DecOperationOutcomeDto, EncOption, DecOption, Lawful;
    TimeLaw();
    e := OptionCodec(EncTime, DecTime, NormTime, TimeFits, v.finishedAt, s, t);
    e := OperationOutcomeDtoCodec(v.outcome, e, t);
    e := OperationKindCodec(v.kind, e, t);
    e := U64Codec(v.id, e, t);
  }

  lemma SessionIdLaw()
    ensures Lawful(EncSessionId, DecSessionId, Same, Always)
  {
    forall v: SessionId, s: Bytes, t: Bytes
      ensures LawAt(EncSessionId, DecSessionId, Same, Always, v, s, t)
    {
      var _ := SessionIdCodec(v, s, t);
    }
  }

  function EncProjectInfoDto(v: ProjectInfoDto, tail: Bytes): Bytes {
    EncProjectId(v.id,
    EncText(v.name,
    EncText(v.repoPath,
    EncText(v.mainBranch,
    EncVec(EncSessionId, v.sessionIds,
    EncOption(EncText, v.originUrl,
    EncOption(EncText, v.workspace, tail)))))))
  }

  function DecProjectInfoDto(bytes: Bytes): Option<Read<ProjectInfoDto>> {
    var id :- DecProjectId(bytes);
    var name :- DecText(id.rest);
    var repoPath :- DecText(name.rest);
    var mainBranch :- DecText(repoPath.rest);
    var sessionIds :- DecVec(DecSessionId, mainBranch.rest);
    var originUrl :- DecOption(DecText, sessionIds.rest);
    var workspace :- DecOption(DecText, originUrl.rest);
    var v := ProjectInfoDto(
      id.value, name.value, repoPath.value, mainBranch.value, sessionIds.value, originUrl.value,
      workspace.value);
    Some(Read(v, workspace.rest))
  }

  ghost predicate ProjectInfoDtoFits(v: ProjectInfoDto) {
    && TextFits(v.name)
    && TextFits(v.repoPath)
    && TextFits(v.mainBranch)
    && VecFits(Always, v.sessionIds)
    && OptionFits(TextFits, v.originUrl)
    && OptionFits(TextFits, v.workspace)
  }

  lemma ProjectInfoDtoCodec(v: ProjectInfoDto, s: Bytes, t: Bytes) returns (e: Bytes)
    ensures e == EncProjectInfoDto(v, s) && EncProjectInfoDto(v, s + t) == e + t
    ensures Exact(DecProjectInfoDto(e), v, s, ProjectInfoDtoFits(v))
  {
    hide EncProjectId, DecProjectId, EncText, DecText, EncVec, DecVec, EncOption, DecOption, Lawful;
    SessionIdLaw();
    TextLaw();
    e := OptionCodec(EncText, DecText, Same, TextFits, v.workspace, s, t);
    e := OptionCodec(EncText, DecText, Same, TextFits, v.originUrl, e, t);
    e := VecCodec(EncSessionId, DecSessionId, Same, Always, v.sessionIds, e, t);
    e := TextCodec(v.mainBranch, e, t);
    e := TextCodec(v.repoPath, e, t);
    e := TextCodec(v.name, e, t);
    e := ProjectIdCodec(v.id, e, t);
  }

  lemma PullBlockReasonLaw()
    ensures Lawful(EncPullBlockReason, DecPullBlockReason, Same, Always)
  {
    forall v: PullBlockReason, s: Bytes, t: Bytes
      ensures LawAt(EncPullBlockReason, DecPullBlockReason, Same, Always, v, s, t)
    {
      var _ := PullBlockReasonCodec(v, s, t);
    }
  }

  function EncPullStatusDto(v: PullStatusDto, tail: Bytes): Bytes {
    EncPullStatusKind(v.kind,
    EncOption(EncPullBlockReason, v.blockedReason, tail))
  }

  function DecPullStatusDto(bytes: Bytes): Option<Read<PullStatusDto>> {
    var kind :- DecPullStatusKind(bytes);
    var blockedReason :- DecOption(DecPullBlockReason, kind.rest);
    Some(Read(PullStatusDto(kind.value, blockedReason.value), blockedReason.rest))
  }

  lemma PullStatusDtoCodec(v: PullStatusDto, s: Bytes, t: Bytes) returns (e: Bytes)
    ensures e == EncPullStatusDto(v, s) && EncPullStatusDto(v, s + t) == e + t
    ensures DecPullStatusDto(e) == Some(Read(v, s))
  {
    PullBlockReasonLaw();
    e := OptionCodec(EncPullBlockReason, DecPullBlockReason, Same, Always, v.blockedReason, s, t);
    e := PullStatusKindCodec(v.kind, e, t);
  }

  function EncProjectPullDto(v: ProjectPullDto, tail: Bytes): Bytes {
    EncProjectId(v.projectId,
    EncPullStatusDto(v.status, tail))
  }

  function DecProjectPullDto(bytes: Bytes): Option<Read<ProjectPullDto>> {
    var projectId :- DecProjectId(bytes);
    var status :- DecPullStatusDto(projectId.rest);
    Some(Read(ProjectPullDto(projectId.value, status.value), status.rest))
  }

  lemma ProjectPullDtoCodec(v: ProjectPullDto, s: Bytes, t: Bytes) returns (e: Bytes)
    ensures e == EncProjectPullDto(v, s) && EncProjectPullDto(v, s + t) == e + t
    ensures DecProjectPullDto(e) == Some(Read(v, s))
  {
    e := PullStatusDtoCodec(v.status, s, t);
    e := ProjectIdCodec(v.projectId, e, t);
  }

  function EncServerStatus(v: ServerStatus, tail: Bytes): Bytes {
    EncBool(v.ghAvailable,
    EncCodeHostStatus(v.codeHost,
    EncBool(v.tmuxOk,
    EncText(v.version, tail))))
  }

  function DecServerStatus(bytes: Bytes): Option<Read<ServerStatus>> {
    var ghAvailable :- DecBool(bytes);
    var codeHost :- DecCodeHostStatus(ghAvailable.rest);
    var tmuxOk :- DecBool(codeHost.rest);
    var version :- DecText(tmuxOk.rest);
    Some(Read(ServerStatus(ghAvailable.value, codeHost.value, tmuxOk.value, version.value), version.rest))
  }

  ghost predicate ServerStatusFits(v: ServerStatus) {
    && CodeHostStatusFits(v.codeHost)
    && TextFits(v.version)
  }

  lemma ServerStatusCodec(v: ServerStatus, s: Bytes, t: Bytes) returns (e: Bytes)
    ensures e == EncServerStatus(v, s) && EncServerStatus(v, s + t) == e + t
    ensures Exact(DecServerStatus(e), v, s, ServerStatusFits(v))
  {
    hide EncBool, DecBool, EncCodeHostStatus, DecCodeHostStatus, EncText, DecText;
    e := TextCodec(v.version, s, t);
    e := BoolCodec(v.tmuxOk, e, t);
    e := CodeHostStatusCodec(v.codeHost, e, t);
    e := BoolCodec(v.ghAvailable, e, t);
  }

  lemma ServerStatusLaw()
    ensures Lawful(EncServerStatus, DecServerStatus, Same, ServerStatusFits)
  {
    forall v: ServerStatus, s: Bytes, t: Bytes
      ensures LawAt(EncServerStatus, DecServerStatus, Same, ServerStatusFits, v, s, t)
    {
      var _ := ServerStatusCodec(v, s, t);
    }
  }

  function EncSessionIdentity(v: SessionIdentity, tail: Bytes): Bytes {
    EncText(v.id,
    EncSessionId(v.sessionId,
    EncText(v.title,
    EncText(v.branch,
    EncSessionStatus(v.status,
    EncText(v.program,
    EncOption(EncText, v.pendingProgram,
    EncProjectId(v.projectId,
    EncText(v.projectName, tail)))))))))
  }

  function DecSessionIdentity(bytes: Bytes): Option<Read<SessionIdentity>> {
    var id :- DecText(bytes);
    var sessionId :- DecSessionId(id.rest);
    var title :- DecText(sessionId.rest);
    var branch :- DecText(title.rest);
    var status :- DecSessionStatus(branch.rest);
    var program :- DecText(status.rest);
    var pendingProgram :- DecOption(DecText, program.rest);
    var projectId :- DecProjectId(pendingProgram.rest);
    var projectName :- DecText(projectId.rest);
    var v := SessionIdentity(
      id.value, sessionId.value, title.value, branch.value, status.value, program.value,
      pendingProgram.value, projectId.value, projectName.value);
    Some(Read(v, projectName.rest))
  }

  ghost predicate SessionIdentityFits(v: SessionIdentity) {
    && TextFits(v.id)
    && TextFits(v.title)
    && TextFits(v.branch)
    && TextFits(v.program)
    && OptionFits(TextFits, v.pendingProgram)
    && TextFits(v.projectName)
  }

  lemma SessionIdentityCodec(v: SessionIdentity, s: Bytes, t: Bytes) returns (e: Bytes)
    ensures e == EncSessionIdentity(v, s) && EncSessionIdentity(v, s + t) == e + t
    ensures Exact(DecSessionIdentity(e), v, s, SessionIdentityFits(v))
  {
    hide EncText, DecText, EncSessionId, DecSessionId, EncSessionStatus, DecSessionStatus, EncOption,
      DecOption, EncProjectId, DecProjectId, Lawful;
    TextLaw();
    e := TextCodec(v.projectName, s, t);
    e := ProjectIdCodec(v.projectId, e, t);
    e := OptionCodec(EncText, DecText, Same, TextFits, v.pendingProgram, e, t);
    e := TextCodec(v.program, e, t);
    e := SessionStatusCodec(v.status, e, t);
    e := TextCodec(v.branch, e, t);
    e := TextCodec(v.title, e, t);
    e := SessionIdCodec(v.sessionId, e, t);
    e := TextCodec(v.id, e, t);
  }

  lemma ReviewDecisionLaw()
    ensures Lawful(EncReviewDecision, DecReviewDecision, Same, Always)
  {
    forall v: ReviewDecision, s: Bytes, t: Bytes
      ensures LawAt(EncReviewDecision, DecReviewDecision, Same, Always, v, s, t)
    {
      var _ := ReviewDecisionCodec(v, s, t);
    }
  }

  lemma ApprovalSummaryLaw()
    ensures Lawful(EncApprovalSummary, DecApprovalSummary, NormApprovalSummary, ApprovalSummaryFits)
  {
    forall v: ApprovalSummary, s: Bytes, t: Bytes
      ensures LawAt(EncApprovalSummary, DecApprovalSummary, NormApprovalSummary, ApprovalSummaryFits, v, s, t)
    {
      var _ := ApprovalSummaryCodec(v, s, t);
    }
  }

  function EncSessionPullRequest(v: SessionPullRequest, tail: Bytes): Bytes {
    EncOption(EncU32, v.prNumber,
    EncOption(EncText, v.prUrl,
    EncPrState(v.prState,
    EncBool(v.prDraft,
    EncVec(EncText, v.prLabels,
    EncOption(EncReviewDecision, v.reviewDecision,
    EncOption(EncApprovalSummary, v.approvalSummary,
    EncVec(EncText, v.prReviewers, tail))))))))
  }

  function DecSessionPullRequest(bytes: Bytes): Option<Read<SessionPullRequest>> {
    var prNumber :- DecOption(DecU32, bytes);
    var prUrl :- DecOption(DecText, prNumber.rest);
    var prState :- DecPrState(prUrl.rest);
    var prDraft :- DecBool(prState.rest);
    var prLabels :- DecVec(DecText, prDraft.rest);
    var reviewDecision :- DecOption(DecReviewDecision, prLabels.rest);
    var approvalSummary :- DecOption(DecApprovalSummary, reviewDecision.rest);
    var prReviewers :- DecVec(DecText, approvalSummary.rest);
    var v := SessionPullRequest(
      prNumber.value, prUrl.value, prState.value, prDraft.value, prLabels.value, reviewDecision.value,
      approvalSummary.value, prReviewers.value);
    Some(Read(v, prReviewers.rest))
  }

  ghost predicate SessionPullRequestFits(v: SessionPullRequest) {
    && OptionFits(TextFits, v.prUrl)
    && VecFits(TextFits, v.prLabels)
    && OptionFits(ApprovalSummaryFits, v.approvalSummary)
    && VecFits(TextFits, v.prReviewers)
  }

  function NormSessionPullRequest(v: SessionPullRequest): SessionPullRequest {
    v.(approvalSummary := MapOption(NormApprovalSummary, v.approvalSummary))
  }

  lemma SessionPullRequestCodec(v: SessionPullRequest, s: Bytes, t: Bytes) returns (e: Bytes)
    ensures e == EncSessionPullRequest(v, s) && EncSessionPullRequest(v, s + t) == e + t
    ensures Exact(DecSessionPullRequest(e), NormSessionPullRequest(v), s, SessionPullRequestFits(v))
  {
    hide EncOption, DecOption, EncPrState, DecPrState, EncBool, DecBool, EncVec, DecVec, Lawful;
    U32Law();
    TextLaw();
    ReviewDecisionLaw();
    ApprovalSummaryLaw();
    e := VecCodec(EncText, DecText, Same, TextFits, v.prReviewers, s, t);
    e := OptionCodec(EncApprovalSummary, DecApprovalSummary, NormApprovalSummary, ApprovalSummaryFits, v.approvalSummary, e, t);
    e := OptionCodec(EncReviewDecision, DecReviewDecision, Same, Always, v.reviewDecision, e, t);
    e := VecCodec(EncText, DecText, Same, TextFits, v.prLabels, e, t);
    e := BoolCodec(v.prDraft, e, t);
    e := PrStateCodec(v.prState, e, t);
    e := OptionCodec(EncText, DecText, Same, TextFits, v.prUrl, e, t);
    e := OptionCodec(EncU32, DecU32, Same, Always, v.prNumber, e, t);
  }

  function EncSessionStack(v: SessionStack, tail: Bytes): Bytes {
    EncTime(v.createdAt,
    EncBool(v.unread,
    EncOption(EncSessionId, v.stackParentSessionId,
    EncOption(EncText, v.prBaseBranch,
    EncBool(v.prMerged, tail)))))
  }

  function DecSessionStack(bytes: Bytes): Option<Read<SessionStack>> {
    var createdAt :- DecTime(bytes);
    var unread :- DecBool(createdAt.rest);
    var stackParentSessionId :- DecOption(DecSessionId, unread.rest);
    var prBaseBranch :- DecOption(DecText, stackParentSessionId.rest);
    var prMerged :- DecBool(prBaseBranch.rest);
    var v := SessionStack(
      createdAt.value, unread.value, stackParentSessionId.value, prBaseBranch.value, prMerged.value);
    Some(Read(v, prMerged.rest))
  }

  ghost predicate SessionStackFits(v: SessionStack) {
    && TimeFits(v.createdAt)
    && OptionFits(TextFits, v.prBaseBranch)
  }

  function NormSessionStack(v: SessionStack): SessionStack {
    v.(createdAt := NormTime(v.createdAt))
  }

  lemma SessionStackCodec(v: SessionStack, s: Bytes, t: Bytes) returns (e: Bytes)
    ensures e == EncSessionStack(v, s) && EncSessionStack(v, s + t) == e + t
    ensures Exact(DecSessionStack(e), NormSessionStack(v), s, SessionStackFits(v))
  {
    hide EncTime, DecTime, EncBool, DecBool, EncOption, DecOption, Lawful;
    SessionIdLaw();
    TextLaw();
    e := BoolCodec(v.prMerged, s, t);
    e := OptionCodec(EncText, DecText, Same, TextFits, v.prBaseBranch, e, t);
    e := OptionCodec(EncSessionId, DecSessionId, Same, Always, v.stackParentSessionId, e, t);
    e := BoolCodec(v.unread, e, t);
    e := TimeCodec(v.createdAt, e, t);
  }

  function EncSessionPlace(v: SessionPlace, tail: Bytes): Bytes {
    EncOption(EncText, v.currentSection,
    EncOption(EncText, v.sectionOverride,
    EncOption(EncTime, v.enteredSectionAt,
    EncOption(EncTime, v.lastAttachedAt,
    EncText(v.worktreePath,
    EncText(v.tmuxSessionName,
    EncBool(v.keepAlive, tail)))))))
  }

  function DecSessionPlace(bytes: Bytes): Option<Read<SessionPlace>> {
    var currentSection :- DecOption(DecText, bytes);
    var sectionOverride :- DecOption(DecText, currentSection.rest);
    var enteredSectionAt :- DecOption(DecTime, sectionOverride.rest);
    var lastAttachedAt :- DecOption(DecTime, enteredSectionAt.rest);
    var worktreePath :- DecText(lastAttachedAt.rest);
    var tmuxSessionName :- DecText(worktreePath.rest);
    var keepAlive :- DecBool(tmuxSessionName.rest);
    var v := SessionPlace(
      currentSection.value, sectionOverride.value, enteredSectionAt.value, lastAttachedAt.value,
      worktreePath.value, tmuxSessionName.value, keepAlive.value);
    Some(Read(v, keepAlive.rest))
  }

  ghost predicate SessionPlaceFits(v: SessionPlace) {
    && OptionFits(TextFits, v.currentSection)
    && OptionFits(TextFits, v.sectionOverride)
    && OptionFits(TimeFits, v.enteredSectionAt)
    && OptionFits(TimeFits, v.lastAttachedAt)
    && TextFits(v.worktreePath)
    && TextFits(v.tmuxSessionName)
  }

  function NormSessionPlace(v: SessionPlace): SessionPlace {
    v.(enteredSectionAt := MapOption(NormTime, v.enteredSectionAt),
       lastAttachedAt := MapOption(NormTime, v.lastAttachedAt))
  }

  lemma SessionPlaceCodec(v: SessionPlace, s: Bytes, t: Bytes) returns (e: Bytes)
    ensures e == EncSessionPlace(v, s) && EncSessionPlace(v, s + t) == e + t
    ensures Exact(DecSessionPlace(e), NormSessionPlace(v), s, SessionPlaceFits(v))
  {
    hide EncOption, DecOption, EncText, DecText, EncBool, DecBool, Lawful;
    TextLaw();
    TimeLaw();
    e := BoolCodec(v.keepAlive, s, t);
    e := TextCodec(v.tmuxSessionName, e, t);
    e := TextCodec(v.worktreePath, e, t);
    e := OptionCodec(EncTime, DecTime, NormTime, TimeFits, v.lastAttachedAt, e, t);
    e := OptionCodec(EncTime, DecTime, NormTime, TimeFits, v.enteredSectionAt, e, t);
    e := OptionCodec(EncText, DecText, Same, TextFits, v.sectionOverride, e, t);
    e := OptionCodec(EncText, DecText, Same, TextFits, v.currentSection, e, t);
  }

  function EncSessionInfo(v: SessionInfo, tail: Bytes): Bytes {
    EncSessionIdentity(v.identity,
    EncSessionPullRequest(v.pullRequest,
    EncSessionStack(v.stack,
    EncSessionPlace(v.place, tail))))
  }

  function DecSessionInfo(bytes: Bytes): Option<Read<SessionInfo>> {
    var identity :- DecSessionIdentity(bytes);
    var pullRequest :- DecSessionPullRequest(identity.rest);
    var stack :- DecSessionStack(pullRequest.rest);
    var place :- DecSessionPlace(stack.rest);
    Some(Read(SessionInfo(identity.value, pullRequest.value, stack.value, place.value), place.rest))
  }

  ghost predicate SessionInfoFits(v: SessionInfo) {
    && SessionIdentityFits(v.identity)
    && SessionPullRequestFits(v.pullRequest)
    && SessionStackFits(v.stack)
    && SessionPlaceFits(v.place)
  }

  function NormSessionInfo(v: SessionInfo): SessionInfo {
    v.(pullRequest := NormSessionPullRequest(v.pullRequest),
       stack := NormSessionStack(v.stack),
       place := NormSessionPlace(v.place))
  }

  lemma SessionInfoCodec(v: SessionInfo, s: Bytes, t: Bytes) returns (e: Bytes)
    ensures e == EncSessionInfo(v, s) && EncSessionInfo(v, s + t) == e + t
    ensures Exact(DecSessionInfo(e), NormSessionInfo(v), s, SessionInfoFits(v))
  {
    hide EncSessionIdentity, DecSessionIdentity, EncSessionPullRequest, DecSessionPullRequest,
      EncSessionStack, DecSessionStack, EncSessionPlace, DecSessionPlace;
    e := SessionPlaceCodec(v.place, s, t);
    e := SessionStackCodec(v.stack, e, t);
    e := SessionPullRequestCodec(v.pullRequest, e, t);
    e := SessionIdentityCodec(v.identity, e, t);
  }

  lemma ProjectInfoDtoLaw()
    ensures Lawful(EncProjectInfoDto, DecProjectInfoDto, Same, ProjectInfoDtoFits)
  {
    forall v: ProjectInfoDto, s: Bytes, t: Bytes
      ensures LawAt(EncProjectInfoDto, DecProjectInfoDto, Same, ProjectInfoDtoFits, v, s, t)
    {
      var _ := ProjectInfoDtoCodec(v, s, t);
    }
  }

  lemma SessionInfoLaw()
    ensures Lawful(EncSessionInfo, DecSessionInfo, NormSessionInfo, SessionInfoFits)
  {
    forall v: SessionInfo, s: Bytes, t: Bytes
      ensures LawAt(EncSessionInfo, DecSessionInfo, NormSessionInfo, SessionInfoFits, v, s, t)
    {
      var _ := SessionInfoCodec(v, s, t);
    }
  }

  lemma ProjectPullDtoLaw()
    ensures Lawful(EncProjectPullDto, DecProjectPullDto, Same, Always)
  {
    forall v: ProjectPullDto, s: Bytes, t: Bytes
      ensures LawAt(EncProjectPullDto, DecProjectPullDto, Same, Always, v, s, t)
    {
      var _ := ProjectPullDtoCodec(v, s, t);
    }
  }

  lemma OperationStatusDtoLaw()
    ensures Lawful(EncOperationStatusDto, DecOperationStatusDto, NormOperationStatusDto, OperationStatusDtoFits)
  {
    forall v: OperationStatusDto, s: Bytes, t: Bytes
      ensures LawAt(EncOperationStatusDto, DecOperationStatusDto, NormOperationStatusDto, OperationStatusDtoFits, v, s, t)
    {
      var _ := OperationStatusDtoCodec(v, s, t);
    }
  }

  lemma WorkspaceDefLaw()
    ensures Lawful(EncWorkspaceDef, DecWorkspaceDef, Same, WorkspaceDefFits)
  {
    forall v: WorkspaceDef, s: Bytes, t: Bytes
      ensures LawAt(EncWorkspaceDef, DecWorkspaceDef, Same, WorkspaceDefFits, v, s, t)
    {
      var _ := WorkspaceDefCodec(v, s, t);
    }
  }

  function EncSnapshotDto(v: SnapshotDto, tail: Bytes): Bytes {
    EncVec(EncProjectInfoDto, v.projects,
    EncVec(EncSessionInfo, v.sessions,
    EncOption(EncSessionId, v.cascadePaused,
    EncVec(EncSessionId, v.pendingCommentSessions,
    EncVec(EncProjectPullDto, v.projectPull,
    EncVec(EncOperationStatusDto, v.operations,
    EncServerStatus(v.server,
    EncVec(EncWorkspaceDef, v.workspaces,
    EncOption(EncWorkspaceDef, v.mainWorkspace,
    EncText(v.startupWorkspace, tail))))))))))
  }

  function DecSnapshotDto(bytes: Bytes): Option<Read<SnapshotDto>> {
    var projects :- DecVec(DecProjectInfoDto, bytes);
    var sessions :- DecVec(DecSessionInfo, projects.rest);
    var cascadePaused :- DecOption(DecSessionId, sessions.rest);
    var pendingCommentSessions :- DecVec(DecSessionId, cascadePaused.rest);
    var projectPull :- DecVec(DecProjectPullDto, pendingCommentSessions.rest);
    var operations :- DecVec(DecOperationStatusDto, projectPull.rest);
    var server :- DecServerStatus(operations.rest);
    var workspaces :- DecVec(DecWorkspaceDef, server.rest);
    var mainWorkspace :- DecOption(DecWorkspaceDef, workspaces.rest);
    var startupWorkspace :- DecText(mainWorkspace.rest);
    var v := SnapshotDto(
      projects.value, sessions.value, cascadePaused.value, pendingCommentSessions.value,
      projectPull.value, operations.value, server.value, workspaces.value, mainWorkspace.value,
      startupWorkspace.value);
    Some(Read(v, startupWorkspace.rest))
  }

  ghost predicate SnapshotDtoFits(v: SnapshotDto) {
    && VecFits(ProjectInfoDtoFits, v.projects)
    && VecFits(SessionInfoFits, v.sessions)
    && VecFits(Always, v.pendingCommentSessions)
    && VecFits(Always, v.projectPull)
    && VecFits(OperationStatusDtoFits, v.operations)
    && ServerStatusFits(v.server)
    && VecFits(WorkspaceDefFits, v.workspaces)
    && OptionFits(WorkspaceDefFits, v.mainWorkspace)
    && TextFits(v.startupWorkspace)
  }

  function NormSnapshotDto(v: SnapshotDto): SnapshotDto {
    v.(sessions := Mapped(NormSessionInfo, v.sessions),
       operations := Mapped(NormOperationStatusDto, v.operations))
  }

  lemma SnapshotDtoCodec(v: SnapshotDto, s: Bytes, t: Bytes) returns (e: Bytes)
    ensures e == EncSnapshotDto(v, s) && EncSnapshotDto(v, s + t) == e + t
    ensures Exact(DecSnapshotDto(e), NormSnapshotDto(v), s, SnapshotDtoFits(v))
  {
    hide EncVec, DecVec, EncOption, DecOption, EncServerStatus, DecServerStatus, EncText, DecText, Lawful;
    ProjectInfoDtoLaw();
    SessionInfoLaw();
    SessionIdLaw();
    ProjectPullDtoLaw();
    OperationStatusDtoLaw();
    WorkspaceDefLaw();
    e := TextCodec(v.startupWorkspace, s, t);
    e := OptionCodec(EncWorkspaceDef, DecWorkspaceDef, Same, WorkspaceDefFits, v.mainWorkspace, e, t);
    e := VecCodec(EncWorkspaceDef, DecWorkspaceDef, Same, WorkspaceDefFits, v.workspaces, e, t);
    e := ServerStatusCodec(v.server, e, t);
    e := VecCodec(EncOperationStatusDto, DecOperationStatusDto, NormOperationStatusDto, OperationStatusDtoFits, v.operations, e, t);
    e := VecCodec(EncProjectPullDto, DecProjectPullDto, Same, Always, v.projectPull, e, t);
    e := VecCodec(EncSessionId, DecSessionId, Same, Always, v.pendingCommentSessions, e, t);
    e := OptionCodec(EncSessionId, DecSessionId, Same, Always, v.cascadePaused, e, t);
    e := VecCodec(EncSessionInfo, DecSessionInfo, NormSessionInfo, SessionInfoFits, v.sessions, e, t);
    e := VecCodec(EncProjectInfoDto, DecProjectInfoDto, Same, ProjectInfoDtoFits, v.projects, e, t);
  }

  // ---- the round trip ---------------------------------------------------------------------------

  /**
   Whatever follows, an encoded snapshot is read back with its times truncated to microseconds, up
   to the first byte that follows; exactly when its strings and vectors have at most 2^31 - 1
   elements and its times do not end on the last leap second.
   */
  lemma SnapshotRoundTrip(v: SnapshotDto, tail: Bytes)
    ensures Exact(DecSnapshotDto(EncSnapshotDto(v, []) + tail), NormSnapshotDto(v), tail, SnapshotDtoFits(v))
  {
    hide EncSnapshotDto, DecSnapshotDto, NormSnapshotDto, SnapshotDtoFits;
    var sent := SnapshotDtoCodec(v, [], tail);
    var all := SnapshotDtoCodec(v, tail, []);
    assert [] + tail == tail;
  }

  /** No encoding is a proper prefix of another, and one byte stream carries one snapshot. */
  lemma SnapshotPrefixFree(v: SnapshotDto, w: SnapshotDto, s: Bytes, t: Bytes)
    ensures SnapshotDtoFits(v) && SnapshotDtoFits(w) && EncSnapshotDto(v, []) + s == EncSnapshotDto(w, []) + t ==>
              NormSnapshotDto(v) == NormSnapshotDto(w) && s == t
  {
    hide EncSnapshotDto, DecSnapshotDto, NormSnapshotDto, SnapshotDtoFits;
    SnapshotRoundTrip(v, s);
    SnapshotRoundTrip(w, t);
  }
}
