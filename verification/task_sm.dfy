/** The task state machine. */
module TaskSm {
  import opened Wrappers

  datatype TaskStatus =
    | Proposed | Queued | InProgress | AwaitingReview | ChangesRequested | Done | Failed | Escalated

  datatype Actor = Manager | NonManager | Operator | System

  datatype Transition =
    | SubtaskCreate(caller: Actor)
    | AcceptProposal
    | RejectProposal
    | AssignFromQueued
    | TaskDoneMcp
    | RequestChanges
    | TaskAccept
    | OperatorForceAccept
    | OperatorForceFail
    | Fail
    | Escalate

  /** The status after a transition; `None` when the transition is illegal. */
  function Next(current: TaskStatus, t: Transition): Option<TaskStatus> {
    match t
    case SubtaskCreate(caller) => Some(if caller == NonManager then Proposed else Queued)
    case AcceptProposal => if current == Proposed then Some(Queued) else None
    case RejectProposal => if current == Proposed then Some(Failed) else None
    case AssignFromQueued => if current == Queued then Some(InProgress) else None
    case TaskDoneMcp => if current == InProgress || current == ChangesRequested then Some(AwaitingReview) else None
    case RequestChanges => if current == AwaitingReview then Some(ChangesRequested) else None
    case TaskAccept => if current == AwaitingReview then Some(Done) else None
    case OperatorForceAccept => if current == AwaitingReview then Some(Done) else None
    case OperatorForceFail => if current != Done && current != Failed then Some(Failed) else None
    case Fail => if current != Done && current != Failed then Some(Failed) else None
    case Escalate => if current != Done && current != Failed then Some(Escalated) else None
  }

  /** Done and failed are final, and no other status is: only the creation of another task is still possible. */
  lemma FinalExactly(s: TaskStatus)
    ensures (s == Done || s == Failed) <==> forall t: Transition :: t.SubtaskCreate? || Next(s, t).None?
  {
    if s != Done && s != Failed {
      assert Next(s, Fail).Some?;
    }
  }

  /** Where each status comes from: proposals only from creation, review only from work, done only from review. */
  lemma Origins(s: TaskStatus, t: Transition)
    requires Next(s, t).Some?
    ensures Next(s, t).value == Proposed <==> t == SubtaskCreate(NonManager)
    ensures Next(s, t).value == Queued <==>
              (t.SubtaskCreate? && t.caller != NonManager) || (t.AcceptProposal? && s == Proposed)
    ensures Next(s, t).value == InProgress ==> s == Queued
    ensures Next(s, t).value == AwaitingReview ==> s == InProgress || s == ChangesRequested
    ensures Next(s, t).value == ChangesRequested || Next(s, t).value == Done ==> s == AwaitingReview
  {}

  /** The statuses on which a waiting task may rely. */
  predicate IsTerminal(s: TaskStatus) {
    s == Done || s == Failed || s == Escalated
  }
}
