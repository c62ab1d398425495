/** The status vocabularies and their transition relations. */
module Status {

  datatype MissionStatus = Draft | Scheduled | Active | Closed {
    predicate CanMoveTo(next: MissionStatus) {
      match this
      case Draft => next.Scheduled?
      case Scheduled => next.Active? || next.Closed?
      case Active => next.Closed?
      case Closed => false
    }
  }

  datatype JobStatus =
    | Queued | Completed | ActivationPending | Accepted | InProgress | Verified | Rejected | Archived
  {
    predicate CanMoveTo(next: JobStatus) {
      match this
      case Queued => next.Completed?
      case Completed => next.ActivationPending?
      case ActivationPending => next.Accepted?
      case Accepted => next.InProgress?
      case InProgress => next.Verified? || next.Rejected?
      case Rejected => next.Archived?
      case Verified => next.Archived?
      case Archived => false
    }

    /** The statuses the expiry sweep may reject. */
    predicate Live() {
      Queued? || Completed? || ActivationPending? || Accepted? || InProgress?
    }
  }

  datatype WindowStatus = Waiting | Running | Done | Cancelled {
    predicate CanMoveTo(next: WindowStatus) {
      match this
      case Waiting => next.Running? || next.Cancelled?
      case Running => next.Done? || next.Cancelled?
      case _ => false
    }

    predicate Open() {
      Waiting? || Running?
    }
  }

  datatype ReportStatus = Pending | Confirmed | Refused

  datatype IncidentStatus = Opened | Handling | Settled

  datatype IncidentKind = Reassess | RepeatBuoy | SafetyAdjustment | CloseRecord
}
