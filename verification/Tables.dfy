/** The relational tables of the recovery workflow, one map per table. */
module Tables {
  import opened Prelude
  import opened Status

  type Id = nat

  datatype Error = NotFound | Conflict | InvalidTransition | CapacityExceeded | Expired | Unavailable

  datatype Mission = Mission(code: string, status: MissionStatus, startsAt: int, endsAt: int, version: int) {
    predicate CanExecuteAt(now: int) {
      status.Active? && startsAt <= now < endsAt
    }
  }

  datatype Buoy = Buoy(missionId: Id, code: string, required: int, completed: int)

  datatype Job = Job(missionId: Id, buoyId: Id, code: string, status: JobStatus,
                     completedAt: Option<int>, acceptedAt: Option<int>, expiresAt: int, version: int)

  datatype Window = Window(code: string, status: WindowStatus, capacity: int,
                           startedAt: Option<int>, completedAt: Option<int>, version: int)

  datatype Report = Report(jobId: Id, windowId: Id, status: ReportStatus, reviewedAt: Option<int>, version: int)

  datatype Incident = Incident(jobId: Id, kind: IncidentKind, status: IncidentStatus, dueAt: int)

  datatype Mooring = Mooring(jobId: Id, from: Option<Id>, to: Id, recordedAt: int)

  /** `JobObject` and `SweptJob` are two object types in the log: the services write
      "acoustic_buoy_task", the expiry sweep writes "task". */
  datatype ObjectType =
    | OperatorObject | MissionObject | JobObject | SweptJob | BulkObject | WindowObject | ReportObject | IncidentObject

  datatype Action =
    | Create | CreateBulk | Schedule | Activate | Close | Complete | Archive | Activation | Accept
    | Start | Cancel | Record | Review | Open | Expire

  datatype AuditEvent = AuditEvent(objectType: ObjectType, objectId: Id, action: Action)

  /** `operators` maps an operator to whether its role may record reports. */
  datatype Db = Db(operators: map<Id, bool>,
                   missions: map<Id, Mission>,
                   buoys: map<Id, Buoy>,
                   jobs: map<Id, Job>,
                   windows: map<Id, Window>,
                   items: set<(Id, Id)>,
                   reports: map<Id, Report>,
                   incidents: map<Id, Incident>,
                   moorings: seq<Mooring>,
                   audits: seq<AuditEvent>)

  const EMPTY_DB: Db := Db(map[], map[], map[], map[], map[], {}, map[], map[], [], [])

  /** Report `r` is about job `j` in window `w`. */
  predicate ReportFor(reports: map<Id, Report>, r: Id, w: Id, j: Id) {
    r in reports && reports[r].windowId == w && reports[r].jobId == j
  }
}
