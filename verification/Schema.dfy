/** Identifiers, status enumerations and table rows of the database schema (backend/prisma/schema.prisma). */
module Schema {
  type UserId = nat
  type CompanyId = nat
  type JobId = nat
  type SessionId = nat
  type Token = nat

  datatype UserStatus = PendingVerification | PendingApproval | Active | Rejected | Suspended | Blocked

  datatype CompanyStatus =
    | CompanyDraft | CompanySubmitted | CompanyPending | CompanyPendingVerification | CompanyUnderReview
    | CompanyApproved | CompanyRejected | CompanyInfoRequested | CompanySuspended

  datatype JobStatus = Draft | PendingApproval | Approved | Paused | Closed | Archived | Flagged

  datatype Visibility = Visible | Hidden

  datatype Session = Session(user: UserId, revoked: bool)

  datatype Job = Job(company: CompanyId, status: JobStatus, visibility: Visibility, featured: bool, reported: bool)

  /** `job.updateMany({ where: { companyId, status: approved }, data: { visibility } })`. */
  function ShowApproved(jobs: map<JobId, Job>, c: CompanyId, visibility: Visibility): map<JobId, Job>
  {
    map j | j in jobs ::
      if jobs[j].company == c && jobs[j].status.Approved? then jobs[j].(visibility := visibility) else jobs[j]
  }

  /** `refreshToken.deleteMany({ where: { userId: { in: ids } } })`. */
  function WithoutTokens(tokens: map<Token, UserId>, ids: set<UserId>): map<Token, UserId>
  {
    map k | k in tokens && tokens[k] !in ids :: tokens[k]
  }

  /** `session.updateMany({ where: { userId: { in: ids }, revoked: false }, data: { revoked: true } })`. */
  function WithRevoked(sessions: map<SessionId, Session>, ids: set<UserId>): map<SessionId, Session>
  {
    map k | k in sessions ::
      if sessions[k].user in ids && !sessions[k].revoked then sessions[k].(revoked := true) else sessions[k]
  }

  function WithoutSessions(sessions: map<SessionId, Session>, ids: set<UserId>): map<SessionId, Session>
  {
    map k | k in sessions && sessions[k].user !in ids :: sessions[k]
  }
}
