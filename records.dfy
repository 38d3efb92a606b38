/** The record shapes of the store's five tables and the service's errors. */
module Records {

  datatype Role = Student | Mentor | Admin

  /** A row of `users`. */
  datatype User = User(id: int, username: string, role: Role, credibilityScore: int)

  /** What `login` hands back: the account with today's allowance attached. */
  datatype UserView = UserView(
    id: int, username: string, role: Role, credibilityScore: int,
    doubtsPostedToday: int, dailyLimit: int)

  /** A row of `doubts`; `createdAt` is a timestamp in milliseconds. */
  datatype Doubt = Doubt(
    id: int, userId: int, username: string, title: string, content: string,
    category: string, isAnonymous: bool, createdAt: int)

  /** The payload `postDoubt` receives: the doubt's content fields and the
      two flags the service reads from it, `checkOnly` and `force`
      (an absent flag is `false`). */
  datatype DoubtPayload = DoubtPayload(
    title: string, content: string, category: string, isAnonymous: bool,
    checkOnly: bool, force: bool)

  /** The up to three steps of an answer, as the answer form sends them. */
  datatype Steps = Steps(step1: string, step2: string, step3: string)

  /** A row of `answers`. */
  datatype Answer = Answer(
    id: int, doubtId: int, userId: int, username: string,
    step1: string, step2: string, step3: string, isVerified: bool, createdAt: int)

  datatype NotificationKind = NewAnswer | Verified

  /** A row of `notifications`. */
  datatype Notification = Notification(
    id: int, userId: int, message: string, kind: NotificationKind,
    isRead: bool, createdAt: int, doubtId: int)

  /** A row of `daily_tracking`, keyed by user and calendar date. */
  datatype Track = Track(userId: int, date: string, doubtsPosted: int, bonusLimit: int)

  /** The errors the service throws, by the prefix of their message:
      AUTH_ERR, LIMIT_ERR (with the limit it reports) and DATA_ERR for a
      missing doubt or answer, LOGIC_ERR for answering one's own doubt. */
  datatype ServiceError =
    | AuthErr(username: string)
    | LimitErr(maxAllowed: int)
    | DoubtNotFound
    | AnswerNotFound
    | SelfAnswer

  datatype Result<T> = Ok(value: T) | Err(error: ServiceError)
}
