/** The service layer over the five tables of the store: users, doubts,
    answers, notifications and the daily tracking records. Each operation
    is one atomic step on the in-memory store; the clock's reading `now`
    (used for fresh ids and timestamps) and the calendar date `today` are
    parameters. */
module DbService {
  import opened Records
  import Seqs
  import Quota
  import Similarity

  /** Points a verified answer earns its author. */
  const VerifiedBonus: int := 50

  /** What `postDoubt` returns when it does not throw. */
  datatype PostOutcome =
    | SimilarityFound(similar: seq<Doubt>)
    | CheckPassed
    | Posted(doubt: Doubt)

  /** The position of the first user with `id`, or -1. */
  function UserIndex(users: seq<User>, id: int): (i: int)
    ensures -1 <= i < |users|
    ensures 0 <= i ==> users[i].id == id && forall k :: 0 <= k < i ==> users[k].id != id
    ensures i == -1 <==> forall k :: 0 <= k < |users| ==> users[k].id != id
  {
    Seqs.FindIndex(users, (u: User) => u.id == id)
  }

  /** The position of the first user called `username`, or -1. The
      service looks users up by id (`postDoubt`, `postAnswer`,
      `verifyAnswer`) and by name (`login`); each lookup is `FindIndex`
      with its own test, named so that contracts can mention it. */
  function UserNamed(users: seq<User>, username: string): (i: int)
    ensures -1 <= i < |users|
    ensures 0 <= i ==> users[i].username == username && forall k :: 0 <= k < i ==> users[k].username != username
    ensures i == -1 <==> forall k :: 0 <= k < |users| ==> users[k].username != username
  {
    Seqs.FindIndex(users, (u: User) => u.username == username)
  }

  /** The position of the first doubt with `id`, or -1. */
  function DoubtIndex(doubts: seq<Doubt>, id: int): (i: int)
    ensures -1 <= i < |doubts|
    ensures 0 <= i ==> doubts[i].id == id && forall k :: 0 <= k < i ==> doubts[k].id != id
    ensures i == -1 <==> forall k :: 0 <= k < |doubts| ==> doubts[k].id != id
  {
    Seqs.FindIndex(doubts, (d: Doubt) => d.id == id)
  }

  /** The position of the first answer with `id`, or -1. */
  function AnswerIndex(answers: seq<Answer>, id: int): (i: int)
    ensures -1 <= i < |answers|
    ensures 0 <= i ==> answers[i].id == id && forall k :: 0 <= k < i ==> answers[k].id != id
    ensures i == -1 <==> forall k :: 0 <= k < |answers| ==> answers[k].id != id
  {
    Seqs.FindIndex(answers, (a: Answer) => a.id == id)
  }

  /** `login`: the first account with that username, with today's post
      count and allowance attached; a day without a record reads as nothing
      posted and no bonus. */
  function Login(users: seq<User>, tracking: seq<Track>, username: string, today: string): (r: Result<UserView>)
    ensures r.Err? <==> forall k :: 0 <= k < |users| ==> users[k].username != username
    ensures r.Err? ==> r.error == AuthErr(username)
    ensures r.Ok? ==> exists k :: 0 <= k < |users| && users[k].username == username
                                   && r.value.id == users[k].id && r.value.role == users[k].role
                                   && r.value.credibilityScore == users[k].credibilityScore
    ensures r.Ok? ==> r.value.id == users[UserNamed(users, username)].id
    ensures r.Ok? ==> (r.value.username == username
      && r.value.doubtsPostedToday == Quota.PostedToday(tracking, r.value.id, today)
      && r.value.dailyLimit == Quota.MaxAllowed(tracking, r.value.id, today))
  {
    var i := UserNamed(users, username);
    if i == -1 then Err(AuthErr(username))
    else
      var u := users[i];
      var t := Quota.Lookup(tracking, u.id, today);
      Ok(UserView(u.id, u.username, u.role, u.credibilityScore, t.doubtsPosted, Quota.BaseLimit + t.bonusLimit))
  }

  /** What a successful login shows is within the daily invariant: the
      allowance is at least five and nothing beyond it was posted. */
  lemma LoginShowsAllowance(users: seq<User>, tracking: seq<Track>, username: string, today: string)
    requires Quota.Valid(tracking)
    requires Login(users, tracking, username, today).Ok?
    ensures var v := Login(users, tracking, username, today).value;
      && Quota.BaseLimit <= v.dailyLimit
      && 0 <= v.doubtsPostedToday <= v.dailyLimit
  {
    var v := Login(users, tracking, username, today).value;
    var t := Quota.Lookup(tracking, v.id, today);
    assert t in tracking || t == Track(v.id, today, 0, 0);
  }

  /** `getDoubts`: every doubt, newest first. */
  function GetDoubts(doubts: seq<Doubt>): (r: seq<Doubt>)
    ensures Seqs.NewestFirst(r, (d: Doubt) => d.createdAt)
    ensures multiset(r) == multiset(doubts)
  {
    Seqs.SortNewestFirst(doubts, (d: Doubt) => d.createdAt)
  }

  function ForDoubt(doubtId: int): Answer -> bool {
    (a: Answer) => a.doubtId == doubtId
  }

  /** `getAnswers`: exactly the answers to `doubtId`, each as often as it is
      stored, in storage order (see `GetAnswersAppend`). */
  function GetAnswers(answers: seq<Answer>, doubtId: int): (r: seq<Answer>)
    ensures forall a :: a in r <==> a in answers && a.doubtId == doubtId
    ensures forall a :: multiset(r)[a] == if a.doubtId == doubtId then multiset(answers)[a] else 0
  {
    Seqs.FilterMembers(answers, ForDoubt(doubtId));
    Seqs.FilterCounts(answers, ForDoubt(doubtId));
    Seqs.Filter(answers, ForDoubt(doubtId))
  }

  /** The list keeps storage order: an answer stored after the others comes
      after them in its doubt's list, and leaves every other list alone. */
  lemma GetAnswersAppend(answers: seq<Answer>, a: Answer, doubtId: int)
    ensures GetAnswers(answers + [a], doubtId)
         == GetAnswers(answers, doubtId) + (if a.doubtId == doubtId then [a] else [])
  {
    var p := ForDoubt(doubtId);
    Seqs.FilterAppend(answers, [a], p);
    assert Seqs.Filter([a], p) == (if p(a) then [a] else []) + Seqs.Filter([], p);
    assert GetAnswers(answers + [a], doubtId) == Seqs.Filter(answers + [a], p);
    assert GetAnswers(answers, doubtId) == Seqs.Filter(answers, p);
  }

  function ForUser(userId: int): Notification -> bool {
    (n: Notification) => n.userId == userId
  }

  /** `getNotifications`: exactly the notifications addressed to `userId`,
      each as often as it is stored, newest first. */
  function GetNotifications(notifications: seq<Notification>, userId: int): (r: seq<Notification>)
    ensures forall n :: multiset(r)[n] == if n.userId == userId then multiset(notifications)[n] else 0
    ensures forall n :: n in r <==> n in notifications && n.userId == userId
    ensures Seqs.NewestFirst(r, (n: Notification) => n.createdAt)
  {
    Seqs.FilterMembers(notifications, ForUser(userId));
    Seqs.FilterCounts(notifications, ForUser(userId));
    Seqs.SortNewestFirst(Seqs.Filter(notifications, ForUser(userId)), (n: Notification) => n.createdAt)
  }

  /** `markNotificationsRead`'s map: the notifications addressed to `userId`
      are read afterwards; nothing else about any notification changes. */
  function MarkRead(notifications: seq<Notification>, userId: int): (r: seq<Notification>)
    ensures |r| == |notifications|
    ensures forall k :: 0 <= k < |r| ==>
      r[k].(isRead := notifications[k].isRead) == notifications[k]
      && (r[k].isRead <==> notifications[k].isRead || notifications[k].userId == userId)
  {
    seq(|notifications|, k requires 0 <= k < |notifications| =>
      var n := notifications[k];
      if n.userId == userId then n.(isRead := true) else n)
  }

  /** After marking, the user's feed holds only read notifications and is
      as long as before. */
  lemma MarkReadClearsFeed(notifications: seq<Notification>, userId: int)
    ensures forall n :: n in GetNotifications(MarkRead(notifications, userId), userId) ==> n.isRead
    ensures |GetNotifications(MarkRead(notifications, userId), userId)|
         == |GetNotifications(notifications, userId)|
  {
    var m := MarkRead(notifications, userId);
    forall n | n in GetNotifications(m, userId) ensures n.isRead {
      var k :| 0 <= k < |m| && m[k] == n;
    }
    FilterMapsAlong(notifications, userId);
  }

  /** Marking touches one user's feed: the filtered lists line up, the
      marked one being the original with its read flags set. */
  lemma {:induction false} FilterMapsAlong(notifications: seq<Notification>, userId: int)
    ensures |Seqs.Filter(MarkRead(notifications, userId), ForUser(userId))|
         == |Seqs.Filter(notifications, ForUser(userId))|
    decreases |notifications|
  {
    var m := MarkRead(notifications, userId);
    if notifications != [] {
      assert m[1..] == MarkRead(notifications[1..], userId);
      FilterMapsAlong(notifications[1..], userId);
    }
  }

  /** Marking one user's notifications leaves every other user's feed
      exactly as it was. */
  lemma MarkReadLeavesOthers(notifications: seq<Notification>, userId: int, other: int)
    requires other != userId
    ensures GetNotifications(MarkRead(notifications, userId), other) == GetNotifications(notifications, other)
  {
    FilterUnmarked(notifications, userId, other);
  }

  lemma {:induction false} FilterUnmarked(notifications: seq<Notification>, userId: int, other: int)
    requires other != userId
    ensures Seqs.Filter(MarkRead(notifications, userId), ForUser(other))
         == Seqs.Filter(notifications, ForUser(other))
    decreases |notifications|
  {
    var m := MarkRead(notifications, userId);
    if notifications != [] {
      assert m[1..] == MarkRead(notifications[1..], userId);
      FilterUnmarked(notifications[1..], userId, other);
    }
  }

  /** Marking twice is marking once. */
  lemma MarkReadIdempotent(notifications: seq<Notification>, userId: int)
    ensures MarkRead(MarkRead(notifications, userId), userId) == MarkRead(notifications, userId)
  {
  }

  /** The fixed parts of the two notification texts around the name they
      quote. */
  const NewAnswerOpening: string := "Peer Contribution: \""
  const NewAnswerClosing: string := "\" added a micro-explanation to your inquiry."
  const VerifiedOpening: string := "Excellence Verified: Your solution for \""
  const VerifiedClosing: string := "\" was approved!"

  /** The notification text for a new answer by `username`. */
  function NewAnswerMessage(username: string): string {
    NewAnswerOpening + username + NewAnswerClosing
  }

  /** How a verification notice names the doubt: its title, or "an inquiry"
      when the doubt is gone or its title is empty. */
  function InquiryLabel(doubts: seq<Doubt>, doubtId: int): (s: string)
    ensures s != ""
  {
    var i := DoubtIndex(doubts, doubtId);
    if i == -1 || doubts[i].title == "" then "an inquiry" else doubts[i].title
  }

  function VerifiedMessage(inquiry: string): string {
    VerifiedOpening + inquiry + VerifiedClosing
  }

  /** The four seeded accounts. */
  const SeedUsers: seq<User> := [
    User(1, "admin", Admin, 999),
    User(2, "mentor_john", Mentor, 250),
    User(3, "student_alice", Student, 45),
    User(4, "student_bob", Student, 10)
  ]

  const NewtonContent: string :=
    "What is the rate of convergence for the Newton-Raphson method in Numerical Methods?"
  const AsymptoticContent: string :=
    "Can someone explain the tightest upper bound for Merge Sort in DAA?"

  /** The two seeded doubts, stamped with the time the store was created. */
  function SeedDoubts(now: int): seq<Doubt> {
    [ Doubt(101, 2, "mentor_john", "Newton-Raphson Convergence", NewtonContent,
            "Numerical Methods", false, now),
      Doubt(102, 3, "student_alice", "Asymptotic Notation Query", AsymptoticContent,
            "Design and Analysis of Algorithms", false, now) ]
  }

  /** Posting "Newton-Raphson Convergence Proof" on a fresh store reports
      the seeded doubt on Newton-Raphson convergence as similar. */
  lemma SeedNewtonFlagged(now: int)
    ensures SeedDoubts(now)[0] in Similarity.SimilarDoubts("Newton-Raphson Convergence Proof", SeedDoubts(now))
  {
    Similarity.NewtonRaphsonExample();
    Similarity.SimilarDoubtsAreTheSimilarOnes("Newton-Raphson Convergence Proof", SeedDoubts(now), SeedDoubts(now)[0]);
  }

  class AcademicDatabase {
    var users: seq<User>
    var doubts: seq<Doubt>
    var answers: seq<Answer>
    var notifications: seq<Notification>
    var tracking: seq<Track>

    /** The daily quota invariant over the tracking table. */
    predicate Valid()
      reads this
    {
      Quota.Valid(tracking)
    }

    /** The store as first seeded: four users, two doubts, nothing else. */
    constructor (now: int)
      ensures users == SeedUsers && doubts == SeedDoubts(now)
      ensures answers == [] && notifications == [] && tracking == []
      ensures Valid()
    {
      users := SeedUsers;
      doubts := SeedDoubts(now);
      answers := [];
      notifications := [];
      tracking := [];
    }

    /** `postDoubt`. The limit gate applies unless the payload only asks
        for a check; the similarity scan runs unless it forces the post; a
        check that passes both persists nothing. Only a real post changes
        the store: it appends the doubt and counts it for the day. */
    method PostDoubt(userId: int, data: DoubtPayload, today: string, now: int) returns (r: Result<PostOutcome>)
      requires Valid()
      requires UserIndex(users, userId) != -1
      modifies this
      ensures Valid()
      ensures var posted := Quota.PostedToday(old(tracking), userId, today);
        var maxAllowed := Quota.MaxAllowed(old(tracking), userId, today);
        var similar := Similarity.SimilarDoubts(data.title, old(doubts));
        if !data.checkOnly && posted >= maxAllowed then
          r == Err(LimitErr(maxAllowed)) && unchanged(this)
        else if !data.force && similar != [] then
          r == Ok(SimilarityFound(similar)) && unchanged(this)
        else if data.checkOnly then
          r == Ok(CheckPassed) && unchanged(this)
        else
          var d := Doubt(now, userId, old(users)[UserIndex(old(users), userId)].username,
                         data.title, data.content, data.category, data.isAnonymous, now);
          && r == Ok(Posted(d))
          && doubts == old(doubts) + [d]
          && tracking == Quota.RecordPost(old(tracking), userId, today)
          && users == old(users) && answers == old(answers) && notifications == old(notifications)
    {
      var ts := tracking;
      var trackIdx := Quota.FindTrack(ts, userId, today);
      if trackIdx == -1 {
        ts := ts + [Track(userId, today, 0, 0)];
        trackIdx := |ts| - 1;
      }
      Quota.LazyRecordPost(tracking, userId, today, ts, trackIdx);
      var track := ts[trackIdx];
      var maxAllowed := Quota.BaseLimit + track.bonusLimit;
      if !data.checkOnly && track.doubtsPosted >= maxAllowed {
        return Err(LimitErr(maxAllowed));
      }
      if !data.force {
        var similar := Similarity.SimilarDoubts(data.title, doubts);
        if similar != [] {
          return Ok(SimilarityFound(similar));
        }
      }
      if data.checkOnly {
        return Ok(CheckPassed);
      }
      var user := users[UserIndex(users, userId)];
      var d := Doubt(now, userId, user.username, data.title, data.content, data.category, data.isAnonymous, now);
      doubts := doubts + [d];
      ts := ts[trackIdx := ts[trackIdx].(doubtsPosted := ts[trackIdx].doubtsPosted + 1)];
      Quota.RecordPostKeepsQuota(tracking, userId, today);
      tracking := ts;
      r := Ok(Posted(d));
    }

    /** `postAnswer`. A missing doubt and an answer to one's own doubt are
        refused before anything changes. Otherwise the answer is stored
        unverified, the doubt's owner is notified, and the answerer's bonus
        for the day goes up by one. */
    method PostAnswer(userId: int, doubtId: int, steps: Steps, today: string, now: int) returns (r: Result<Answer>)
      requires Valid()
      requires UserIndex(users, userId) != -1
      modifies this
      ensures Valid()
      ensures var di := DoubtIndex(old(doubts), doubtId);
        if di == -1 then
          r == Err(DoubtNotFound) && unchanged(this)
        else if old(doubts)[di].userId == userId then
          r == Err(SelfAnswer) && unchanged(this)
        else
          var username := old(users)[UserIndex(old(users), userId)].username;
          var a := Answer(now, doubtId, userId, username, steps.step1, steps.step2, steps.step3, false, now);
          var n := Notification(now + 1, old(doubts)[di].userId, NewAnswerMessage(username),
                                NewAnswer, false, now, doubtId);
          && r == Ok(a)
          && answers == old(answers) + [a]
          && GetAnswers(answers, doubtId) == GetAnswers(old(answers), doubtId) + [a]
          && notifications == old(notifications) + [n]
          && tracking == Quota.GrantBonus(old(tracking), userId, today)
          && users == old(users) && doubts == old(doubts)
    {
      var user := users[UserIndex(users, userId)];
      var di := DoubtIndex(doubts, doubtId);
      if di == -1 {
        return Err(DoubtNotFound);
      }
      var doubt := doubts[di];
      if user.id == doubt.userId {
        return Err(SelfAnswer);
      }
      var a := Answer(now, doubtId, userId, user.username, steps.step1, steps.step2, steps.step3, false, now);
      GetAnswersAppend(answers, a, doubtId);
      answers := answers + [a];
      if doubt.userId != userId {
        var n := Notification(now + 1, doubt.userId, NewAnswerMessage(user.username), NewAnswer, false, now, doubtId);
        notifications := notifications + [n];
      }
      RaiseBonus(userId, today);
      r := Ok(a);
    }

    /** The tracking update that closes `postAnswer`: the answerer's record
        for the day is created with a bonus of one, or its bonus is raised
        by one. */
    method RaiseBonus(userId: int, today: string)
      requires Valid()
      modifies this
      ensures Valid()
      ensures tracking == Quota.GrantBonus(old(tracking), userId, today)
      ensures users == old(users) && doubts == old(doubts)
      ensures answers == old(answers) && notifications == old(notifications)
    {
      Quota.GrantBonusKeepsQuota(tracking, userId, today);
      var trackIdx := Quota.FindTrack(tracking, userId, today);
      if trackIdx == -1 {
        tracking := tracking + [Track(userId, today, 0, 1)];
      } else {
        tracking := tracking[trackIdx := tracking[trackIdx].(bonusLimit := tracking[trackIdx].bonusLimit + 1)];
      }
    }

    /** `verifyAnswer`. An unknown answer id is refused. Otherwise the
        answer is marked verified, whoever asks and however often; if its
        author still exists they gain fifty points and are notified. */
    method VerifyAnswer(answerId: int, now: int) returns (r: Result<Answer>)
      modifies this
      ensures tracking == old(tracking) && doubts == old(doubts)
      ensures |answers| == |old(answers)| && forall k :: 0 <= k < |answers| ==> answers[k].id == old(answers)[k].id
      ensures |users| == |old(users)| && forall k :: 0 <= k < |users| ==> users[k].id == old(users)[k].id
      ensures var ai := AnswerIndex(old(answers), answerId);
        if ai == -1 then
          r == Err(AnswerNotFound) && unchanged(this)
        else
          var a := old(answers)[ai].(isVerified := true);
          var ui := UserIndex(old(users), a.userId);
          && r == Ok(a)
          && answers == old(answers)[ai := a]
          && if ui == -1 then
               users == old(users) && notifications == old(notifications)
             else
               var author := old(users)[ui];
               && users == old(users)[ui := author.(credibilityScore := author.credibilityScore + VerifiedBonus)]
               && notifications == old(notifications)
                    + [Notification(now, a.userId, VerifiedMessage(InquiryLabel(old(doubts), a.doubtId)),
                                    Verified, false, now, a.doubtId)]
    {
      var ai := AnswerIndex(answers, answerId);
      if ai == -1 {
        return Err(AnswerNotFound);
      }
      var ans := answers[ai].(isVerified := true);
      answers := answers[ai := ans];
      var ui := UserIndex(users, ans.userId);
      var inquiry := InquiryLabel(doubts, ans.doubtId);
      if ui != -1 {
        var author := users[ui];
        assert author.id == ans.userId;
        users := users[ui := author.(credibilityScore := author.credibilityScore + VerifiedBonus)];
        var n := Notification(now, author.id, VerifiedMessage(inquiry), Verified, false, now, ans.doubtId);
        notifications := notifications + [n];
      }
      r := Ok(ans);
    }

    /** `markNotificationsRead`: the user's notifications become read. */
    method MarkNotificationsRead(userId: int)
      modifies this
      ensures notifications == MarkRead(old(notifications), userId)
      ensures users == old(users) && doubts == old(doubts) && answers == old(answers)
      ensures tracking == old(tracking)
    {
      notifications := MarkRead(notifications, userId);
    }
  }

  /** Nothing stops a second verification of the same answer: the author
      gains fifty points each time and is notified twice. */
  method VerifyTwice(db: AcademicDatabase, answerId: int, now1: int, now2: int)
    requires AnswerIndex(db.answers, answerId) != -1
    requires UserIndex(db.users, db.answers[AnswerIndex(db.answers, answerId)].userId) != -1
    modifies db
    ensures |db.users| == |old(db.users)|
    ensures var a := old(db.answers)[AnswerIndex(old(db.answers), answerId)];
      var ui := UserIndex(old(db.users), a.userId);
      && db.users[ui].credibilityScore == old(db.users)[ui].credibilityScore + 2 * VerifiedBonus
      && |db.notifications| == |old(db.notifications)| + 2
  {
    ghost var ai := AnswerIndex(db.answers, answerId);
    ghost var a := db.answers[ai];
    ghost var ui := UserIndex(db.users, a.userId);
    var r1 := db.VerifyAnswer(answerId, now1);
    assert AnswerIndex(db.answers, answerId) == ai;
    assert db.answers[ai].userId == a.userId;
    assert UserIndex(db.users, a.userId) == ui;
    var r2 := db.VerifyAnswer(answerId, now2);
  }
}
