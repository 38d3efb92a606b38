/** The per-user, per-day posting allowance kept in `daily_tracking`. */
module Quota {
  import opened Records
  import Seqs

  /** Doubts every user may post on any day before bonuses. */
  const BaseLimit: int := 5

  /** The position of the first record for (`user`, `date`), or -1: the
      `findIndex` the service runs over the table. */
  function FindTrack(ts: seq<Track>, user: int, date: string): (i: int)
    ensures -1 <= i < |ts|
    ensures 0 <= i ==> ts[i].userId == user && ts[i].date == date
    ensures 0 <= i ==> forall k :: 0 <= k < i ==> !(ts[k].userId == user && ts[k].date == date)
    ensures i == -1 <==> forall k :: 0 <= k < |ts| ==> !(ts[k].userId == user && ts[k].date == date)
  {
    Seqs.FindIndex(ts, (t: Track) => t.userId == user && t.date == date)
  }

  /** The record for (`user`, `date`); a missing record reads as one with
      nothing posted and no bonus, as `login` substitutes. */
  function Lookup(ts: seq<Track>, user: int, date: string): (t: Track)
    ensures t.userId == user && t.date == date
    ensures t in ts || t == Track(user, date, 0, 0)
    ensures FindTrack(ts, user, date) != -1 ==> t == ts[FindTrack(ts, user, date)]
  {
    var i := FindTrack(ts, user, date);
    if i == -1 then Track(user, date, 0, 0) else ts[i]
  }

  function PostedToday(ts: seq<Track>, user: int, date: string): int {
    Lookup(ts, user, date).doubtsPosted
  }

  function MaxAllowed(ts: seq<Track>, user: int, date: string): int {
    BaseLimit + Lookup(ts, user, date).bonusLimit
  }

  /** The counters of one record are non-negative and within the allowance. */
  predicate RecordOk(t: Track) {
    0 <= t.doubtsPosted && 0 <= t.bonusLimit && t.doubtsPosted <= BaseLimit + t.bonusLimit
  }

  /** At most one record per user and date. */
  predicate KeysUnique(ts: seq<Track>) {
    forall i, j :: 0 <= i < j < |ts| ==> !(ts[i].userId == ts[j].userId && ts[i].date == ts[j].date)
  }

  predicate Valid(ts: seq<Track>) {
    (forall t :: t in ts ==> RecordOk(t)) && KeysUnique(ts)
  }

  /** The table after a successful post: the record is created with one
      post if it was missing, its post count raised by one otherwise. */
  function RecordPost(ts: seq<Track>, user: int, date: string): seq<Track> {
    var i := FindTrack(ts, user, date);
    if i == -1 then ts + [Track(user, date, 1, 0)]
    else ts[i := ts[i].(doubtsPosted := ts[i].doubtsPosted + 1)]
  }

  /** The table after an answer: the record is created with a bonus of one
      if it was missing, its bonus raised by one otherwise. */
  function GrantBonus(ts: seq<Track>, user: int, date: string): seq<Track> {
    var i := FindTrack(ts, user, date);
    if i == -1 then ts + [Track(user, date, 0, 1)]
    else ts[i := ts[i].(bonusLimit := ts[i].bonusLimit + 1)]
  }

  /** Changing the counters at one position leaves every lookup by key
      where it was, except the lookup that finds that position. */
  lemma LookupAfterUpdate(ts: seq<Track>, i: int, t: Track, user: int, date: string)
    requires 0 <= i < |ts| && t.userId == ts[i].userId && t.date == ts[i].date
    ensures FindTrack(ts[i := t], user, date) == FindTrack(ts, user, date)
  {
    var r := ts[i := t];
    var a, b := FindTrack(ts, user, date), FindTrack(r, user, date);
    if a == -1 {
      assert b == -1 by {
        forall k | 0 <= k < |r| ensures !(r[k].userId == user && r[k].date == date) {
          assert !(ts[k].userId == user && ts[k].date == date);
        }
      }
    } else {
      assert r[a].userId == user && r[a].date == date;
    }
  }

  /** Appending a record for another key leaves every other lookup alone. */
  lemma LookupAfterAppend(ts: seq<Track>, t: Track, user: int, date: string)
    requires !(t.userId == user && t.date == date)
    ensures FindTrack(ts + [t], user, date) == FindTrack(ts, user, date)
  {
    var a, b := FindTrack(ts, user, date), FindTrack(ts + [t], user, date);
    if a == -1 {
      assert b == -1 by {
        forall k | 0 <= k < |ts| + 1 ensures !((ts + [t])[k].userId == user && (ts + [t])[k].date == date) {
          if k < |ts| {
            assert !(ts[k].userId == user && ts[k].date == date);
          }
        }
      }
    } else {
      assert (ts + [t])[a] == ts[a];
    }
  }

  /** A post raises the poster's count for the day by exactly one, keeps
      the day's bonus and keeps one record per user and date. */
  lemma RecordPostCounts(ts: seq<Track>, user: int, date: string)
    requires KeysUnique(ts)
    ensures var r := RecordPost(ts, user, date);
      && KeysUnique(r)
      && PostedToday(r, user, date) == PostedToday(ts, user, date) + 1
      && MaxAllowed(r, user, date) == MaxAllowed(ts, user, date)
  {
    var i := FindTrack(ts, user, date);
    var r := RecordPost(ts, user, date);
    if i == -1 {
      assert r == ts + [Track(user, date, 1, 0)];
      assert FindTrack(r, user, date) == |ts| by {
        assert r[|ts|].userId == user && r[|ts|].date == date;
      }
    } else {
      assert r == ts[i := ts[i].(doubtsPosted := ts[i].doubtsPosted + 1)];
      LookupAfterUpdate(ts, i, ts[i].(doubtsPosted := ts[i].doubtsPosted + 1), user, date);
    }
  }

  /** An answer raises the answerer's bonus for the day by exactly one,
      keeps the day's post count and keeps one record per user and date. */
  lemma GrantBonusCounts(ts: seq<Track>, user: int, date: string)
    requires KeysUnique(ts)
    ensures var r := GrantBonus(ts, user, date);
      && KeysUnique(r)
      && PostedToday(r, user, date) == PostedToday(ts, user, date)
      && MaxAllowed(r, user, date) == MaxAllowed(ts, user, date) + 1
  {
    var i := FindTrack(ts, user, date);
    var r := GrantBonus(ts, user, date);
    if i == -1 {
      assert r == ts + [Track(user, date, 0, 1)];
      assert FindTrack(r, user, date) == |ts| by {
        assert r[|ts|].userId == user && r[|ts|].date == date;
      }
    } else {
      assert r == ts[i := ts[i].(bonusLimit := ts[i].bonusLimit + 1)];
      LookupAfterUpdate(ts, i, ts[i].(bonusLimit := ts[i].bonusLimit + 1), user, date);
    }
  }

  /** A post leaves the lookup at every other key where it was. */
  lemma RecordPostElsewhere(ts: seq<Track>, user: int, date: string, u: int, d: string)
    requires !(u == user && d == date)
    ensures Lookup(RecordPost(ts, user, date), u, d) == Lookup(ts, u, d)
  {
    var i := FindTrack(ts, user, date);
    var j := FindTrack(ts, u, d);
    var r := RecordPost(ts, user, date);
    if i == -1 {
      assert r == ts + [Track(user, date, 1, 0)];
      LookupAfterAppend(ts, Track(user, date, 1, 0), u, d);
    } else {
      assert r == ts[i := ts[i].(doubtsPosted := ts[i].doubtsPosted + 1)];
      LookupAfterUpdate(ts, i, ts[i].(doubtsPosted := ts[i].doubtsPosted + 1), u, d);
    }
    assert FindTrack(r, u, d) == j;
    if j != -1 {
      assert r[j] == ts[j];
    }
  }

  /** An answer leaves the lookup at every other key where it was. */
  lemma GrantBonusElsewhere(ts: seq<Track>, user: int, date: string, u: int, d: string)
    requires !(u == user && d == date)
    ensures Lookup(GrantBonus(ts, user, date), u, d) == Lookup(ts, u, d)
  {
    var i := FindTrack(ts, user, date);
    var j := FindTrack(ts, u, d);
    var r := GrantBonus(ts, user, date);
    if i == -1 {
      assert r == ts + [Track(user, date, 0, 1)];
      LookupAfterAppend(ts, Track(user, date, 0, 1), u, d);
    } else {
      assert r == ts[i := ts[i].(bonusLimit := ts[i].bonusLimit + 1)];
      LookupAfterUpdate(ts, i, ts[i].(bonusLimit := ts[i].bonusLimit + 1), u, d);
    }
    assert FindTrack(r, u, d) == j;
    if j != -1 {
      assert r[j] == ts[j];
    }
  }

  /** A post touches no record but the poster's for the day: every other
      record keeps its place and counters, and at most one is added. */
  lemma RecordPostFrame(ts: seq<Track>, user: int, date: string)
    ensures var r := RecordPost(ts, user, date);
      && |ts| <= |r| <= |ts| + 1
      && (forall k :: 0 <= k < |ts| && !(ts[k].userId == user && ts[k].date == date) ==> r[k] == ts[k])
      && (forall u, d :: !(u == user && d == date) ==> Lookup(r, u, d) == Lookup(ts, u, d))
  {
    forall u, d | !(u == user && d == date)
      ensures Lookup(RecordPost(ts, user, date), u, d) == Lookup(ts, u, d)
    {
      RecordPostElsewhere(ts, user, date, u, d);
    }
  }

  /** An answer touches no record but the answerer's for the day. */
  lemma GrantBonusFrame(ts: seq<Track>, user: int, date: string)
    ensures var r := GrantBonus(ts, user, date);
      && |ts| <= |r| <= |ts| + 1
      && (forall k :: 0 <= k < |ts| && !(ts[k].userId == user && ts[k].date == date) ==> r[k] == ts[k])
      && (forall u, d :: !(u == user && d == date) ==> Lookup(r, u, d) == Lookup(ts, u, d))
  {
    forall u, d | !(u == user && d == date)
      ensures Lookup(GrantBonus(ts, user, date), u, d) == Lookup(ts, u, d)
    {
      GrantBonusElsewhere(ts, user, date, u, d);
    }
  }

  /** The service's way of getting at the record: push a zero record if
      there is none, then work on the record at the found position. That
      record reads as the lookup does, and raising its post count there is
      `RecordPost`. */
  lemma LazyRecordPost(ts: seq<Track>, user: int, date: string, withRecord: seq<Track>, j: int)
    requires FindTrack(ts, user, date) == -1 ==> withRecord == ts + [Track(user, date, 0, 0)] && j == |ts|
    requires FindTrack(ts, user, date) != -1 ==> withRecord == ts && j == FindTrack(ts, user, date)
    ensures 0 <= j < |withRecord|
    ensures withRecord[j] == Lookup(ts, user, date)
    ensures withRecord[j := withRecord[j].(doubtsPosted := withRecord[j].doubtsPosted + 1)]
         == RecordPost(ts, user, date)
  {
    if FindTrack(ts, user, date) == -1 {
      assert withRecord[j := Track(user, date, 1, 0)] == ts + [Track(user, date, 1, 0)];
    }
  }

  /** The daily invariant survives a post that the limit gate let through. */
  lemma RecordPostKeepsQuota(ts: seq<Track>, user: int, date: string)
    requires Valid(ts)
    requires PostedToday(ts, user, date) < MaxAllowed(ts, user, date)
    ensures Valid(RecordPost(ts, user, date))
  {
    RecordPostCounts(ts, user, date);
  }

  /** The daily invariant survives every answer. */
  lemma GrantBonusKeepsQuota(ts: seq<Track>, user: int, date: string)
    requires Valid(ts)
    ensures Valid(GrantBonus(ts, user, date))
  {
    GrantBonusCounts(ts, user, date);
  }

  /** What a user did that reaches the tracking table: tried to post a doubt
      or answered someone else's doubt, on a given day. */
  datatype Activity = TriedPost(user: int, date: string) | Answered(user: int, date: string)

  /** The table after a run of activities. A tried post is recorded only
      when the limit gate lets it through; otherwise it is refused and the
      table stays as it was. */
  function Replay(ts: seq<Track>, acts: seq<Activity>): seq<Track>
    decreases |acts|
  {
    if acts == [] then ts
    else
      var next := match acts[0]
        case TriedPost(u, d) =>
          if PostedToday(ts, u, d) < MaxAllowed(ts, u, d) then RecordPost(ts, u, d) else ts
        case Answered(u, d) => GrantBonus(ts, u, d);
      Replay(next, acts[1..])
  }

  /** Whatever users do, no one has ever posted more on a day than five plus
      the bonus they earned that day. */
  lemma {:induction false} ReplayKeepsQuota(ts: seq<Track>, acts: seq<Activity>)
    requires Valid(ts)
    ensures Valid(Replay(ts, acts))
    ensures forall u, d :: 0 <= PostedToday(Replay(ts, acts), u, d) <= MaxAllowed(Replay(ts, acts), u, d)
    decreases |acts|
  {
    if acts != [] {
      match acts[0]
      case TriedPost(u, d) =>
        if PostedToday(ts, u, d) < MaxAllowed(ts, u, d) {
          RecordPostKeepsQuota(ts, u, d);
          ReplayKeepsQuota(RecordPost(ts, u, d), acts[1..]);
        } else {
          ReplayKeepsQuota(ts, acts[1..]);
        }
      case Answered(u, d) =>
        GrantBonusKeepsQuota(ts, u, d);
        ReplayKeepsQuota(GrantBonus(ts, u, d), acts[1..]);
    }
    var r := Replay(ts, acts);
    forall u, d ensures 0 <= PostedToday(r, u, d) <= MaxAllowed(r, u, d) {
      var t := Lookup(r, u, d);
      assert t in r || t == Track(u, d, 0, 0);
    }
  }
}
