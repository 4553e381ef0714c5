/** The read side: the statistics of the dashboard route and the session
    detail fetch, as functions over the stored session documents. Each
    aggregation pipeline becomes a function; `$week`/`$year` of a start time
    is the parameter `weekOf`. */
module Dashboard {
  import opened Common
  import Ranking

  // ---------------------------------------------------------------------
  // Selection

  /** `{ userId }` as a query filter: the caller's documents, each as often
      as it is stored, in stored order. */
  function OwnedBy(docs: seq<SessionDoc>, userId: UserId): (r: seq<SessionDoc>)
    ensures forall d :: d in r <==> d in docs && d.userId == userId
    ensures |r| <= |docs|
  {
    if docs == [] then []
    else (if docs[0].userId == userId then [docs[0]] else []) + OwnedBy(docs[1..], userId)
  }

  /** Each of the caller's documents is selected as often as it is stored,
      and no other document at all. */
  lemma {:induction false} OwnedByCounts(docs: seq<SessionDoc>, userId: UserId)
    ensures forall d :: multiset(OwnedBy(docs, userId))[d] == if d.userId == userId then multiset(docs)[d] else 0
  {
    if docs != [] {
      assert docs == [docs[0]] + docs[1..];
      OwnedByCounts(docs[1..], userId);
    }
  }

  /** The filter keeps the stored order: filtering two stretches of documents
      one after the other is filtering them together. */
  lemma {:induction false} OwnedByAppend(a: seq<SessionDoc>, b: seq<SessionDoc>, userId: UserId)
    ensures OwnedBy(a + b, userId) == OwnedBy(a, userId) + OwnedBy(b, userId)
  {
    if a == [] {
      assert a + b == b;
    } else {
      assert (a + b)[1..] == a[1..] + b;
      OwnedByAppend(a[1..], b, userId);
    }
  }

  /** `countDocuments({ userId })`. */
  function TotalSessions(docs: seq<SessionDoc>, userId: UserId): (n: nat)
    ensures n <= |docs|
    ensures n == 0 <==> forall d :: d in docs ==> d.userId != userId
  {
    var r := OwnedBy(docs, userId);
    assert r != [] ==> r[0] in r;
    |r|
  }

  /** The count is additive over the stored documents and counts one for a
      document of the caller and none for anyone else's, so it is the number
      of the caller's documents. */
  lemma TotalSessionsCounts(a: seq<SessionDoc>, b: seq<SessionDoc>, d: SessionDoc, userId: UserId)
    ensures TotalSessions([], userId) == 0
    ensures TotalSessions([d], userId) == if d.userId == userId then 1 else 0
    ensures TotalSessions(a + b, userId) == TotalSessions(a, userId) + TotalSessions(b, userId)
  {
    OwnedByAppend(a, b, userId);
  }

  // ---------------------------------------------------------------------
  // Total mistakes

  /** `$sum` of `$size: "$mistakes"` over some sessions. */
  function MistakeTotal(sessions: seq<SessionDoc>): nat {
    if sessions == [] then 0 else |sessions[0].mistakes| + MistakeTotal(sessions[1..])
  }

  /** `$unwind: "$mistakes"`: every mistake of every session, session by session. */
  function Unwind(sessions: seq<SessionDoc>): seq<Mistake> {
    if sessions == [] then [] else sessions[0].mistakes + Unwind(sessions[1..])
  }

  lemma {:induction false} UnwindLength(sessions: seq<SessionDoc>)
    ensures |Unwind(sessions)| == MistakeTotal(sessions)
  {
    if sessions != [] {
      UnwindLength(sessions[1..]);
    }
  }

  /** The `totalMistakesResult` pipeline: one group document when some
      session matched, none otherwise. */
  function TotalMistakesResult(docs: seq<SessionDoc>, userId: UserId): seq<nat> {
    var owned := OwnedBy(docs, userId);
    if owned == [] then [] else [MistakeTotal(owned)]
  }

  /** `totalMistakesResult[0]?.total || 0`: the number of mistakes across all of
      the caller's sessions, 0 when the caller has none. */
  function TotalMistakes(docs: seq<SessionDoc>, userId: UserId): (n: nat)
    ensures n == MistakeTotal(OwnedBy(docs, userId))
    ensures n == |Unwind(OwnedBy(docs, userId))|
    ensures OwnedBy(docs, userId) == [] ==> n == 0
  {
    UnwindLength(OwnedBy(docs, userId));
    var result := TotalMistakesResult(docs, userId);
    if |result| > 0 && result[0] != 0 then result[0] else 0
  }

  // ---------------------------------------------------------------------
  // Recurring mistakes

  /** One entry of `commonMistakes`. */
  datatype CommonMistake = CommonMistake(original: string, corrected: string, frequency: nat, lastOccurred: Timestamp)

  predicate SamePair(m: Mistake, original: string, corrected: string) {
    m.original == original && m.corrected == corrected
  }

  /** The group key of an entry. */
  function PairOf(g: CommonMistake): (string, string) {
    (g.original, g.corrected)
  }

  /** How many of `ms` carry the pair. */
  function Occurrences(ms: seq<Mistake>, original: string, corrected: string): nat {
    if ms == [] then 0
    else Occurrences(ms[..|ms| - 1], original, corrected)
         + (if SamePair(ms[|ms| - 1], original, corrected) then 1 else 0)
  }

  /** `t` is the `$max` of the timestamps of the mistakes carrying the pair. */
  ghost predicate IsLatest(ms: seq<Mistake>, original: string, corrected: string, t: Timestamp) {
    && (exists j :: 0 <= j < |ms| && SamePair(ms[j], original, corrected) && ms[j].timestamp == t)
    && (forall j :: 0 <= j < |ms| && SamePair(ms[j], original, corrected) ==> ms[j].timestamp <= t)
  }

  /** `g`'s count and latest time are those of its pair among `ms`. */
  ghost predicate GroupFits(g: CommonMistake, ms: seq<Mistake>) {
    && g.frequency == Occurrences(ms, g.original, g.corrected)
    && IsLatest(ms, g.original, g.corrected, g.lastOccurred)
  }

  /** Some entry of `gs` carries the pair. */
  ghost predicate HasGroup(gs: seq<CommonMistake>, original: string, corrected: string) {
    exists i :: 0 <= i < |gs| && gs[i].original == original && gs[i].corrected == corrected
  }

  /** Every mistake of `ms` has its pair's entry in `gs`. */
  ghost predicate Covers(gs: seq<CommonMistake>, ms: seq<Mistake>) {
    forall j :: 0 <= j < |ms| ==> HasGroup(gs, ms[j].original, ms[j].corrected)
  }

  /** `gs` is the `$group` of `ms` by (original, corrected): one entry per pair
      that occurs, with its number of occurrences and latest time. */
  ghost predicate GroupsOf(gs: seq<CommonMistake>, ms: seq<Mistake>) {
    && Ranking.Distinct(gs, PairOf)
    && (forall i :: 0 <= i < |gs| ==> GroupFits(gs[i], ms))
    && Covers(gs, ms)
  }

  function Max(a: int, b: int): int { if a >= b then a else b }

  /** The position of the pair's group, or |gs|. */
  function FindPair(gs: seq<CommonMistake>, original: string, corrected: string): (i: nat)
    ensures i <= |gs|
    ensures i < |gs| ==> gs[i].original == original && gs[i].corrected == corrected
    ensures forall k :: 0 <= k < i ==> !(gs[k].original == original && gs[k].corrected == corrected)
  {
    if gs == [] then 0
    else if gs[0].original == original && gs[0].corrected == corrected then 0
    else 1 + FindPair(gs[1..], original, corrected)
  }

  /** The group `g` with one more occurrence, at time `t`. */
  function Bump(g: CommonMistake, t: Timestamp): CommonMistake {
    CommonMistake(g.original, g.corrected, g.frequency + 1, Max(g.lastOccurred, t))
  }

  /** The group a mistake opens when its pair has none yet. */
  function Opened(m: Mistake): CommonMistake {
    CommonMistake(m.original, m.corrected, 1, m.timestamp)
  }

  /** Accumulates one unwound mistake into its group. */
  function AddMistake(gs: seq<CommonMistake>, m: Mistake): seq<CommonMistake> {
    var i := FindPair(gs, m.original, m.corrected);
    if i < |gs| then gs[i := Bump(gs[i], m.timestamp)] else gs + [Opened(m)]
  }

  /** The `$group` stage over unwound mistakes. */
  function GroupPairs(ms: seq<Mistake>): seq<CommonMistake> {
    if ms == [] then [] else AddMistake(GroupPairs(ms[..|ms| - 1]), ms[|ms| - 1])
  }

  lemma {:induction false} OccurrencesWitness(ms: seq<Mistake>, original: string, corrected: string)
    requires Occurrences(ms, original, corrected) > 0
    ensures exists j :: 0 <= j < |ms| && SamePair(ms[j], original, corrected)
  {
    var n := |ms|;
    if !SamePair(ms[n - 1], original, corrected) {
      OccurrencesWitness(ms[..n - 1], original, corrected);
      var j :| 0 <= j < n - 1 && SamePair(ms[..n - 1][j], original, corrected);
      assert ms[j] == ms[..n - 1][j];
    }
  }

  lemma {:induction false} OccurrencesPositive(ms: seq<Mistake>, k: nat, original: string, corrected: string)
    requires k < |ms| && SamePair(ms[k], original, corrected)
    ensures Occurrences(ms, original, corrected) > 0
  {
    var n := |ms|;
    if k < n - 1 {
      assert ms[..n - 1][k] == ms[k];
      OccurrencesPositive(ms[..n - 1], k, original, corrected);
    }
  }

  /** A pair without a group among groups that cover `ms` does not occur in `ms`. */
  lemma NoGroupNoOccurrence(gs: seq<CommonMistake>, ms: seq<Mistake>, original: string, corrected: string)
    requires Covers(gs, ms)
    requires forall k :: 0 <= k < |gs| ==> !(gs[k].original == original && gs[k].corrected == corrected)
    ensures Occurrences(ms, original, corrected) == 0
  {
    if Occurrences(ms, original, corrected) > 0 {
      OccurrencesWitness(ms, original, corrected);
    }
  }

  /** A last mistake with another pair leaves a pair's latest time as it was. */
  lemma LatestOtherPair(ms: seq<Mistake>, original: string, corrected: string, t: Timestamp)
    requires |ms| > 0
    requires IsLatest(ms[..|ms| - 1], original, corrected, t) && !SamePair(ms[|ms| - 1], original, corrected)
    ensures IsLatest(ms, original, corrected, t)
  {
    var p := ms[..|ms| - 1];
    var j :| 0 <= j < |p| && SamePair(p[j], original, corrected) && p[j].timestamp == t;
    assert ms[j] == p[j];
    forall k | 0 <= k < |ms| && SamePair(ms[k], original, corrected) ensures ms[k].timestamp <= t {
      assert ms[k] == p[k];
    }
  }

  /** A last mistake with the pair moves its latest time to the maximum. */
  lemma LatestSamePair(ms: seq<Mistake>, t: Timestamp)
    requires |ms| > 0
    requires IsLatest(ms[..|ms| - 1], ms[|ms| - 1].original, ms[|ms| - 1].corrected, t)
    ensures IsLatest(ms, ms[|ms| - 1].original, ms[|ms| - 1].corrected, Max(t, ms[|ms| - 1].timestamp))
  {
    var p := ms[..|ms| - 1];
    var m := ms[|ms| - 1];
    var j :| 0 <= j < |p| && SamePair(p[j], m.original, m.corrected) && p[j].timestamp == t;
    assert ms[j] == p[j];
    forall k | 0 <= k < |ms| && SamePair(ms[k], m.original, m.corrected)
      ensures ms[k].timestamp <= Max(t, m.timestamp)
    {
      if k < |p| { assert ms[k] == p[k]; }
    }
  }

  /** The first mistake with a pair is its latest occurrence. */
  lemma LatestNewPair(ms: seq<Mistake>)
    requires |ms| > 0
    requires Occurrences(ms[..|ms| - 1], ms[|ms| - 1].original, ms[|ms| - 1].corrected) == 0
    ensures IsLatest(ms, ms[|ms| - 1].original, ms[|ms| - 1].corrected, ms[|ms| - 1].timestamp)
  {
    var p := ms[..|ms| - 1];
    var m := ms[|ms| - 1];
    forall k | 0 <= k < |ms| && SamePair(ms[k], m.original, m.corrected)
      ensures ms[k].timestamp <= m.timestamp
    {
      if k < |p| {
        assert ms[k] == p[k];
        OccurrencesPositive(p, k, m.original, m.corrected);
      }
    }
  }

  /** Bumping the group of the last mistake's pair keeps every group's figures. */
  lemma BumpKeepsFits(ms: seq<Mistake>, gs: seq<CommonMistake>, i: nat, gs': seq<CommonMistake>)
    requires |ms| > 0 && i < |gs| && Ranking.Distinct(gs, PairOf)
    requires forall k :: 0 <= k < |gs| ==> GroupFits(gs[k], ms[..|ms| - 1])
    requires SamePair(ms[|ms| - 1], gs[i].original, gs[i].corrected)
    requires gs' == gs[i := Bump(gs[i], ms[|ms| - 1].timestamp)]
    ensures forall k :: 0 <= k < |gs'| ==> GroupFits(gs'[k], ms)
  {
    forall k | 0 <= k < |gs| ensures GroupFits(gs'[k], ms) {
      assert GroupFits(gs[k], ms[..|ms| - 1]);
      if k == i {
        LatestSamePair(ms, gs[i].lastOccurred);
      } else {
        assert PairOf(gs[k]) != PairOf(gs[i]);
        LatestOtherPair(ms, gs[k].original, gs[k].corrected, gs[k].lastOccurred);
      }
    }
  }

  /** Bumping the group of the last mistake's pair keeps every mistake covered. */
  lemma BumpKeepsCover(ms: seq<Mistake>, gs: seq<CommonMistake>, i: nat)
    requires |ms| > 0 && i < |gs|
    requires Covers(gs, ms[..|ms| - 1])
    requires SamePair(ms[|ms| - 1], gs[i].original, gs[i].corrected)
    ensures Covers(gs[i := Bump(gs[i], ms[|ms| - 1].timestamp)], ms)
  {
    var p := ms[..|ms| - 1];
    var gs' := gs[i := Bump(gs[i], ms[|ms| - 1].timestamp)];
    forall j | 0 <= j < |ms| ensures HasGroup(gs', ms[j].original, ms[j].corrected) {
      if j < |p| {
        assert ms[j] == p[j];
        assert HasGroup(gs, p[j].original, p[j].corrected);
        var k :| 0 <= k < |gs| && gs[k].original == p[j].original && gs[k].corrected == p[j].corrected;
        assert PairOf(gs'[k]) == PairOf(gs[k]);
      } else {
        assert PairOf(gs'[i]) == PairOf(gs[i]);
      }
    }
  }

  /** Opening a group for a new pair keeps every group's figures. */
  lemma OpenedKeepsFits(ms: seq<Mistake>, gs: seq<CommonMistake>, gs': seq<CommonMistake>)
    requires |ms| > 0
    requires forall k :: 0 <= k < |gs| ==> GroupFits(gs[k], ms[..|ms| - 1])
    requires forall k :: 0 <= k < |gs| ==> !SamePair(ms[|ms| - 1], gs[k].original, gs[k].corrected)
    requires Occurrences(ms[..|ms| - 1], ms[|ms| - 1].original, ms[|ms| - 1].corrected) == 0
    requires gs' == gs + [Opened(ms[|ms| - 1])]
    ensures forall k :: 0 <= k < |gs'| ==> GroupFits(gs'[k], ms)
  {
    forall k | 0 <= k < |gs'| ensures GroupFits(gs'[k], ms) {
      if k == |gs| {
        LatestNewPair(ms);
      } else {
        assert gs'[k] == gs[k];
        assert GroupFits(gs[k], ms[..|ms| - 1]);
        LatestOtherPair(ms, gs[k].original, gs[k].corrected, gs[k].lastOccurred);
      }
    }
  }

  /** Opening a group for the last mistake keeps every mistake covered. */
  lemma OpenedKeepsCover(ms: seq<Mistake>, gs: seq<CommonMistake>)
    requires |ms| > 0
    requires Covers(gs, ms[..|ms| - 1])
    ensures Covers(gs + [Opened(ms[|ms| - 1])], ms)
  {
    var p := ms[..|ms| - 1];
    var gs' := gs + [Opened(ms[|ms| - 1])];
    forall j | 0 <= j < |ms| ensures HasGroup(gs', ms[j].original, ms[j].corrected) {
      if j < |p| {
        assert ms[j] == p[j];
        assert HasGroup(gs, p[j].original, p[j].corrected);
        var k :| 0 <= k < |gs| && gs[k].original == p[j].original && gs[k].corrected == p[j].corrected;
        assert gs'[k] == gs[k];
      } else {
        assert gs'[|gs|] == Opened(ms[j]);
      }
    }
  }

  /** One more unwound mistake keeps the grouping exact. */
  lemma AddMistakeGroups(ms: seq<Mistake>)
    requires |ms| > 0
    requires GroupsOf(GroupPairs(ms[..|ms| - 1]), ms[..|ms| - 1])
    ensures GroupsOf(GroupPairs(ms), ms)
  {
    var p := ms[..|ms| - 1];
    var m := ms[|ms| - 1];
    var gs := GroupPairs(p);
    var i := FindPair(gs, m.original, m.corrected);
    if i < |gs| {
      BumpKeepsFits(ms, gs, i, gs[i := Bump(gs[i], m.timestamp)]);
      BumpKeepsCover(ms, gs, i);
      Ranking.UpdateKeepsDistinct(gs, i, Bump(gs[i], m.timestamp), PairOf);
    } else {
      NoGroupNoOccurrence(gs, p, m.original, m.corrected);
      OpenedKeepsFits(ms, gs, gs + [Opened(m)]);
      OpenedKeepsCover(ms, gs);
      Ranking.AppendKeepsDistinct(gs, Opened(m), PairOf);
    }
  }

  /** The grouping stage computes exactly the groups of the unwound mistakes. */
  lemma {:induction false} GroupPairsCorrect(ms: seq<Mistake>)
    ensures GroupsOf(GroupPairs(ms), ms)
  {
    if ms != [] {
      GroupPairsCorrect(ms[..|ms| - 1]);
      AddMistakeGroups(ms);
    }
  }

  function Frequency(g: CommonMistake): int { g.frequency }

  /** The `commonMistakes` pipeline: unwind, group, `$sort: { count: -1 }`, `$limit: 10`. */
  function CommonMistakes(docs: seq<SessionDoc>, userId: UserId): seq<CommonMistake> {
    Ranking.Take(Ranking.SortDesc(GroupPairs(Unwind(OwnedBy(docs, userId))), Frequency), 10)
  }

  /** The recurring mistakes are at most ten groups of the caller's unwound
      mistakes, one per pair, each with its exact count and latest time, in
      non-increasing order of count; no group left out occurs more often than
      one kept, and when there are at most ten groups all are kept. */
  lemma CommonMistakesSpec(docs: seq<SessionDoc>, userId: UserId)
    ensures var all := Unwind(OwnedBy(docs, userId));
      var groups := GroupPairs(all);
      var r := CommonMistakes(docs, userId);
      && GroupsOf(groups, all)
      && |r| == (if |groups| <= 10 then |groups| else 10)
      && Ranking.NonIncreasing(r, Frequency)
      && Ranking.Distinct(r, PairOf)
      && (forall g :: g in r ==> g in groups)
      && (forall g :: g in groups && g !in r ==> forall e :: e in r ==> e.frequency >= g.frequency)
  {
    var all := Unwind(OwnedBy(docs, userId));
    var groups := GroupPairs(all);
    var r := CommonMistakes(docs, userId);
    GroupPairsCorrect(all);
    Ranking.TopEntries(groups, Frequency, 10);
    Ranking.SubKeepsDistinct(groups, r, PairOf);
    forall g | g in r ensures g in groups {
      assert g in multiset(r);
    }
  }

  /** Two sessions that each hold the mistake ("I go", "I went") once give a
      single recurring entry with frequency 2. */
  lemma CommonMistakesExample(a: SessionDoc, b: SessionDoc, ma: Mistake, mb: Mistake)
    requires a.userId == b.userId
    requires a.mistakes == [ma] && b.mistakes == [mb]
    requires SamePair(ma, "I go", "I went") && SamePair(mb, "I go", "I went")
    ensures CommonMistakes([a, b], a.userId)
         == [CommonMistake("I go", "I went", 2, Max(ma.timestamp, mb.timestamp))]
  {
    assert OwnedBy([a, b], a.userId) == [a, b] by {
      assert OwnedBy([b], a.userId) == [b] by { assert [b][1..] == []; }
      assert [a, b][1..] == [b];
    }
    assert Unwind([a, b]) == [ma, mb] by {
      assert Unwind([b]) == [mb] by { assert [b][1..] == []; }
      assert [a, b][1..] == [b];
    }
    assert GroupPairs([ma]) == [CommonMistake("I go", "I went", 1, ma.timestamp)] by {
      assert [ma][..0] == [];
    }
    assert [ma, mb][..1] == [ma];
  }

  // ---------------------------------------------------------------------
  // Weekly progress

  /** Thirty days in milliseconds: `30 * 24 * 60 * 60 * 1000`. */
  const WindowMs: int := 2592000000

  /** MongoDB's `$week`: 0 to 53. */
  type Week = w: int | 0 <= w <= 53

  datatype WeekKey = WeekKey(week: Week, year: int)

  /** One entry of `weeklyProgress`. */
  datatype WeekBucket = WeekBucket(id: WeekKey, sessions: nat, totalDuration: int, mistakes: nat)

  /** `$sum: "$duration"` ignores a session whose duration is not set. */
  function DurationOf(d: SessionDoc): int {
    if d.duration.Some? then d.duration.value else 0
  }

  /** The sessions matched by the first stage: the caller's, started within
      the last thirty days. */
  function InWindow(docs: seq<SessionDoc>, userId: UserId, now: Timestamp): (r: seq<SessionDoc>)
    ensures forall d :: d in r <==> d in docs && d.userId == userId && d.startTime >= now - WindowMs
    ensures |r| <= |OwnedBy(docs, userId)|
  {
    if docs == [] then []
    else
      (if docs[0].userId == userId && docs[0].startTime >= now - WindowMs then [docs[0]] else [])
      + InWindow(docs[1..], userId, now)
  }

  /** Each of the caller's documents started within the window is selected
      as often as it is stored, and no other document at all. */
  lemma {:induction false} InWindowCounts(docs: seq<SessionDoc>, userId: UserId, now: Timestamp)
    ensures forall d ::
              multiset(InWindow(docs, userId, now))[d]
                == if d.userId == userId && d.startTime >= now - WindowMs then multiset(docs)[d] else 0
  {
    if docs != [] {
      assert docs == [docs[0]] + docs[1..];
      InWindowCounts(docs[1..], userId, now);
    }
  }

  /** Number, total duration and total mistakes of the sessions of one week. */
  function CountInWeek(ds: seq<SessionDoc>, weekOf: Timestamp -> WeekKey, k: WeekKey): nat {
    if ds == [] then 0
    else CountInWeek(ds[..|ds| - 1], weekOf, k) + (if weekOf(ds[|ds| - 1].startTime) == k then 1 else 0)
  }

  function DurationInWeek(ds: seq<SessionDoc>, weekOf: Timestamp -> WeekKey, k: WeekKey): int {
    if ds == [] then 0
    else DurationInWeek(ds[..|ds| - 1], weekOf, k) + (if weekOf(ds[|ds| - 1].startTime) == k then DurationOf(ds[|ds| - 1]) else 0)
  }

  function MistakesInWeek(ds: seq<SessionDoc>, weekOf: Timestamp -> WeekKey, k: WeekKey): nat {
    if ds == [] then 0
    else MistakesInWeek(ds[..|ds| - 1], weekOf, k) + (if weekOf(ds[|ds| - 1].startTime) == k then |ds[|ds| - 1].mistakes| else 0)
  }

  function BucketWeek(b: WeekBucket): WeekKey { b.id }

  /** `b`'s figures are those of its week among `ds`. */
  ghost predicate BucketFits(b: WeekBucket, ds: seq<SessionDoc>, weekOf: Timestamp -> WeekKey) {
    && b.sessions == CountInWeek(ds, weekOf, b.id)
    && b.totalDuration == DurationInWeek(ds, weekOf, b.id)
    && b.mistakes == MistakesInWeek(ds, weekOf, b.id)
  }

  /** Some bucket of `bs` is the week's. */
  ghost predicate HasBucket(bs: seq<WeekBucket>, k: WeekKey) {
    exists i :: 0 <= i < |bs| && bs[i].id == k
  }

  /** Every session of `ds` has its week's bucket in `bs`. */
  ghost predicate CoversWeeks(bs: seq<WeekBucket>, ds: seq<SessionDoc>, weekOf: Timestamp -> WeekKey) {
    forall j :: 0 <= j < |ds| ==> HasBucket(bs, weekOf(ds[j].startTime))
  }

  /** `bs` is the `$group` of `ds` by week: one bucket per week that occurs,
      with that week's figures. */
  ghost predicate BucketsOf(bs: seq<WeekBucket>, ds: seq<SessionDoc>, weekOf: Timestamp -> WeekKey) {
    && Ranking.Distinct(bs, BucketWeek)
    && (forall i :: 0 <= i < |bs| ==> BucketFits(bs[i], ds, weekOf))
    && CoversWeeks(bs, ds, weekOf)
  }

  /** The position of the week's bucket, or |bs|. */
  function FindWeek(bs: seq<WeekBucket>, k: WeekKey): (i: nat)
    ensures i <= |bs|
    ensures i < |bs| ==> bs[i].id == k
    ensures forall j :: 0 <= j < i ==> bs[j].id != k
  {
    if bs == [] then 0 else if bs[0].id == k then 0 else 1 + FindWeek(bs[1..], k)
  }

  /** The bucket `b` with one more session `d`. */
  function Counted(b: WeekBucket, d: SessionDoc): WeekBucket {
    WeekBucket(b.id, b.sessions + 1, b.totalDuration + DurationOf(d), b.mistakes + |d.mistakes|)
  }

  /** The bucket a session opens when its week has none yet. */
  function OpenedWeek(k: WeekKey, d: SessionDoc): WeekBucket {
    WeekBucket(k, 1, DurationOf(d), |d.mistakes|)
  }

  /** Accumulates one session into its week's bucket. */
  function AddSession(bs: seq<WeekBucket>, d: SessionDoc, weekOf: Timestamp -> WeekKey): seq<WeekBucket> {
    var k := weekOf(d.startTime);
    var i := FindWeek(bs, k);
    if i < |bs| then bs[i := Counted(bs[i], d)] else bs + [OpenedWeek(k, d)]
  }

  /** The `$group` stage by (`$week`, `$year`) of the start time. */
  function GroupWeeks(ds: seq<SessionDoc>, weekOf: Timestamp -> WeekKey): seq<WeekBucket> {
    if ds == [] then [] else AddSession(GroupWeeks(ds[..|ds| - 1], weekOf), ds[|ds| - 1], weekOf)
  }

  lemma {:induction false} CountInWeekWitness(ds: seq<SessionDoc>, weekOf: Timestamp -> WeekKey, k: WeekKey)
    requires CountInWeek(ds, weekOf, k) > 0
    ensures exists j :: 0 <= j < |ds| && weekOf(ds[j].startTime) == k
  {
    var n := |ds|;
    if weekOf(ds[n - 1].startTime) != k {
      CountInWeekWitness(ds[..n - 1], weekOf, k);
      var j :| 0 <= j < n - 1 && weekOf(ds[..n - 1][j].startTime) == k;
      assert ds[j] == ds[..n - 1][j];
    }
  }

  /** A week without sessions has no duration and no mistakes. */
  lemma {:induction false} EmptyWeek(ds: seq<SessionDoc>, weekOf: Timestamp -> WeekKey, k: WeekKey)
    requires CountInWeek(ds, weekOf, k) == 0
    ensures DurationInWeek(ds, weekOf, k) == 0 && MistakesInWeek(ds, weekOf, k) == 0
  {
    if ds != [] {
      EmptyWeek(ds[..|ds| - 1], weekOf, k);
    }
  }

  /** A week without a bucket among buckets that cover `ds` has no session in `ds`. */
  lemma NoBucketEmptyWeek(bs: seq<WeekBucket>, ds: seq<SessionDoc>, weekOf: Timestamp -> WeekKey, k: WeekKey)
    requires CoversWeeks(bs, ds, weekOf)
    requires forall i :: 0 <= i < |bs| ==> bs[i].id != k
    ensures CountInWeek(ds, weekOf, k) == 0
    ensures DurationInWeek(ds, weekOf, k) == 0 && MistakesInWeek(ds, weekOf, k) == 0
  {
    if CountInWeek(ds, weekOf, k) > 0 {
      CountInWeekWitness(ds, weekOf, k);
    }
    EmptyWeek(ds, weekOf, k);
  }

  /** Counting the last session in its week's bucket keeps every bucket's figures. */
  lemma CountedKeepsFits(ds: seq<SessionDoc>, weekOf: Timestamp -> WeekKey, bs: seq<WeekBucket>, i: nat, bs': seq<WeekBucket>)
    requires |ds| > 0 && i < |bs| && Ranking.Distinct(bs, BucketWeek)
    requires forall k :: 0 <= k < |bs| ==> BucketFits(bs[k], ds[..|ds| - 1], weekOf)
    requires bs[i].id == weekOf(ds[|ds| - 1].startTime)
    requires bs' == bs[i := Counted(bs[i], ds[|ds| - 1])]
    ensures forall k :: 0 <= k < |bs'| ==> BucketFits(bs'[k], ds, weekOf)
  {
    forall k | 0 <= k < |bs'| ensures BucketFits(bs'[k], ds, weekOf) {
      assert BucketFits(bs[k], ds[..|ds| - 1], weekOf);
      if k != i {
        assert BucketWeek(bs[k]) != BucketWeek(bs[i]);
      }
    }
  }

  /** Counting the last session in its week's bucket keeps every session covered. */
  lemma CountedKeepsCover(ds: seq<SessionDoc>, weekOf: Timestamp -> WeekKey, bs: seq<WeekBucket>, i: nat, bs': seq<WeekBucket>)
    requires |ds| > 0 && i < |bs|
    requires CoversWeeks(bs, ds[..|ds| - 1], weekOf)
    requires bs[i].id == weekOf(ds[|ds| - 1].startTime)
    requires bs' == bs[i := Counted(bs[i], ds[|ds| - 1])]
    ensures CoversWeeks(bs', ds, weekOf)
  {
    var p := ds[..|ds| - 1];
    forall j | 0 <= j < |ds| ensures HasBucket(bs', weekOf(ds[j].startTime)) {
      if j < |p| {
        assert ds[j] == p[j];
        assert HasBucket(bs, weekOf(p[j].startTime));
        var k :| 0 <= k < |bs| && bs[k].id == weekOf(p[j].startTime);
        assert bs'[k].id == bs[k].id;
      } else {
        assert bs'[i].id == bs[i].id;
      }
    }
  }

  /** Opening a bucket for the last session's week keeps every bucket's figures. */
  lemma OpenedWeekKeepsFits(ds: seq<SessionDoc>, weekOf: Timestamp -> WeekKey, bs: seq<WeekBucket>, bs': seq<WeekBucket>)
    requires |ds| > 0
    requires forall k :: 0 <= k < |bs| ==> BucketFits(bs[k], ds[..|ds| - 1], weekOf)
    requires forall k :: 0 <= k < |bs| ==> bs[k].id != weekOf(ds[|ds| - 1].startTime)
    requires CountInWeek(ds[..|ds| - 1], weekOf, weekOf(ds[|ds| - 1].startTime)) == 0
    requires DurationInWeek(ds[..|ds| - 1], weekOf, weekOf(ds[|ds| - 1].startTime)) == 0
    requires MistakesInWeek(ds[..|ds| - 1], weekOf, weekOf(ds[|ds| - 1].startTime)) == 0
    requires bs' == bs + [OpenedWeek(weekOf(ds[|ds| - 1].startTime), ds[|ds| - 1])]
    ensures forall k :: 0 <= k < |bs'| ==> BucketFits(bs'[k], ds, weekOf)
  {
    forall k | 0 <= k < |bs'| ensures BucketFits(bs'[k], ds, weekOf) {
      if k < |bs| {
        assert bs'[k] == bs[k];
        assert BucketFits(bs[k], ds[..|ds| - 1], weekOf);
      }
    }
  }

  /** Opening a bucket for the last session's week keeps every session covered. */
  lemma OpenedWeekKeepsCover(ds: seq<SessionDoc>, weekOf: Timestamp -> WeekKey, bs: seq<WeekBucket>, bs': seq<WeekBucket>)
    requires |ds| > 0
    requires CoversWeeks(bs, ds[..|ds| - 1], weekOf)
    requires bs' == bs + [OpenedWeek(weekOf(ds[|ds| - 1].startTime), ds[|ds| - 1])]
    ensures CoversWeeks(bs', ds, weekOf)
  {
    var p := ds[..|ds| - 1];
    forall j | 0 <= j < |ds| ensures HasBucket(bs', weekOf(ds[j].startTime)) {
      if j < |p| {
        assert ds[j] == p[j];
        assert HasBucket(bs, weekOf(p[j].startTime));
        var k :| 0 <= k < |bs| && bs[k].id == weekOf(p[j].startTime);
        assert bs'[k] == bs[k];
      } else {
        assert bs'[|bs|].id == weekOf(ds[j].startTime);
      }
    }
  }

  /** One more session keeps the bucketing exact. */
  lemma AddSessionBuckets(ds: seq<SessionDoc>, weekOf: Timestamp -> WeekKey)
    requires |ds| > 0
    requires BucketsOf(GroupWeeks(ds[..|ds| - 1], weekOf), ds[..|ds| - 1], weekOf)
    ensures BucketsOf(GroupWeeks(ds, weekOf), ds, weekOf)
  {
    var p := ds[..|ds| - 1];
    var d := ds[|ds| - 1];
    var k := weekOf(d.startTime);
    var bs := GroupWeeks(p, weekOf);
    var i := FindWeek(bs, k);
    if i < |bs| {
      CountedKeepsFits(ds, weekOf, bs, i, bs[i := Counted(bs[i], d)]);
      CountedKeepsCover(ds, weekOf, bs, i, bs[i := Counted(bs[i], d)]);
      Ranking.UpdateKeepsDistinct(bs, i, Counted(bs[i], d), BucketWeek);
    } else {
      NoBucketEmptyWeek(bs, p, weekOf, k);
      OpenedWeekKeepsFits(ds, weekOf, bs, bs + [OpenedWeek(k, d)]);
      OpenedWeekKeepsCover(ds, weekOf, bs, bs + [OpenedWeek(k, d)]);
      Ranking.AppendKeepsDistinct(bs, OpenedWeek(k, d), BucketWeek);
    }
  }

  /** The bucketing stage computes exactly the weeks of the sessions. */
  lemma {:induction false} GroupWeeksCorrect(ds: seq<SessionDoc>, weekOf: Timestamp -> WeekKey)
    ensures BucketsOf(GroupWeeks(ds, weekOf), ds, weekOf)
  {
    if ds != [] {
      GroupWeeksCorrect(ds[..|ds| - 1], weekOf);
      AddSessionBuckets(ds, weekOf);
    }
  }

  /** The sessions of all buckets. */
  function SessionsIn(bs: seq<WeekBucket>): nat {
    if bs == [] then 0 else bs[0].sessions + SessionsIn(bs[1..])
  }

  lemma {:induction false} SessionsInUpdate(bs: seq<WeekBucket>, i: nat, b: WeekBucket)
    requires i < |bs|
    ensures SessionsIn(bs[i := b]) == SessionsIn(bs) - bs[i].sessions + b.sessions
  {
    if i > 0 {
      SessionsInUpdate(bs[1..], i - 1, b);
      assert bs[i := b][1..] == bs[1..][i - 1 := b];
    }
  }

  lemma {:induction false} SessionsInAppend(bs: seq<WeekBucket>, b: WeekBucket)
    ensures SessionsIn(bs + [b]) == SessionsIn(bs) + b.sessions
  {
    if bs != [] {
      SessionsInAppend(bs[1..], b);
      assert (bs + [b])[1..] == bs[1..] + [b];
    }
  }

  /** Every session falls in exactly one bucket, so the buckets' counts add up
      to the number of sessions. */
  lemma {:induction false} GroupWeeksCount(ds: seq<SessionDoc>, weekOf: Timestamp -> WeekKey)
    ensures SessionsIn(GroupWeeks(ds, weekOf)) == |ds|
  {
    if ds != [] {
      var d := ds[|ds| - 1];
      var bs := GroupWeeks(ds[..|ds| - 1], weekOf);
      GroupWeeksCount(ds[..|ds| - 1], weekOf);
      var i := FindWeek(bs, weekOf(d.startTime));
      if i < |bs| {
        SessionsInUpdate(bs, i, Counted(bs[i], d));
      } else {
        SessionsInAppend(bs, OpenedWeek(weekOf(d.startTime), d));
      }
    }
  }

  /** Every bucket of the grouping holds at least one session. */
  lemma {:induction false} GroupSessionsPositive(ds: seq<SessionDoc>, weekOf: Timestamp -> WeekKey, k: nat)
    requires k < |GroupWeeks(ds, weekOf)|
    ensures GroupWeeks(ds, weekOf)[k].sessions > 0
  {
    var bs := GroupWeeks(ds[..|ds| - 1], weekOf);
    var i := FindWeek(bs, weekOf(ds[|ds| - 1].startTime));
    if k < |bs| && k != i {
      GroupSessionsPositive(ds[..|ds| - 1], weekOf, k);
    }
  }

  /** Ordering rank for `$sort: { "_id.year": 1, "_id.week": 1 }`: with weeks in
      0..53, ascending (year, week) is descending rank. */
  function WeekRank(b: WeekBucket): int {
    -(b.id.year * 54 + b.id.week)
  }

  /** (year, week) strictly before (year', week'). */
  predicate Before(a: WeekKey, b: WeekKey) {
    a.year < b.year || (a.year == b.year && a.week < b.week)
  }

  lemma RankOrder(a: WeekBucket, b: WeekBucket)
    requires WeekRank(a) >= WeekRank(b) && a.id != b.id
    ensures Before(a.id, b.id)
  {
  }

  lemma {:induction false} SessionsInInsert(x: WeekBucket, s: seq<WeekBucket>)
    ensures SessionsIn(Ranking.InsertDesc(x, s, WeekRank)) == x.sessions + SessionsIn(s)
  {
    if s != [] && WeekRank(x) < WeekRank(s[0]) {
      SessionsInInsert(x, s[1..]);
    }
  }

  lemma {:induction false} SessionsInSort(s: seq<WeekBucket>)
    ensures SessionsIn(Ranking.SortDesc(s, WeekRank)) == SessionsIn(s)
  {
    if s != [] {
      SessionsInSort(s[1..]);
      SessionsInInsert(s[0], Ranking.SortDesc(s[1..], WeekRank));
    }
  }

  /** The grouping and ordering stages over the matched sessions `ds`. */
  function Weeks(ds: seq<SessionDoc>, weekOf: Timestamp -> WeekKey): seq<WeekBucket> {
    Ranking.SortDesc(GroupWeeks(ds, weekOf), WeekRank)
  }

  /** The `weeklyProgress` pipeline. */
  function WeeklyProgress(docs: seq<SessionDoc>, userId: UserId, now: Timestamp, weekOf: Timestamp -> WeekKey): seq<WeekBucket> {
    Weeks(InWindow(docs, userId, now), weekOf)
  }

  /** Each ordered bucket holds its week's figures, and at least one session. */
  lemma WeeksFigures(ds: seq<SessionDoc>, weekOf: Timestamp -> WeekKey)
    ensures var wp := Weeks(ds, weekOf);
      forall i :: 0 <= i < |wp| ==> BucketFits(wp[i], ds, weekOf) && wp[i].sessions > 0
  {
    var groups := GroupWeeks(ds, weekOf);
    var wp := Weeks(ds, weekOf);
    GroupWeeksCorrect(ds, weekOf);
    forall i | 0 <= i < |wp| ensures BucketFits(wp[i], ds, weekOf) && wp[i].sessions > 0 {
      assert wp[i] in multiset(groups);
      var k :| 0 <= k < |groups| && groups[k] == wp[i];
      GroupSessionsPositive(ds, weekOf, k);
    }
  }

  /** Every session's week has an ordered bucket. */
  lemma WeeksCover(ds: seq<SessionDoc>, weekOf: Timestamp -> WeekKey)
    ensures forall d :: d in ds ==> HasBucket(Weeks(ds, weekOf), weekOf(d.startTime))
  {
    var groups := GroupWeeks(ds, weekOf);
    var wp := Weeks(ds, weekOf);
    GroupWeeksCorrect(ds, weekOf);
    forall d | d in ds ensures HasBucket(wp, weekOf(d.startTime)) {
      var j :| 0 <= j < |ds| && ds[j] == d;
      assert HasBucket(groups, weekOf(ds[j].startTime));
      var k :| 0 <= k < |groups| && groups[k].id == weekOf(ds[j].startTime);
      assert groups[k] in multiset(wp);
    }
  }

  /** The ordered buckets are in strictly ascending (year, week) order. */
  lemma WeeksAscending(ds: seq<SessionDoc>, weekOf: Timestamp -> WeekKey)
    ensures var wp := Weeks(ds, weekOf);
      forall i, j :: 0 <= i < j < |wp| ==> Before(wp[i].id, wp[j].id)
  {
    var groups := GroupWeeks(ds, weekOf);
    var wp := Weeks(ds, weekOf);
    GroupWeeksCorrect(ds, weekOf);
    Ranking.SubKeepsDistinct(groups, wp, BucketWeek);
    forall i, j | 0 <= i < j < |wp| ensures Before(wp[i].id, wp[j].id) {
      assert BucketWeek(wp[i]) != BucketWeek(wp[j]);
      RankOrder(wp[i], wp[j]);
    }
  }

  /** The ordered buckets' counts add up to the number of sessions. */
  lemma WeeksTotal(ds: seq<SessionDoc>, weekOf: Timestamp -> WeekKey)
    ensures SessionsIn(Weeks(ds, weekOf)) == |ds|
  {
    GroupWeeksCount(ds, weekOf);
    SessionsInSort(GroupWeeks(ds, weekOf));
  }

  /** Weekly progress holds one bucket per week in which the caller started a
      session within the last thirty days, each with that week's session
      count (at least one), total duration and total mistakes, in strictly
      ascending (year, week) order; the counts add up to the number of
      sessions in the window. */
  lemma WeeklyProgressSpec(docs: seq<SessionDoc>, userId: UserId, now: Timestamp, weekOf: Timestamp -> WeekKey)
    ensures var window := InWindow(docs, userId, now);
      var wp := WeeklyProgress(docs, userId, now, weekOf);
      && (forall i :: 0 <= i < |wp| ==> BucketFits(wp[i], window, weekOf) && wp[i].sessions > 0)
      && (forall d :: d in window ==> HasBucket(wp, weekOf(d.startTime)))
      && (forall i, j :: 0 <= i < j < |wp| ==> Before(wp[i].id, wp[j].id))
      && SessionsIn(wp) == |window|
  {
    var window := InWindow(docs, userId, now);
    WeeksFigures(window, weekOf);
    WeeksCover(window, weekOf);
    WeeksAscending(window, weekOf);
    WeeksTotal(window, weekOf);
  }

  /** `weeklyProgress[weeklyProgress.length - 1]?.sessions || 0`. */
  function CurrentWeekSessions(wp: seq<WeekBucket>): nat {
    if |wp| > 0 then wp[|wp| - 1].sessions else 0
  }

  /** In a list of buckets in strictly ascending week order, no week of a
      bucket comes after the last one's. */
  lemma LastBucketIsLatest(wp: seq<WeekBucket>, k: WeekKey)
    requires forall i, j :: 0 <= i < j < |wp| ==> Before(wp[i].id, wp[j].id)
    requires HasBucket(wp, k)
    ensures |wp| > 0 && !Before(wp[|wp| - 1].id, k)
  {
    var i :| 0 <= i < |wp| && wp[i].id == k;
    if i < |wp| - 1 {
      assert Before(wp[i].id, wp[|wp| - 1].id);
    }
  }

  /** `k` is the latest week in which one of `ds` started. */
  ghost predicate LatestWeek(ds: seq<SessionDoc>, weekOf: Timestamp -> WeekKey, k: WeekKey) {
    && (exists d :: d in ds && weekOf(d.startTime) == k)
    && (forall d :: d in ds ==> !Before(k, weekOf(d.startTime)))
  }

  /** Over any matched sessions, the last ordered bucket's count is the count
      of the latest week among them, and 0 when there are none. */
  lemma CurrentWeekOfSessions(ds: seq<SessionDoc>, weekOf: Timestamp -> WeekKey)
    ensures ds == [] ==> CurrentWeekSessions(Weeks(ds, weekOf)) == 0
    ensures ds != [] ==> exists k ::
      LatestWeek(ds, weekOf, k) && CurrentWeekSessions(Weeks(ds, weekOf)) == CountInWeek(ds, weekOf, k)
  {
    var wp := Weeks(ds, weekOf);
    WeeksTotal(ds, weekOf);
    if ds != [] {
      WeeksFigures(ds, weekOf);
      WeeksCover(ds, weekOf);
      WeeksAscending(ds, weekOf);
      assert |wp| > 0;
      var k := wp[|wp| - 1].id;
      assert BucketFits(wp[|wp| - 1], ds, weekOf);
      CountInWeekWitness(ds, weekOf, k);
      var j :| 0 <= j < |ds| && weekOf(ds[j].startTime) == k;
      assert ds[j] in ds;
      forall d | d in ds ensures !Before(k, weekOf(d.startTime)) {
        LastBucketIsLatest(wp, weekOf(d.startTime));
      }
      assert LatestWeek(ds, weekOf, k);
    }
  }

  /** The current-week figure counts the sessions of the latest week in which
      the caller started a session in the window (which need not be the
      calendar's current week), and is 0 when the window is empty. */
  lemma CurrentWeekIsLatestWeek(docs: seq<SessionDoc>, userId: UserId, now: Timestamp, weekOf: Timestamp -> WeekKey)
    ensures var window := InWindow(docs, userId, now);
      var c := CurrentWeekSessions(WeeklyProgress(docs, userId, now, weekOf));
      && (window == [] ==> c == 0)
      && (window != [] ==> exists k :: LatestWeek(window, weekOf, k) && c == CountInWeek(window, weekOf, k))
  {
    CurrentWeekOfSessions(InWindow(docs, userId, now), weekOf);
  }

  // ---------------------------------------------------------------------
  // Average duration

  /** `Math.round(totalCallDuration / totalCalls)`, or 0 without calls:
      the integer nearest the mean, halves rounded up. */
  function AverageDuration(totalCallDuration: int, totalCalls: nat): (r: int)
    ensures totalCalls == 0 ==> r == 0
    ensures totalCalls > 0 ==>
      -(totalCalls as int) <= 2 * (totalCallDuration - r * totalCalls) < totalCalls
  {
    if totalCalls > 0 then (2 * totalCallDuration + totalCalls) / (2 * totalCalls) else 0
  }

  // ---------------------------------------------------------------------
  // Recent sessions

  /** One entry of `recentSessions`. */
  datatype SessionSummary = SessionSummary(
    id: SessionId, startTime: Timestamp, duration: Option<int>, mistakesCount: nat,
    overallScore: Option<real>, sessionType: string)

  function Summarize(d: SessionDoc): SessionSummary {
    SessionSummary(d.id, d.startTime, d.duration, |d.mistakes|, d.overallScore, d.sessionType)
  }

  function StartTimeOf(d: SessionDoc): int { d.startTime }

  /** `find({ userId }).sort({ startTime: -1 }).limit(10)`. */
  function RecentDocs(docs: seq<SessionDoc>, userId: UserId): seq<SessionDoc> {
    Ranking.Take(Ranking.SortDesc(OwnedBy(docs, userId), StartTimeOf), 10)
  }

  /** `sessions.map(s => ({ ... }))`. */
  function SummarizeAll(ds: seq<SessionDoc>): (r: seq<SessionSummary>)
    ensures |r| == |ds|
    ensures forall i :: 0 <= i < |ds| ==> r[i] == Summarize(ds[i])
  {
    if ds == [] then [] else [Summarize(ds[0])] + SummarizeAll(ds[1..])
  }

  function RecentSessions(docs: seq<SessionDoc>, userId: UserId): seq<SessionSummary> {
    SummarizeAll(RecentDocs(docs, userId))
  }

  /** The listed documents are at most ten of the caller's own sessions,
      none listed more often than it is stored, newest first; none of the
      caller's sessions left out started later than one listed. */
  lemma RecentDocsSpec(docs: seq<SessionDoc>, userId: UserId)
    ensures var top := RecentDocs(docs, userId);
      var owned := OwnedBy(docs, userId);
      && |top| == (if |owned| <= 10 then |owned| else 10)
      && multiset(top) <= multiset(owned)
      && (forall d :: d in top ==> d in docs && d.userId == userId)
      && Ranking.NonIncreasing(top, StartTimeOf)
      && (forall d :: d in docs && d.userId == userId && d !in top ==>
            forall e :: e in top ==> e.startTime >= d.startTime)
  {
    var owned := OwnedBy(docs, userId);
    var top := RecentDocs(docs, userId);
    Ranking.TopEntries(owned, StartTimeOf, 10);
    forall d | d in top ensures d in docs && d.userId == userId {
      assert d in multiset(owned);
    }
  }

  /** The recent sessions summarise those documents in order, newest first,
      each with its number of mistakes. */
  lemma RecentSessionsSpec(docs: seq<SessionDoc>, userId: UserId)
    ensures var top := RecentDocs(docs, userId);
      var r := RecentSessions(docs, userId);
      && |r| == |top| <= 10
      && (forall i :: 0 <= i < |r| ==> r[i] == Summarize(top[i]) && r[i].mistakesCount == |top[i].mistakes|)
      && (forall i, j :: 0 <= i < j < |r| ==> r[i].startTime >= r[j].startTime)
  {
    var sorted := Ranking.SortDesc(OwnedBy(docs, userId), StartTimeOf);
    var top := RecentDocs(docs, userId);
    var r := RecentSessions(docs, userId);
    forall i, j | 0 <= i < j < |r| ensures r[i].startTime >= r[j].startTime {
      assert top[i] == sorted[i] && top[j] == sorted[j];
      assert StartTimeOf(sorted[i]) >= StartTimeOf(sorted[j]);
    }
  }

  // ---------------------------------------------------------------------
  // Session detail

  /** The `session` body of the detail route. */
  datatype SessionView = SessionView(
    id: SessionId, startTime: Timestamp, endTime: Option<Timestamp>, duration: Option<int>,
    callType: string, sessionType: string, overallScore: Option<real>, feedback: Option<string>,
    conversation: seq<Turn>, mistakes: seq<Mistake>)

  function ViewOf(d: SessionDoc): SessionView {
    SessionView(d.id, d.startTime, d.endTime, d.duration, d.callType, d.sessionType,
                d.overallScore, d.feedback, d.conversation, d.mistakes)
  }

  /** `findById`: the document with the id, if any. */
  function FindById(docs: seq<SessionDoc>, sessionId: SessionId): (r: Option<SessionDoc>)
    ensures r.Some? ==> r.value in docs && r.value.id == sessionId
    ensures r.None? ==> forall d :: d in docs ==> d.id != sessionId
  {
    if docs == [] then None
    else if docs[0].id == sessionId then Some(docs[0])
    else FindById(docs[1..], sessionId)
  }

  /** `GET /session/:sessionId`: the full session for its owner, "Session not
      found" both when it is missing and when someone else owns it. */
  function SessionDetail(docs: seq<SessionDoc>, callerId: UserId, sessionId: SessionId): (r: Result<SessionView>)
    ensures r.Ok? ==> exists d :: d in docs && d.id == sessionId && d.userId == callerId && r.value == ViewOf(d)
    ensures r.Err? ==> r.message == SessionNotFound
    ensures (forall d :: d in docs && d.id == sessionId ==> d.userId != callerId) ==> r.Err?
  {
    var found := FindById(docs, sessionId);
    if found.None? || found.value.userId != callerId then Err(SessionNotFound)
    else Ok(ViewOf(found.value))
  }

  /** With unique ids the detail is found exactly when the caller owns a
      session with that id. */
  lemma SessionDetailIff(docs: seq<SessionDoc>, callerId: UserId, sessionId: SessionId)
    requires forall i, j :: 0 <= i < j < |docs| ==> docs[i].id != docs[j].id
    ensures SessionDetail(docs, callerId, sessionId).Ok? <==>
      exists d :: d in docs && d.id == sessionId && d.userId == callerId
  {
    if d :| d in docs && d.id == sessionId && d.userId == callerId {
      var found := FindById(docs, sessionId);
      var i :| 0 <= i < |docs| && docs[i] == d;
      var j :| 0 <= j < |docs| && docs[j] == found.value;
      assert i == j;
    }
  }

  // ---------------------------------------------------------------------
  // The dashboard body

  /** The user fields the dashboard echoes. */
  datatype UserInfo = UserInfo(name: string, phoneNumber: string, totalCalls: nat, totalCallDuration: int, level: string)

  datatype Stats = Stats(totalSessions: nat, totalMistakes: nat, avgSessionDuration: int, currentWeekSessions: nat)

  datatype DashboardView = DashboardView(
    user: UserInfo, stats: Stats, recentSessions: seq<SessionSummary>,
    commonMistakes: seq<CommonMistake>, weeklyProgress: seq<WeekBucket>)

  /** `GET /`: the caller's dashboard. The current-week count never exceeds the
      number of sessions, and both lists hold at most ten entries. */
  function DashboardOf(docs: seq<SessionDoc>, userId: UserId, user: UserInfo, now: Timestamp,
                       weekOf: Timestamp -> WeekKey): (v: DashboardView)
    ensures v.stats.currentWeekSessions <= v.stats.totalSessions
    ensures |v.recentSessions| <= 10 && |v.commonMistakes| <= 10
  {
    var wp := WeeklyProgress(docs, userId, now, weekOf);
    WeeklyProgressSpec(docs, userId, now, weekOf);
    LastAtMostSum(wp);
    RecentSessionsSpec(docs, userId);
    CommonMistakesSpec(docs, userId);
    DashboardView(
      user,
      Stats(TotalSessions(docs, userId), TotalMistakes(docs, userId),
            AverageDuration(user.totalCallDuration, user.totalCalls), CurrentWeekSessions(wp)),
      RecentSessions(docs, userId),
      CommonMistakes(docs, userId),
      wp)
  }

  lemma {:induction false} LastAtMostSum(bs: seq<WeekBucket>)
    ensures CurrentWeekSessions(bs) <= SessionsIn(bs)
  {
    if |bs| > 1 {
      LastAtMostSum(bs[1..]);
      assert bs[1..][|bs| - 2] == bs[|bs| - 1];
    }
  }
}
