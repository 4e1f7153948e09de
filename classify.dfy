/**
 * The challenges page (`challenges_page`, app/routes/challenges.py): build the
 * submission cache once per distinct user, annotate every challenge the viewer
 * takes part in with time left, progress and the participant breakdown, and
 * file it into exactly one of four buckets.
 */
module Classify {
  import opened Wrappers
  import opened Judge
  import opened ChallengeData
  import opened Progress

  const SECONDS_PER_DAY: int := 86400
  const SECONDS_PER_HOUR: int := 3600
  /** How many recent submissions the page asks for per user. */
  const SUBMISSION_LIMIT: nat := 50

  /*** Time left ***/

  datatype TimeLeft = Expired | Left(days: nat, hours: nat)

  /** `expires_at and expires_at < now`: an absent expiry never expires. */
  predicate IsExpired(expiresAt: Option<Instant>, now: Instant) {
    expiresAt.Some? && expiresAt.value < now
  }

  /**
   * What `time_left` is set to: nothing without an expiry, "Expired" once the
   * instant has passed, otherwise whole days and the whole hours of the rest.
   */
  function TimeLeftOf(expiresAt: Option<Instant>, now: Instant): (t: Option<TimeLeft>)
    ensures t.None? <==> expiresAt.None?
    ensures t == Some(Expired) <==> IsExpired(expiresAt, now)
    ensures t.Some? && t.value.Left? ==>
              t.value.hours < 24
              && t.value.days * SECONDS_PER_DAY + t.value.hours * SECONDS_PER_HOUR <= expiresAt.value - now
              && expiresAt.value - now < t.value.days * SECONDS_PER_DAY + (t.value.hours + 1) * SECONDS_PER_HOUR
  {
    match expiresAt
    case None => None
    case Some(e) =>
      if e < now then Some(Expired)
      else
        var secs := e - now;
        var days, rem := secs / SECONDS_PER_DAY, secs % SECONDS_PER_DAY;
        var hours := rem / SECONDS_PER_HOUR;
        assert secs == days * SECONDS_PER_DAY + rem;
        assert rem == hours * SECONDS_PER_HOUR + rem % SECONDS_PER_HOUR;
        Some(Left(days, hours))
  }

  function DigitChar(d: nat): (c: char)
    requires d < 10
    ensures '0' <= c <= '9' && c as int - '0' as int == d
  {
    ('0' as int + d) as char
  }

  predicate IsDigits(s: string) {
    forall i :: 0 <= i < |s| ==> '0' <= s[i] <= '9'
  }

  /** The number a string of decimal digits denotes, read most significant digit first. */
  function DecimalValue(s: string): nat
    requires IsDigits(s)
    decreases |s|
  {
    if s == [] then 0 else DecimalValue(s[..|s| - 1]) * 10 + (s[|s| - 1] as int - '0' as int)
  }

  /** Decimal rendering of a natural number, as `f"{n}"` prints it: its digits, without leading zeros. */
  function NatToString(n: nat): (s: string)
    ensures |s| >= 1 && IsDigits(s)
    ensures DecimalValue(s) == n
    ensures |s| > 1 ==> s[0] != '0'
    decreases n
  {
    if n < 10 then [DigitChar(n)]
    else
      var prefix := NatToString(n / 10);
      var s := prefix + [DigitChar(n % 10)];
      assert s[..|s| - 1] == prefix;
      s
  }

  /**
   * The text stored in `time_left`. It reads "Expired" exactly for an expired
   * challenge, so the page can tell the two apart.
   */
  function Label(t: TimeLeft): (l: string)
    ensures l == "Expired" <==> t == Expired
  {
    match t
    case Expired => "Expired"
    case Left(d, h) =>
      var l := NatToString(d) + "d " + NatToString(h) + "h left";
      assert l[|l| - 1] == 't' && "Expired"[6] == 'd';
      l
  }

  /**
   * A running challenge's label reads back: it is a run of digits denoting the
   * days, "d ", a run of digits denoting the hours, and "h left".
   */
  lemma LabelReadsBack(days: nat, hours: nat)
    ensures exists ds, hs ::
              && Label(Left(days, hours)) == ds + "d " + hs + "h left"
              && |ds| >= 1 && IsDigits(ds) && DecimalValue(ds) == days
              && |hs| >= 1 && IsDigits(hs) && DecimalValue(hs) == hours
              && (|ds| > 1 ==> ds[0] != '0') && (|hs| > 1 ==> hs[0] != '0')
  {
    var ds, hs := NatToString(days), NatToString(hours);
    assert Label(Left(days, hours)) == ds + "d " + hs + "h left";
  }

  /*** Submission cache ***/

  type SubmissionsCache = map<string, seq<Submission>>

  /** `submissions_cache.get(name, [])` */
  function CacheGet(cache: SubmissionsCache, name: string): seq<Submission> {
    if name in cache then cache[name] else []
  }

  /** The progress of one user on one challenge, from the cache. */
  function UserProgress(cache: SubmissionsCache, name: string, problems: seq<Problem>): nat {
    ProgressOf(Some(CacheGet(cache, name)), problems)
  }

  /*** Participant breakdown ***/

  /** The three participant lists plus the accepted names, in participant order. */
  datatype Breakdown = Breakdown(
    completed: seq<string>,
    inProgress: seq<string>,
    invited: seq<string>,
    accepted: seq<string>)

  predicate Finished(cache: SubmissionsCache, name: string, problems: seq<Problem>) {
    UserProgress(cache, name, problems) >= |problems|
  }

  /** Specification of the participant loop: processes the entries from the front. */
  function BreakdownOf(ps: Participants, problems: seq<Problem>, cache: SubmissionsCache): Breakdown
    decreases |ps|
  {
    if ps == [] then Breakdown([], [], [], [])
    else
      var b := BreakdownOf(ps[..|ps| - 1], problems, cache);
      var p := ps[|ps| - 1];
      if p.status == ACCEPTED then
        if Finished(cache, p.name, problems) then
          b.(completed := b.completed + [p.name], accepted := b.accepted + [p.name])
        else
          b.(inProgress := b.inProgress + [p.name], accepted := b.accepted + [p.name])
      else if p.status == INVITED then
        b.(invited := b.invited + [p.name])
      else b
  }

  function AcceptedPositions(ps: Participants): set<nat> {
    set i: nat | i < |ps| && ps[i].status == ACCEPTED
  }

  lemma AcceptedPositionsSnoc(ps: Participants)
    requires ps != []
    ensures var n := |ps| - 1;
            AcceptedPositions(ps) == AcceptedPositions(ps[..n]) + (if ps[n].status == ACCEPTED then {n} else {})
  {
    var n := |ps| - 1;
    forall i: nat ensures i in AcceptedPositions(ps) <==>
                          i in AcceptedPositions(ps[..n]) + (if ps[n].status == ACCEPTED then {n} else {}) {
      if i < n {
        assert ps[..n][i] == ps[i];
      }
    }
  }

  /**
   * Every accepted participant lands in exactly one of completed and in-progress,
   * and the accepted names are one per accepted entry.
   */
  lemma {:induction false} BreakdownCounts(ps: Participants, problems: seq<Problem>, cache: SubmissionsCache)
    ensures var b := BreakdownOf(ps, problems, cache);
            |b.completed| + |b.inProgress| == |b.accepted| == |AcceptedPositions(ps)|
    decreases |ps|
  {
    if ps != [] {
      var n := |ps| - 1;
      BreakdownCounts(ps[..n], problems, cache);
      AcceptedPositionsSnoc(ps);
      assert n !in AcceptedPositions(ps[..n]);
    }
  }

  /** Which names the accepted and invited lists hold: one per entry with that status. */
  lemma {:induction false} BreakdownByStatus(ps: Participants, problems: seq<Problem>, cache: SubmissionsCache, name: string)
    ensures var b := BreakdownOf(ps, problems, cache);
            && (name in b.accepted <==> exists i :: 0 <= i < |ps| && ps[i].name == name && ps[i].status == ACCEPTED)
            && (name in b.invited <==> exists i :: 0 <= i < |ps| && ps[i].name == name && ps[i].status == INVITED)
    decreases |ps|
  {
    if ps != [] {
      var n := |ps| - 1;
      BreakdownByStatus(ps[..n], problems, cache, name);
      forall i | 0 <= i < n ensures ps[..n][i] == ps[i] { }
    }
  }

  /** Which names the completed and in-progress lists hold: accepted entries, split by whether they finished. */
  lemma {:induction false} BreakdownByProgress(ps: Participants, problems: seq<Problem>, cache: SubmissionsCache, name: string)
    ensures var b := BreakdownOf(ps, problems, cache);
            && (name in b.completed <==> exists i :: 0 <= i < |ps| && ps[i].name == name && ps[i].status == ACCEPTED
                                                    && Finished(cache, name, problems))
            && (name in b.inProgress <==> exists i :: 0 <= i < |ps| && ps[i].name == name && ps[i].status == ACCEPTED
                                                     && !Finished(cache, name, problems))
    decreases |ps|
  {
    if ps != [] {
      var n := |ps| - 1;
      BreakdownByProgress(ps[..n], problems, cache, name);
      forall i | 0 <= i < n ensures ps[..n][i] == ps[i] { }
    }
  }

  /** With no problems every accepted participant counts as completed and nobody is in progress. */
  lemma {:induction false} BreakdownNoProblems(ps: Participants, cache: SubmissionsCache)
    ensures BreakdownOf(ps, [], cache).inProgress == []
    ensures BreakdownOf(ps, [], cache).completed == BreakdownOf(ps, [], cache).accepted
    decreases |ps|
  {
    if ps != [] {
      BreakdownNoProblems(ps[..|ps| - 1], cache);
    }
  }

  /** `challenge_has_enough_players` */
  predicate HasEnoughPlayers(b: Breakdown) {
    |b.accepted| >= 2
  }

  /** `is_fully_completed` */
  predicate IsFullyCompleted(b: Breakdown) {
    |b.accepted| > 0 && b.inProgress == [] && b.invited == []
  }

  /**
   * A challenge is fully completed exactly when someone accepted, every accepted
   * participant has solved every problem, and no invitation is outstanding.
   */
  lemma FullyCompletedMeaning(ps: Participants, problems: seq<Problem>, cache: SubmissionsCache)
    ensures IsFullyCompleted(BreakdownOf(ps, problems, cache)) <==>
            && (exists i :: 0 <= i < |ps| && ps[i].status == ACCEPTED)
            && (forall i :: 0 <= i < |ps| && ps[i].status == ACCEPTED ==> Finished(cache, ps[i].name, problems))
            && (forall i :: 0 <= i < |ps| ==> ps[i].status != INVITED)
  {
    var b := BreakdownOf(ps, problems, cache);
    BreakdownCounts(ps, problems, cache);
    if exists i :: 0 <= i < |ps| && ps[i].status == ACCEPTED {
      var i :| 0 <= i < |ps| && ps[i].status == ACCEPTED;
      assert i in AcceptedPositions(ps);
    }
    if |b.accepted| > 0 {
      BreakdownByStatus(ps, problems, cache, b.accepted[0]);
    }
    if b.inProgress != [] {
      BreakdownByProgress(ps, problems, cache, b.inProgress[0]);
    }
    if b.invited != [] {
      BreakdownByStatus(ps, problems, cache, b.invited[0]);
    }
    forall i | 0 <= i < |ps|
      ensures b.inProgress == [] && ps[i].status == ACCEPTED ==> Finished(cache, ps[i].name, problems)
      ensures b.invited == [] ==> ps[i].status != INVITED
    {
      BreakdownByStatus(ps, problems, cache, ps[i].name);
      BreakdownByProgress(ps, problems, cache, ps[i].name);
    }
  }

  /*** Buckets ***/

  datatype Bucket = Invitations | Pending | Ongoing | CompletedExpired

  /** The first-match chain of `if`/`elif`/`else` that files a challenge. */
  function BucketOf(userStatus: string, expired: bool, enoughPlayers: bool, fullyCompleted: bool): (b: Bucket)
    ensures b == Invitations <==> userStatus == INVITED && !expired
    ensures b == Pending <==> userStatus == ACCEPTED && !expired && !enoughPlayers
    ensures b == Ongoing <==> userStatus == ACCEPTED && !expired && enoughPlayers && !fullyCompleted
    ensures b == CompletedExpired <==>
              expired || (userStatus != INVITED && userStatus != ACCEPTED)
              || (userStatus == ACCEPTED && enoughPlayers && fullyCompleted)
  {
    if userStatus == INVITED && !expired then Invitations
    else if userStatus == ACCEPTED && !expired && !enoughPlayers then Pending
    else if userStatus == ACCEPTED && !expired && !fullyCompleted then Ongoing
    else CompletedExpired
  }

  /*** One challenge ***/

  /** The keys `challenges_page` adds to a challenge document. */
  datatype Annotation = Annotation(
    userStatus: string,
    timeLeft: Option<string>,
    progress: nat,
    totalProblems: nat,
    progressPercent: real,
    isCompletedByUser: bool,
    participantsCompleted: seq<string>,
    participantsInProgress: seq<string>,
    participantsInvited: seq<string>,
    isFullyCompleted: bool)

  /** `solved_count / total_count * 100`, and 0 without problems. */
  function Percent(solved: nat, total: nat): (p: real)
    ensures total == 0 ==> p == 0.0
    ensures solved <= total ==> 0.0 <= p <= 100.0
    ensures total > 0 ==> (p == 100.0 <==> solved == total)
  {
    if total > 0 then (solved as real) / (total as real) * 100.0 else 0.0
  }

  function ViewerStatus(c: Challenge, viewer: string): string {
    StatusOf(c.participants, viewer)
  }

  /** What `time_left` holds after the expiry step; `previous` is kept when there is no expiry. */
  function TimeLeftText(expiresAt: Option<Instant>, now: Instant, previous: Option<string>): Option<string> {
    var t := TimeLeftOf(expiresAt, now);
    if t.Some? then Some(Label(t.value)) else previous
  }

  /** The annotation of a challenge the viewer takes part in; `previous` is the old `time_left`, kept when there is no expiry. */
  function Annotate(viewer: string, c: Challenge, now: Instant, cache: SubmissionsCache, previous: Option<string>): Annotation {
    var solved := UserProgress(cache, viewer, c.problems);
    var total := |c.problems|;
    var b := BreakdownOf(c.participants, c.problems, cache);
    Annotation(
      ViewerStatus(c, viewer),
      TimeLeftText(c.expiresAt, now, previous),
      solved,
      total,
      Percent(solved, total),
      if total > 0 then solved >= total else false,
      b.completed, b.inProgress, b.invited,
      IsFullyCompleted(b))
  }

  function ChallengeBucket(viewer: string, c: Challenge, now: Instant, cache: SubmissionsCache): Bucket {
    var b := BreakdownOf(c.participants, c.problems, cache);
    BucketOf(ViewerStatus(c, viewer), IsExpired(c.expiresAt, now), HasEnoughPlayers(b), IsFullyCompleted(b))
  }

  /** The viewer counts as having completed a challenge exactly when it has problems and the viewer solved all of them. */
  lemma ViewerCompletedMeaning(viewer: string, c: Challenge, now: Instant, cache: SubmissionsCache, previous: Option<string>)
    ensures var a := Annotate(viewer, c, now, cache, previous);
            && a.progress <= a.totalProblems
            && 0.0 <= a.progressPercent <= 100.0
            && (a.isCompletedByUser <==>
                |c.problems| > 0
                && forall i :: 0 <= i < |c.problems| ==> SolvedBy(c.problems[i], AcceptedSlugs(CacheGet(cache, viewer))))
  {
    var slugs := AcceptedSlugs(CacheGet(cache, viewer));
    SolvedCountBounded(c.problems, slugs);
    SolvedCountFull(c.problems, slugs);
  }

  /** The time-left label says "Expired" exactly when the challenge is expired. */
  lemma AnnotatedExpiry(viewer: string, c: Challenge, now: Instant, cache: SubmissionsCache, previous: Option<string>)
    requires c.expiresAt.Some?
    ensures Annotate(viewer, c, now, cache, previous).timeLeft == Some("Expired") <==> IsExpired(c.expiresAt, now)
  {
  }

  /**
   * An accepted, unexpired challenge with at most one accepted entry is pending,
   * whatever anyone's progress.
   */
  lemma LoneAcceptedIsPending(viewer: string, c: Challenge, now: Instant, cache: SubmissionsCache)
    requires ViewerStatus(c, viewer) == ACCEPTED
    requires !IsExpired(c.expiresAt, now)
    requires forall i, j :: (0 <= i < |c.participants| && 0 <= j < |c.participants|
                           && c.participants[i].status == ACCEPTED && c.participants[j].status == ACCEPTED) ==> i == j
    ensures ChallengeBucket(viewer, c, now, cache) == Pending
  {
    var ps := c.participants;
    BreakdownCounts(ps, c.problems, cache);
    var pos := AcceptedPositions(ps);
    if pos != {} {
      var i :| i in pos;
      assert pos <= {i};
      CardSubset(pos, {i});
    }
  }

  lemma CardSubset<T>(a: set<T>, b: set<T>)
    requires a <= b
    ensures |a| <= |b|
    decreases a
  {
    if a != {} {
      var x :| x in a;
      CardSubset(a - {x}, b - {x});
    }
  }

  /**
   * Two or more accepted participants who have all solved every problem, with no
   * invitation outstanding: the challenge is fully completed and leaves the active buckets.
   */
  lemma AllFinishedIsCompleted(viewer: string, c: Challenge, now: Instant, cache: SubmissionsCache)
    requires ViewerStatus(c, viewer) == ACCEPTED
    requires exists i, j :: 0 <= i < j < |c.participants|
                           && c.participants[i].status == ACCEPTED && c.participants[j].status == ACCEPTED
    requires forall i :: 0 <= i < |c.participants| && c.participants[i].status == ACCEPTED ==>
                           Finished(cache, c.participants[i].name, c.problems)
    requires forall i :: 0 <= i < |c.participants| ==> c.participants[i].status != INVITED
    ensures IsFullyCompleted(BreakdownOf(c.participants, c.problems, cache))
    ensures ChallengeBucket(viewer, c, now, cache) == CompletedExpired
  {
    var ps := c.participants;
    var b := BreakdownOf(ps, c.problems, cache);
    FullyCompletedMeaning(ps, c.problems, cache);
    var i, j :| 0 <= i < j < |ps| && ps[i].status == ACCEPTED && ps[j].status == ACCEPTED;
    TwoAcceptedAreEnough(ps, c.problems, cache, i, j);
    assert ChallengeBucket(viewer, c, now, cache) == BucketOf(ACCEPTED, IsExpired(c.expiresAt, now), true, true);
  }

  /** Two accepted entries make enough players. */
  lemma TwoAcceptedAreEnough(ps: Participants, problems: seq<Problem>, cache: SubmissionsCache, i: nat, j: nat)
    requires i < j < |ps| && ps[i].status == ACCEPTED && ps[j].status == ACCEPTED
    ensures HasEnoughPlayers(BreakdownOf(ps, problems, cache))
  {
    BreakdownCounts(ps, problems, cache);
    assert {i, j} <= AcceptedPositions(ps);
    assert |{i, j}| == 2;
    CardSubset({i, j}, AcceptedPositions(ps));
  }

  /*** The challenge documents, annotated in place ***/

  /** A challenge document as a mutable dictionary: stored fields plus the keys the page adds. */
  class ChallengeDoc {
    const data: Challenge
    var userStatus: string
    var timeLeft: Option<string>
    var progress: nat
    var totalProblems: nat
    var progressPercent: real
    var isCompletedByUser: bool
    var participantsCompleted: seq<string>
    var participantsInProgress: seq<string>
    var participantsInvited: seq<string>
    var isFullyCompleted: bool

    /** A document as the store returns it, before any key is added. */
    constructor (data: Challenge)
      ensures this.data == data
      ensures Current() == Annotation(NO_STATUS, None, 0, 0, 0.0, false, [], [], [], false)
    {
      this.data := data;
      userStatus := NO_STATUS;
      timeLeft := None;
      progress, totalProblems, progressPercent, isCompletedByUser := 0, 0, 0.0, false;
      participantsCompleted, participantsInProgress, participantsInvited := [], [], [];
      isFullyCompleted := false;
    }

    function Current(): Annotation
      reads this
    {
      Annotation(userStatus, timeLeft, progress, totalProblems, progressPercent, isCompletedByUser,
                 participantsCompleted, participantsInProgress, participantsInvited, isFullyCompleted)
    }
  }

  /** A query returns a fresh document object per stored challenge. */
  predicate DistinctDocs(docs: seq<ChallengeDoc>) {
    forall i, j :: 0 <= i < j < |docs| ==> docs[i] != docs[j]
  }

  /** Whether the loop skips a challenge: the viewer has no status in it. */
  predicate Skipped(c: Challenge, viewer: string) {
    ViewerStatus(c, viewer) == NO_STATUS
  }

  /** Where a document goes: None when it is skipped, otherwise its bucket. */
  function DocBucket(viewer: string, now: Instant, cache: SubmissionsCache, d: ChallengeDoc): Option<Bucket> {
    if Skipped(d.data, viewer) then None else Some(ChallengeBucket(viewer, d.data, now, cache))
  }

  /** The documents tagged with bucket `b`, in list order. */
  function Select(docs: seq<ChallengeDoc>, tag: ChallengeDoc -> Option<Bucket>, b: Bucket): seq<ChallengeDoc>
    decreases |docs|
  {
    if docs == [] then []
    else
      var n := |docs| - 1;
      Select(docs[..n], tag, b) + (if tag(docs[n]) == Some(b) then [docs[n]] else [])
  }

  /** The documents filed into bucket `b`, in the order of the input list. */
  function Picked(docs: seq<ChallengeDoc>, viewer: string, now: Instant, cache: SubmissionsCache, b: Bucket): seq<ChallengeDoc> {
    Select(docs, (d: ChallengeDoc) => DocBucket(viewer, now, cache, d), b)
  }

  function TaggedPositions(docs: seq<ChallengeDoc>, tag: ChallengeDoc -> Option<Bucket>): set<nat> {
    set i: nat | i < |docs| && tag(docs[i]).Some?
  }

  /** The positions of the documents tagged with bucket `b`. */
  function PositionsOf(docs: seq<ChallengeDoc>, tag: ChallengeDoc -> Option<Bucket>, b: Bucket): set<nat> {
    set i: nat | i < |docs| && tag(docs[i]) == Some(b)
  }

  /** Selecting from a list extended by one document extends each selection by at most that document. */
  lemma SelectSnoc(docs: seq<ChallengeDoc>, d: ChallengeDoc, tag: ChallengeDoc -> Option<Bucket>, b: Bucket)
    ensures Select(docs + [d], tag, b) == Select(docs, tag, b) + (if tag(d) == Some(b) then [d] else [])
  {
    assert (docs + [d])[..|docs|] == docs;
  }

  lemma PositionsOfSnoc(docs: seq<ChallengeDoc>, tag: ChallengeDoc -> Option<Bucket>, b: Bucket)
    requires docs != []
    ensures var n := |docs| - 1;
            PositionsOf(docs, tag, b) == PositionsOf(docs[..n], tag, b) + (if tag(docs[n]) == Some(b) then {n} else {})
  {
    var n := |docs| - 1;
    forall i: nat ensures i in PositionsOf(docs, tag, b) <==>
                          i in PositionsOf(docs[..n], tag, b) + (if tag(docs[n]) == Some(b) then {n} else {}) {
      if i < n {
        assert docs[..n][i] == docs[i];
      }
    }
  }

  /** A selection holds one entry per position tagged with its bucket. */
  lemma {:induction false} SelectSize(docs: seq<ChallengeDoc>, tag: ChallengeDoc -> Option<Bucket>, b: Bucket)
    ensures |Select(docs, tag, b)| == |PositionsOf(docs, tag, b)|
    decreases |docs|
  {
    if docs != [] {
      var n := |docs| - 1;
      SelectSize(docs[..n], tag, b);
      PositionsOfSnoc(docs, tag, b);
      assert n !in PositionsOf(docs[..n], tag, b);
    }
  }

  /** The four selections together hold one entry per tagged document. */
  lemma SelectCount(docs: seq<ChallengeDoc>, tag: ChallengeDoc -> Option<Bucket>)
    ensures |Select(docs, tag, Invitations)| + |Select(docs, tag, Pending)|
            + |Select(docs, tag, Ongoing)| + |Select(docs, tag, CompletedExpired)|
            == |TaggedPositions(docs, tag)|
  {
    SelectSize(docs, tag, Invitations);
    SelectSize(docs, tag, Pending);
    SelectSize(docs, tag, Ongoing);
    SelectSize(docs, tag, CompletedExpired);
    var a, p, o, c := PositionsOf(docs, tag, Invitations), PositionsOf(docs, tag, Pending),
                      PositionsOf(docs, tag, Ongoing), PositionsOf(docs, tag, CompletedExpired);
    forall i | i in TaggedPositions(docs, tag) ensures i in a + p + o + c {
      match tag(docs[i]).value
      case Invitations => assert i in a;
      case Pending => assert i in p;
      case Ongoing => assert i in o;
      case CompletedExpired => assert i in c;
    }
    assert TaggedPositions(docs, tag) == a + p + o + c;
    assert a !! p && (a + p) !! o && (a + p + o) !! c;
  }

  /** A document is selected for `b` exactly when it is in the list and tagged `b`. */
  lemma {:induction false} SelectMembership(docs: seq<ChallengeDoc>, tag: ChallengeDoc -> Option<Bucket>, d: ChallengeDoc, b: Bucket)
    ensures d in Select(docs, tag, b) <==> d in docs && tag(d) == Some(b)
    decreases |docs|
  {
    if docs != [] {
      var n := |docs| - 1;
      SelectMembership(docs[..n], tag, d, b);
      assert docs == docs[..n] + [docs[n]];
    }
  }

  function KeptPositions(docs: seq<ChallengeDoc>, viewer: string): set<nat> {
    set i: nat | i < |docs| && !Skipped(docs[i].data, viewer)
  }

  /** The four buckets together hold exactly one entry per challenge that is not skipped. */
  lemma PickedCount(docs: seq<ChallengeDoc>, viewer: string, now: Instant, cache: SubmissionsCache)
    ensures |Picked(docs, viewer, now, cache, Invitations)| + |Picked(docs, viewer, now, cache, Pending)|
            + |Picked(docs, viewer, now, cache, Ongoing)| + |Picked(docs, viewer, now, cache, CompletedExpired)|
            == |KeptPositions(docs, viewer)|
  {
    var tag := (d: ChallengeDoc) => DocBucket(viewer, now, cache, d);
    SelectCount(docs, tag);
    assert TaggedPositions(docs, tag) == KeptPositions(docs, viewer);
  }

  /** A document is in bucket `b` exactly when it is in the list, is not skipped, and `b` is its bucket. */
  lemma PickedMembership(docs: seq<ChallengeDoc>, viewer: string, now: Instant, cache: SubmissionsCache,
                         d: ChallengeDoc, b: Bucket)
    ensures d in Picked(docs, viewer, now, cache, b) <==>
            d in docs && !Skipped(d.data, viewer) && ChallengeBucket(viewer, d.data, now, cache) == b
  {
    SelectMembership(docs, (d: ChallengeDoc) => DocBucket(viewer, now, cache, d), d, b);
  }

  /** An expired challenge is never an invitation, pending or ongoing; a skipped one is in no bucket. */
  lemma ExpiredOnlyInCompleted(docs: seq<ChallengeDoc>, viewer: string, now: Instant, cache: SubmissionsCache, d: ChallengeDoc, b: Bucket)
    requires d in Picked(docs, viewer, now, cache, b)
    ensures !Skipped(d.data, viewer)
    ensures IsExpired(d.data.expiresAt, now) ==> b == CompletedExpired
  {
    PickedMembership(docs, viewer, now, cache, d, b);
  }

  /** The per-participant loop of the page. */
  method SplitParticipants(participants: Participants, problems: seq<Problem>, cache: SubmissionsCache)
    returns (completed: seq<string>, inProgress: seq<string>, invited: seq<string>, acceptedNames: seq<string>)
    ensures Breakdown(completed, inProgress, invited, acceptedNames) == BreakdownOf(participants, problems, cache)
  {
    completed, inProgress, invited, acceptedNames := [], [], [], [];
    var totalCount := |problems|;
    for i := 0 to |participants|
      invariant Breakdown(completed, inProgress, invited, acceptedNames) == BreakdownOf(participants[..i], problems, cache)
    {
      assert participants[..i + 1][..i] == participants[..i];
      var name, status := participants[i].name, participants[i].status;
      if status == ACCEPTED {
        acceptedNames := acceptedNames + [name];
        var pProgress := CalculateProgress(Some(CacheGet(cache, name)), problems);
        if pProgress >= totalCount {
          completed := completed + [name];
        } else {
          inProgress := inProgress + [name];
        }
      } else if status == INVITED {
        invited := invited + [name];
      }
    }
    assert participants[..|participants|] == participants;
  }

  /** The expiry step of the page loop: sets `time_left` unless the challenge has no expiry. */
  method SetTimeLeft(d: ChallengeDoc, now: Instant) returns (isExpired: bool)
    modifies d`timeLeft
    ensures isExpired == IsExpired(d.data.expiresAt, now)
    ensures d.timeLeft == TimeLeftText(d.data.expiresAt, now, old(d.timeLeft))
  {
    var expiresAt := d.data.expiresAt;
    isExpired := false;
    if expiresAt.Some? && expiresAt.value < now {
      isExpired := true;
      d.timeLeft := Some("Expired");
    } else if expiresAt.Some? {
      var secs := expiresAt.value - now;
      var days, rem := secs / SECONDS_PER_DAY, secs % SECONDS_PER_DAY;
      var hours := rem / SECONDS_PER_HOUR;
      assert TimeLeftOf(expiresAt, now) == Some(Left(days, hours));
      d.timeLeft := Some(Label(Left(days, hours)));
    }
  }

  /** The progress step of the page loop: the viewer's solved count, the total, the percentage and the completion flag. */
  method SetProgress(d: ChallengeDoc, viewer: string, cache: SubmissionsCache)
    modifies d`progress, d`totalProblems, d`progressPercent, d`isCompletedByUser
    ensures d.progress == UserProgress(cache, viewer, d.data.problems)
    ensures d.totalProblems == |d.data.problems|
    ensures d.progressPercent == Percent(d.progress, d.totalProblems)
    ensures d.isCompletedByUser == (d.totalProblems > 0 && d.progress >= d.totalProblems)
  {
    var totalCount := |d.data.problems|;
    var solvedCount := CalculateProgress(Some(CacheGet(cache, viewer)), d.data.problems);
    d.progress := solvedCount;
    d.totalProblems := totalCount;
    d.progressPercent := if totalCount > 0 then (solvedCount as real) / (totalCount as real) * 100.0 else 0.0;
    d.isCompletedByUser := if totalCount > 0 then solvedCount >= totalCount else false;
  }

  /** The participant step of the page loop: the three lists and the two flags derived from them. */
  method SetParticipants(d: ChallengeDoc, cache: SubmissionsCache) returns (hasEnoughPlayers: bool)
    modifies d`participantsCompleted, d`participantsInProgress, d`participantsInvited, d`isFullyCompleted
    ensures var b := BreakdownOf(d.data.participants, d.data.problems, cache);
            && d.participantsCompleted == b.completed
            && d.participantsInProgress == b.inProgress
            && d.participantsInvited == b.invited
            && d.isFullyCompleted == IsFullyCompleted(b)
            && hasEnoughPlayers == HasEnoughPlayers(b)
  {
    var completed, inProgress, invited, acceptedNames := SplitParticipants(d.data.participants, d.data.problems, cache);
    d.participantsCompleted := completed;
    d.participantsInProgress := inProgress;
    d.participantsInvited := invited;
    hasEnoughPlayers := |acceptedNames| >= 2;
    d.isFullyCompleted := |acceptedNames| > 0 && inProgress == [] && invited == [];
  }

  /** The body of the page loop for one challenge; None when the challenge is skipped. */
  method AnnotateChallenge(d: ChallengeDoc, viewer: string, now: Instant, cache: SubmissionsCache)
    returns (bucket: Option<Bucket>)
    modifies d
    ensures bucket == DocBucket(viewer, now, cache, d)
    ensures Skipped(d.data, viewer) ==> unchanged(d)
    ensures !Skipped(d.data, viewer) ==> d.Current() == Annotate(viewer, d.data, now, cache, old(d.timeLeft))
  {
    var userStatus := StatusOf(d.data.participants, viewer);
    if userStatus == NO_STATUS {
      return None;
    }
    d.userStatus := userStatus;
    var isExpired := SetTimeLeft(d, now);
    SetProgress(d, viewer, cache);
    var hasEnoughPlayers := SetParticipants(d, cache);
    bucket := Some(BucketOf(userStatus, isExpired, hasEnoughPlayers, d.isFullyCompleted));
  }

  datatype Filed = Filed(invitations: seq<ChallengeDoc>, pending: seq<ChallengeDoc>, ongoing: seq<ChallengeDoc>, completedExpired: seq<ChallengeDoc>)

  function FiledOf(docs: seq<ChallengeDoc>, tag: ChallengeDoc -> Option<Bucket>): Filed {
    Filed(Select(docs, tag, Invitations), Select(docs, tag, Pending), Select(docs, tag, Ongoing), Select(docs, tag, CompletedExpired))
  }

  lemma FiledSnoc(docs: seq<ChallengeDoc>, d: ChallengeDoc, tag: ChallengeDoc -> Option<Bucket>)
    ensures var f := FiledOf(docs, tag);
            FiledOf(docs + [d], tag) == Filed(f.invitations + (if tag(d) == Some(Invitations) then [d] else []),
                                              f.pending + (if tag(d) == Some(Pending) then [d] else []),
                                              f.ongoing + (if tag(d) == Some(Ongoing) then [d] else []),
                                              f.completedExpired + (if tag(d) == Some(CompletedExpired) then [d] else []))
  {
    SelectSnoc(docs, d, tag, Invitations);
    SelectSnoc(docs, d, tag, Pending);
    SelectSnoc(docs, d, tag, Ongoing);
    SelectSnoc(docs, d, tag, CompletedExpired);
  }

  /** Appends a document to the list of its bucket, if it has one. */
  method FileInto(d: ChallengeDoc, bucket: Option<Bucket>,
                  invitations: seq<ChallengeDoc>, pending: seq<ChallengeDoc>, ongoing: seq<ChallengeDoc>, completedExpired: seq<ChallengeDoc>)
    returns (invitations': seq<ChallengeDoc>, pending': seq<ChallengeDoc>, ongoing': seq<ChallengeDoc>, completedExpired': seq<ChallengeDoc>)
    ensures invitations' == invitations + (if bucket == Some(Invitations) then [d] else [])
    ensures pending' == pending + (if bucket == Some(Pending) then [d] else [])
    ensures ongoing' == ongoing + (if bucket == Some(Ongoing) then [d] else [])
    ensures completedExpired' == completedExpired + (if bucket == Some(CompletedExpired) then [d] else [])
  {
    invitations', pending', ongoing', completedExpired' := invitations, pending, ongoing, completedExpired;
    match bucket {
      case None =>
      case Some(Invitations) => invitations' := invitations + [d];
      case Some(Pending) => pending' := pending + [d];
      case Some(Ongoing) => ongoing' := ongoing + [d];
      case Some(CompletedExpired) => completedExpired' := completedExpired + [d];
    }
  }

  /**
   * The classification loop: every document the viewer takes part in is
   * annotated and appended to its bucket; the others are left untouched.
   */
  method ClassifyChallenges(viewer: string, allChallenges: seq<ChallengeDoc>, now: Instant, cache: SubmissionsCache)
    returns (invitations: seq<ChallengeDoc>, pending: seq<ChallengeDoc>, ongoing: seq<ChallengeDoc>, completedExpired: seq<ChallengeDoc>)
    requires DistinctDocs(allChallenges)
    modifies set d | d in allChallenges
    ensures invitations == Picked(allChallenges, viewer, now, cache, Invitations)
    ensures pending == Picked(allChallenges, viewer, now, cache, Pending)
    ensures ongoing == Picked(allChallenges, viewer, now, cache, Ongoing)
    ensures completedExpired == Picked(allChallenges, viewer, now, cache, CompletedExpired)
    ensures forall d :: d in allChallenges && Skipped(d.data, viewer) ==> unchanged(d)
    ensures forall d :: d in allChallenges && !Skipped(d.data, viewer) ==>
              d.Current() == Annotate(viewer, d.data, now, cache, old(d.timeLeft))
  {
    invitations, pending, ongoing, completedExpired := [], [], [], [];
    ghost var tag := (d: ChallengeDoc) => DocBucket(viewer, now, cache, d);
    for i := 0 to |allChallenges|
      invariant Filed(invitations, pending, ongoing, completedExpired) == FiledOf(allChallenges[..i], tag)
      invariant forall j :: i <= j < |allChallenges| ==> unchanged(allChallenges[j])
      invariant forall j :: 0 <= j < i && Skipped(allChallenges[j].data, viewer) ==> unchanged(allChallenges[j])
      invariant forall j :: 0 <= j < i && !Skipped(allChallenges[j].data, viewer) ==>
                  allChallenges[j].Current() == Annotate(viewer, allChallenges[j].data, now, cache, old(allChallenges[j].timeLeft))
    {
      assert allChallenges[..i + 1] == allChallenges[..i] + [allChallenges[i]];
      var d := allChallenges[i];
      label before:
      var bucket := AnnotateChallenge(d, viewer, now, cache);
      assert forall j :: 0 <= j < |allChallenges| && j != i ==> unchanged@before(allChallenges[j]);
      assert bucket == tag(d);
      FiledSnoc(allChallenges[..i], d, tag);
      invitations, pending, ongoing, completedExpired := FileInto(d, bucket, invitations, pending, ongoing, completedExpired);
    }
    assert allChallenges[..|allChallenges|] == allChallenges;
    assert Filed(invitations, pending, ongoing, completedExpired) == FiledOf(allChallenges, tag);
    forall d | d in allChallenges ensures Skipped(d.data, viewer) ==> unchanged(d)
    ensures !Skipped(d.data, viewer) ==> d.Current() == Annotate(viewer, d.data, now, cache, old(d.timeLeft)) {
      var j :| 0 <= j < |allChallenges| && allChallenges[j] == d;
    }
  }

  /*** The cache, then the whole page ***/

  /** Every participant key of every challenge in the list. */
  function ParticipantNames(docs: seq<ChallengeDoc>): set<string>
    decreases |docs|
  {
    if docs == [] then {}
    else ParticipantNames(docs[..|docs| - 1]) + Names(docs[|docs| - 1].data.participants)
  }

  lemma NamesSnoc(ps: Participants, j: nat)
    requires j < |ps|
    ensures Names(ps[..j + 1]) == Names(ps[..j]) + {ps[j].name}
  {
    assert ps[..j + 1][j] == ps[j];
    forall n | n in Names(ps[..j + 1]) ensures n in Names(ps[..j]) + {ps[j].name} {
      var k :| 0 <= k < j + 1 && ps[..j + 1][k].name == n;
      if k < j { assert ps[..j][k] == ps[k]; }
    }
    forall n | n in Names(ps[..j]) ensures n in Names(ps[..j + 1]) {
      var k :| 0 <= k < j && ps[..j][k].name == n;
      assert ps[..j + 1][k] == ps[k];
    }
  }

  /** The set of the viewer and every participant key of every challenge. */
  method UniqueParticipants(viewer: string, allChallenges: seq<ChallengeDoc>) returns (unique: set<string>)
    ensures unique == {viewer} + ParticipantNames(allChallenges)
  {
    unique := {viewer};
    for i := 0 to |allChallenges|
      invariant unique == {viewer} + ParticipantNames(allChallenges[..i])
    {
      assert allChallenges[..i + 1][..i] == allChallenges[..i];
      var ps := allChallenges[i].data.participants;
      for j := 0 to |ps|
        invariant unique == {viewer} + ParticipantNames(allChallenges[..i]) + Names(ps[..j])
      {
        NamesSnoc(ps, j);
        unique := unique + {ps[j].name};
      }
      assert ps[..|ps|] == ps;
    }
    assert allChallenges[..|allChallenges|] == allChallenges;
  }

  /**
   * The submission cache: one entry, fetched once, per distinct user: the viewer
   * and every participant of every challenge, however many challenges they share.
   * `fetched` logs the users in the order they were fetched: each appears once.
   */
  method BuildCache(viewer: string, allChallenges: seq<ChallengeDoc>, fetch: SubmissionsFetch)
    returns (cache: SubmissionsCache, ghost fetched: seq<string>)
    ensures cache.Keys == {viewer} + ParticipantNames(allChallenges)
    ensures forall u :: u in cache ==> cache[u] == fetch(u, SUBMISSION_LIMIT)
    ensures forall u :: u in fetched <==> u in cache
    ensures forall i, j :: 0 <= i < j < |fetched| ==> fetched[i] != fetched[j]
  {
    var uniqueParticipants := UniqueParticipants(viewer, allChallenges);
    cache := map[];
    fetched := [];
    var remaining := uniqueParticipants;
    while remaining != {}
      invariant remaining <= uniqueParticipants
      invariant cache.Keys == uniqueParticipants - remaining
      invariant forall u :: u in cache ==> cache[u] == fetch(u, SUBMISSION_LIMIT)
      invariant forall u :: u in fetched <==> u in cache
      invariant forall i, j :: 0 <= i < j < |fetched| ==> fetched[i] != fetched[j]
      decreases |remaining|
    {
      var u :| u in remaining;
      cache := cache[u := fetch(u, SUBMISSION_LIMIT)];
      fetched := fetched + [u];
      remaining := remaining - {u};
    }
  }

  datatype Page =
    | RedirectHome
    | Buckets(invitations: seq<ChallengeDoc>, pending: seq<ChallengeDoc>, ongoing: seq<ChallengeDoc>, completedExpired: seq<ChallengeDoc>)

  /** The cache the page builds, as a value. */
  function CacheFor(viewer: string, allChallenges: seq<ChallengeDoc>, fetch: SubmissionsFetch): SubmissionsCache {
    map u | u in {viewer} + ParticipantNames(allChallenges) :: fetch(u, SUBMISSION_LIMIT)
  }

  /**
   * `challenges_page`: without a logged-in user, redirect; otherwise build the
   * cache and classify. `allChallenges` is what the store returns for the viewer.
   */
  method ChallengesPage(viewer: string, allChallenges: seq<ChallengeDoc>, now: Instant, fetch: SubmissionsFetch)
    returns (page: Page)
    requires DistinctDocs(allChallenges)
    modifies set d | d in allChallenges
    ensures viewer == "" ==> page == RedirectHome && forall d :: d in allChallenges ==> unchanged(d)
    ensures viewer != "" ==>
              var cache := CacheFor(viewer, allChallenges, fetch);
              && page == Buckets(Picked(allChallenges, viewer, now, cache, Invitations),
                                 Picked(allChallenges, viewer, now, cache, Pending),
                                 Picked(allChallenges, viewer, now, cache, Ongoing),
                                 Picked(allChallenges, viewer, now, cache, CompletedExpired))
              && (forall d :: d in allChallenges && Skipped(d.data, viewer) ==> unchanged(d))
              && (forall d :: d in allChallenges && !Skipped(d.data, viewer) ==>
                    d.Current() == Annotate(viewer, d.data, now, cache, old(d.timeLeft)))
  {
    if viewer == "" {
      return RedirectHome;
    }
    var cache, _ := BuildCache(viewer, allChallenges, fetch);
    assert cache == CacheFor(viewer, allChallenges, fetch);
    var invitations, pending, ongoing, completedExpired := ClassifyChallenges(viewer, allChallenges, now, cache);
    page := Buckets(invitations, pending, ongoing, completedExpired);
  }
}
