/**
 * What the core sees of the external coding-judge platform (app/services/leetcode_api.py).
 * The HTTP/GraphQL client is not part of this model: its two fetches are passed to the
 * core as plain functions. A failed fetch is already folded into their results: the
 * submissions fetch yields [] and the stats fetch yields None.
 */
module Judge {
  import opened Wrappers

  /** The status text the judge reports for a correct submission. */
  const ACCEPTED_SUBMISSION: string := "Accepted"

  /** One entry of `recentSubmissionList`; only the fields the core reads. */
  datatype Submission = Submission(titleSlug: string, statusDisplay: string)

  /** The record `get_user_stats` builds for a user that exists on the platform. */
  datatype Stats = Stats(
    username: string,
    avatar: string,
    totalSolved: int,
    easySolved: int,
    mediumSolved: int,
    hardSolved: int,
    streak: int)

  /** `get_recent_submissions(username, limit)`: never fails, [] on any error. */
  type SubmissionsFetch = (string, nat) -> seq<Submission>

  /** `get_user_stats(username)`: None when the user is unknown or a request fails. */
  type StatsFetch = string -> Option<Stats>

  predicate IsAccepted(s: Submission) {
    s.statusDisplay == ACCEPTED_SUBMISSION
  }

  /** `{sub['titleSlug'] for sub in subs if sub['statusDisplay'] == 'Accepted'}` */
  function AcceptedSlugs(subs: seq<Submission>): (slugs: set<string>)
    ensures forall i :: 0 <= i < |subs| && IsAccepted(subs[i]) ==> subs[i].titleSlug in slugs
    ensures forall slug :: slug in slugs ==> exists i :: 0 <= i < |subs| && IsAccepted(subs[i]) && subs[i].titleSlug == slug
  {
    set i | 0 <= i < |subs| && IsAccepted(subs[i]) :: subs[i].titleSlug
  }

  /**
   * Only which submissions occur matters, not their order or how often they
   * repeat: two histories with the same elements give the same slug set.
   */
  lemma AcceptedSlugsIgnoresOrder(a: seq<Submission>, b: seq<Submission>)
    requires forall s :: s in a <==> s in b
    ensures AcceptedSlugs(a) == AcceptedSlugs(b)
  {
    forall slug | slug in AcceptedSlugs(a) ensures slug in AcceptedSlugs(b) {
      var i :| 0 <= i < |a| && IsAccepted(a[i]) && a[i].titleSlug == slug;
      assert a[i] in b;
      var j :| 0 <= j < |b| && b[j] == a[i];
    }
    forall slug | slug in AcceptedSlugs(b) ensures slug in AcceptedSlugs(a) {
      var j :| 0 <= j < |b| && IsAccepted(b[j]) && b[j].titleSlug == slug;
      assert b[j] in a;
      var i :| 0 <= i < |a| && a[i] == b[j];
    }
  }

  /** The slug set of a concatenated history is the union of the parts' slug sets. */
  lemma AcceptedSlugsAppend(a: seq<Submission>, b: seq<Submission>)
    ensures AcceptedSlugs(a + b) == AcceptedSlugs(a) + AcceptedSlugs(b)
  {
    forall slug | slug in AcceptedSlugs(a + b) ensures slug in AcceptedSlugs(a) + AcceptedSlugs(b) {
      var i :| 0 <= i < |a + b| && IsAccepted((a + b)[i]) && (a + b)[i].titleSlug == slug;
      if i < |a| {
        assert (a + b)[i] == a[i];
      } else {
        assert (a + b)[i] == b[i - |a|];
      }
    }
    forall slug | slug in AcceptedSlugs(a) ensures slug in AcceptedSlugs(a + b) {
      var i :| 0 <= i < |a| && IsAccepted(a[i]) && a[i].titleSlug == slug;
      assert (a + b)[i] == a[i];
    }
    forall slug | slug in AcceptedSlugs(b) ensures slug in AcceptedSlugs(a + b) {
      var i :| 0 <= i < |b| && IsAccepted(b[i]) && b[i].titleSlug == slug;
      assert (a + b)[|a| + i] == b[i];
    }
  }

  /** There are never more accepted slugs than submissions. */
  lemma {:induction false} AcceptedSlugsSize(subs: seq<Submission>)
    ensures |AcceptedSlugs(subs)| <= |subs|
    decreases |subs|
  {
    if subs != [] {
      var n := |subs| - 1;
      assert subs[..n] + [subs[n]] == subs;
      AcceptedSlugsAppend(subs[..n], [subs[n]]);
      AcceptedSlugsSize(subs[..n]);
      var last := AcceptedSlugs([subs[n]]);
      assert last <= {subs[n].titleSlug};
      if last == {} {
        assert AcceptedSlugs(subs) == AcceptedSlugs(subs[..n]);
      } else {
        assert last == {subs[n].titleSlug};
      }
    }
  }
}
