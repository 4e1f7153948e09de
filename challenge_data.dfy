/**
 * The challenge record as the challenge routes (app/routes/challenges.py) read and
 * write it: problems, an optional expiry instant and the participant mapping.
 */
module ChallengeData {
  import opened Wrappers

  /** Participant statuses written by the routes. */
  const ACCEPTED: string := "accepted"
  const INVITED: string := "invited"
  const DECLINED: string := "declined"

  /** The empty string stands for a missing or empty `status` (Python's falsy value). */
  const NO_STATUS: string := ""

  /** A problem of a challenge; `titleSlug` is None when the key is absent. */
  datatype Problem = Problem(title: string, titleSlug: Option<string>)

  /** One entry `name: {'status': status}` of the participant mapping. */
  datatype Participant = Participant(name: string, status: string)

  /**
   * The participant mapping, in its iteration order. Python dictionaries iterate
   * in insertion order, and the participant lists the classifier builds follow it.
   */
  type Participants = seq<Participant>

  /** Instants are whole seconds since an epoch, all in one time zone. */
  type Instant = int

  datatype Challenge = Challenge(
    creatorUsername: string,
    title: string,
    description: string,
    problems: seq<Problem>,
    expiresAt: Option<Instant>,
    status: string,
    participants: Participants)

  predicate UniqueNames(ps: Participants) {
    forall i, j :: 0 <= i < j < |ps| ==> ps[i].name != ps[j].name
  }

  function Names(ps: Participants): set<string> {
    set i | 0 <= i < |ps| :: ps[i].name
  }

  /** `participants.get(name, {}).get('status')`, with NO_STATUS for "absent". */
  function StatusOf(ps: Participants, name: string): (s: string)
    ensures name !in Names(ps) ==> s == NO_STATUS
    ensures s != NO_STATUS ==> exists i :: 0 <= i < |ps| && ps[i].name == name && ps[i].status == s
    ensures forall i :: 0 <= i < |ps| && ps[i].name == name && (forall k :: 0 <= k < i ==> ps[k].name != name) ==>
              s == ps[i].status
  {
    if ps == [] then NO_STATUS
    else if ps[0].name == name then ps[0].status
    else
      var s := StatusOf(ps[1..], name);
      assert s != NO_STATUS ==> exists i :: 1 <= i < |ps| && ps[i].name == name && ps[i].status == s by {
        if s != NO_STATUS {
          var k :| 0 <= k < |ps[1..]| && ps[1..][k].name == name && ps[1..][k].status == s;
          assert ps[k + 1] == ps[1..][k];
        }
      }
      assert Names(ps[1..]) <= Names(ps) by {
        forall n | n in Names(ps[1..]) ensures n in Names(ps) {
          var k :| 0 <= k < |ps[1..]| && ps[1..][k].name == n;
          assert ps[k + 1] == ps[1..][k];
        }
      }
      assert forall i :: 1 <= i < |ps| ==> ps[1..][i - 1] == ps[i];
      s
  }

  /**
   * `participants[name] = {'status': status}`: an existing entry keeps its
   * position and gets the new status; a new name is appended at the end.
   */
  function SetStatus(ps: Participants, name: string, status: string): (r: Participants)
    ensures |r| == if name in Names(ps) then |ps| else |ps| + 1
    ensures Names(r) == Names(ps) + {name}
    ensures ps != [] ==> r[0].name == ps[0].name
  {
    if ps == [] then
      var r := [Participant(name, status)];
      assert r[0].name == name;
      r
    else if ps[0].name == name then
      var r := [Participant(name, status)] + ps[1..];
      NamesCons(ps);
      NamesCons(r);
      assert r[1..] == ps[1..];
      r
    else
      var r := [ps[0]] + SetStatus(ps[1..], name, status);
      NamesCons(ps);
      NamesCons(r);
      r
  }

  /** Under assignment every existing entry keeps its place and its name, and an entry for another name is untouched. */
  lemma {:induction false} SetStatusKeepsPlaces(ps: Participants, name: string, status: string)
    ensures var r := SetStatus(ps, name, status);
            forall i :: 0 <= i < |ps| ==> r[i].name == ps[i].name && (ps[i].name != name ==> r[i] == ps[i])
  {
    var r := SetStatus(ps, name, status);
    if ps != [] && ps[0].name != name {
      var tail := SetStatus(ps[1..], name, status);
      SetStatusKeepsPlaces(ps[1..], name, status);
      assert r == [ps[0]] + tail;
      forall i | 1 <= i < |ps| ensures r[i].name == ps[i].name && (ps[i].name != name ==> r[i] == ps[i]) {
        assert ps[1..][i - 1] == ps[i] && r[i] == tail[i - 1];
      }
    } else if ps != [] {
      assert r == [Participant(name, status)] + ps[1..];
    }
  }

  /** Only the first entry for the name takes the new status. */
  lemma {:induction false} SetStatusFirstEntry(ps: Participants, name: string, status: string, i: nat)
    requires i < |ps| && ps[i].name == name
    requires forall k :: 0 <= k < i ==> ps[k].name != name
    ensures SetStatus(ps, name, status)[i] == Participant(name, status)
  {
    if i > 0 {
      var tail := SetStatus(ps[1..], name, status);
      assert ps[1..][i - 1] == ps[i];
      forall k | 0 <= k < i - 1 ensures ps[1..][k].name != name { assert ps[1..][k] == ps[k + 1]; }
      SetStatusFirstEntry(ps[1..], name, status, i - 1);
      assert SetStatus(ps, name, status) == [ps[0]] + tail;
    }
  }

  /** A name without an entry is appended as the last entry. */
  lemma {:induction false} SetStatusAppends(ps: Participants, name: string, status: string)
    requires name !in Names(ps)
    ensures SetStatus(ps, name, status)[|ps|] == Participant(name, status)
  {
    if ps != [] {
      NamesCons(ps);
      SetStatusAppends(ps[1..], name, status);
      assert SetStatus(ps, name, status) == [ps[0]] + SetStatus(ps[1..], name, status);
    }
  }

  lemma NamesCons(ps: Participants)
    requires ps != []
    ensures Names(ps) == {ps[0].name} + Names(ps[1..])
  {
    forall n | n in Names(ps) ensures n in {ps[0].name} + Names(ps[1..]) {
      var k :| 0 <= k < |ps| && ps[k].name == n;
      if k > 0 { assert ps[1..][k - 1] == ps[k]; }
    }
    forall n | n in Names(ps[1..]) ensures n in Names(ps) {
      var k :| 0 <= k < |ps[1..]| && ps[1..][k].name == n;
      assert ps[k + 1] == ps[1..][k];
    }
  }

  /** Setting a status never introduces a second entry for a name. */
  lemma {:induction false} SetStatusKeepsUnique(ps: Participants, name: string, status: string)
    requires UniqueNames(ps)
    ensures UniqueNames(SetStatus(ps, name, status))
  {
    if ps != [] && ps[0].name != name {
      SetStatusKeepsUnique(ps[1..], name, status);
      var r := SetStatus(ps, name, status);
      var tail := SetStatus(ps[1..], name, status);
      assert r == [ps[0]] + tail;
      NamesCons(ps);
      assert ps[0].name !in Names(ps[1..]) by {
        forall k | 0 <= k < |ps[1..]| ensures ps[1..][k].name != ps[0].name {
          assert ps[1..][k] == ps[k + 1];
        }
      }
      forall i, j | 0 <= i < j < |r| ensures r[i].name != r[j].name {
        if i == 0 {
          assert r[j] == tail[j - 1];
          assert r[j].name in Names(tail);
        } else {
          assert r[i] == tail[i - 1] && r[j] == tail[j - 1];
        }
      }
    } else if ps != [] {
      var r := SetStatus(ps, name, status);
      forall i, j | 0 <= i < j < |r| ensures r[i].name != r[j].name {
        assert r[j] == ps[j];
        if i > 0 { assert r[i] == ps[i]; } else { assert ps[0].name == r[0].name; }
      }
    }
  }

  /** After setting a name's status, that name reads back the new status and every other name reads what it read before. */
  lemma {:induction false} SetStatusReads(ps: Participants, name: string, status: string, other: string)
    ensures StatusOf(SetStatus(ps, name, status), name) == status
    ensures other != name ==> StatusOf(SetStatus(ps, name, status), other) == StatusOf(ps, other)
  {
    if ps != [] && ps[0].name != name {
      SetStatusReads(ps[1..], name, status, other);
      var r := SetStatus(ps, name, status);
      assert r[1..] == SetStatus(ps[1..], name, status);
    }
  }
}
