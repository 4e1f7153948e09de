/**
 * Creating, answering, deleting and editing challenges (app/routes/challenges.py).
 * The challenge collection of the document store is an in-memory map from
 * challenge id to record; the route handlers are methods over it.
 */
module Lifecycle {
  import opened Wrappers
  import opened ChallengeData

  /*** Problem slugs from free text ***/

  /** Python's `str.isspace` on ASCII: tab, line feed, vertical tab, form feed, carriage return, 0x1c-0x1f and space. */
  predicate IsSpace(c: char) {
    (9 <= c as int <= 13) || (28 <= c as int <= 32)
  }

  /** How many whitespace characters `lstrip` removes. */
  function LeadingSpaces(s: string): (n: nat)
    ensures n <= |s|
    ensures forall k :: 0 <= k < n ==> IsSpace(s[k])
    ensures n < |s| ==> !IsSpace(s[n])
  {
    if s == [] || !IsSpace(s[0]) then 0 else 1 + LeadingSpaces(s[1..])
  }

  /** How many whitespace characters `rstrip` removes. */
  function TrailingSpaces(s: string): (n: nat)
    ensures n <= |s|
    ensures forall k :: |s| - n <= k < |s| ==> IsSpace(s[k])
    ensures n < |s| ==> !IsSpace(s[|s| - 1 - n])
  {
    if s == [] || !IsSpace(s[|s| - 1]) then 0 else 1 + TrailingSpaces(s[..|s| - 1])
  }

  /** `s.strip()`: whitespace removed at both ends. */
  function Strip(s: string): (r: string)
    ensures r != [] ==> !IsSpace(r[0]) && !IsSpace(r[|r| - 1])
    ensures forall c :: c in r ==> c in s
    ensures r == [] <==> forall k :: 0 <= k < |s| ==> IsSpace(s[k])
    ensures s != [] && !IsSpace(s[0]) && !IsSpace(s[|s| - 1]) ==> r == s
  {
    var a := LeadingSpaces(s);
    var rest := s[a..];
    var r := rest[..|rest| - TrailingSpaces(rest)];
    assert forall k :: 0 <= k < |r| ==> r[k] == s[a + k];
    r
  }

  /**
   * The stripped text is a slice of the input with only whitespace cut off before
   * and after it; as it neither starts nor ends with whitespace, the slice is unique.
   */
  lemma StripIsSlice(s: string)
    ensures exists a, b :: 0 <= a <= b <= |s| && Strip(s) == s[a..b]
                           && (forall k :: 0 <= k < a ==> IsSpace(s[k]))
                           && (forall k :: b <= k < |s| ==> IsSpace(s[k]))
  {
    var a := LeadingSpaces(s);
    var rest := s[a..];
    var t := TrailingSpaces(rest);
    var b := |s| - t;
    assert Strip(s) == s[a..b];
    forall k | b <= k < |s| ensures IsSpace(s[k]) { assert s[k] == rest[k - a]; }
  }

  /** `s.split(sep)`: the pieces between separators, at least one. */
  function Split(s: string, sep: char): (parts: seq<string>)
    ensures |parts| >= 1
    ensures forall i :: 0 <= i < |parts| ==> sep !in parts[i]
  {
    if s == [] then [""]
    else if s[0] == sep then [""] + Split(s[1..], sep)
    else
      var rest := Split(s[1..], sep);
      [[s[0]] + rest[0]] + rest[1..]
  }

  /** `sep.join(parts)` */
  function Join(parts: seq<string>, sep: char): string
    requires |parts| >= 1
  {
    if |parts| == 1 then parts[0] else parts[0] + [sep] + Join(parts[1..], sep)
  }

  /** Splitting loses nothing: joining the pieces gives back the text. */
  lemma {:induction false} SplitJoin(s: string, sep: char)
    ensures Join(Split(s, sep), sep) == s
  {
    if s != [] {
      SplitJoin(s[1..], sep);
      var rest := Split(s[1..], sep);
      if s[0] != sep {
        var parts := Split(s, sep);
        assert parts[1..] == rest[1..];
        if |rest| > 1 {
          assert Join(parts, sep) == [s[0]] + rest[0] + [sep] + Join(rest[1..], sep);
        }
      } else {
        assert Split(s, sep)[1..] == rest;
      }
    }
  }

  /** `[t.strip() for t in parts if t.strip()]` */
  function NonBlank(parts: seq<string>): (tokens: seq<string>)
    ensures |tokens| <= |parts|
    ensures forall i :: 0 <= i < |tokens| ==> tokens[i] != [] && !IsSpace(tokens[i][0])
  {
    if parts == [] then []
    else
      var t := Strip(parts[0]);
      (if t != [] then [t] else []) + NonBlank(parts[1..])
  }

  /** A token is kept exactly when it is the non-empty stripped form of some part. */
  lemma {:induction false} NonBlankMembership(parts: seq<string>, t: string)
    ensures t in NonBlank(parts) <==> exists i :: 0 <= i < |parts| && t == Strip(parts[i]) && t != []
  {
    if parts != [] {
      NonBlankMembership(parts[1..], t);
      assert NonBlank(parts) == (if Strip(parts[0]) != [] then [Strip(parts[0])] else []) + NonBlank(parts[1..]);
      if exists i :: 0 <= i < |parts| && t == Strip(parts[i]) && t != [] {
        var i :| 0 <= i < |parts| && t == Strip(parts[i]) && t != [];
        if i > 0 { assert parts[1..][i - 1] == parts[i]; }
      }
      if exists i :: 0 <= i < |parts[1..]| && t == Strip(parts[1..][i]) && t != [] {
        var i :| 0 <= i < |parts[1..]| && t == Strip(parts[1..][i]) && t != [];
        assert parts[1..][i] == parts[i + 1];
      }
    }
  }

  /** Tokens keep the order and the multiplicity of their parts: the filter distributes over concatenation. */
  lemma {:induction false} NonBlankAppend(a: seq<string>, b: seq<string>)
    ensures NonBlank(a + b) == NonBlank(a) + NonBlank(b)
  {
    if a != [] {
      var head := if Strip(a[0]) != [] then [Strip(a[0])] else [];
      assert (a + b)[0] == a[0] && (a + b)[1..] == a[1..] + b;
      assert NonBlank(a + b) == head + NonBlank(a[1..] + b);
      NonBlankAppend(a[1..], b);
    } else {
      assert a + b == b;
    }
  }

  /** The raw problem tokens of the comma-separated form field. */
  function ProblemTokens(problemsText: string): seq<string> {
    NonBlank(Split(problemsText, ','))
  }

  /** Every token is non-empty, contains no comma, and has no whitespace at either end. */
  lemma {:induction false} NonBlankShape(parts: seq<string>, sep: char)
    requires forall i :: 0 <= i < |parts| ==> sep !in parts[i]
    ensures forall i :: 0 <= i < |NonBlank(parts)| ==>
              var t := NonBlank(parts)[i];
              t != [] && sep !in t && !IsSpace(t[0]) && !IsSpace(t[|t| - 1])
  {
    if parts != [] {
      NonBlankShape(parts[1..], sep);
      var t := Strip(parts[0]);
      if t != [] {
        assert NonBlank(parts) == [t] + NonBlank(parts[1..]);
        assert sep !in t;
      } else {
        assert NonBlank(parts) == NonBlank(parts[1..]);
      }
    }
  }

  predicate IsUpper(c: char) {
    'A' <= c <= 'Z'
  }

  predicate IsLower(c: char) {
    'a' <= c <= 'z'
  }

  /** One character of `token.lower().replace(' ', '-')` (ASCII letters only are lowered). */
  function SlugChar(c: char): (d: char)
    ensures d != ' ' && !IsUpper(d)
    ensures c == ' ' ==> d == '-'
    ensures IsUpper(c) ==> IsLower(d) && d as int - 'a' as int == c as int - 'A' as int
    ensures c != ' ' && !IsUpper(c) ==> d == c
  {
    if IsUpper(c) then (c as int + 32) as char
    else if c == ' ' then '-'
    else c
  }

  /** `token.lower().replace(' ', '-')` */
  function Sanitize(token: string): (slug: string)
    ensures |slug| == |token|
    ensures forall i :: 0 <= i < |slug| ==> slug[i] != ' ' && !IsUpper(slug[i])
    ensures forall i :: 0 <= i < |slug| && token[i] == ' ' ==> slug[i] == '-'
    ensures forall i :: 0 <= i < |slug| && IsUpper(token[i]) ==>
              IsLower(slug[i]) && slug[i] as int - 'a' as int == token[i] as int - 'A' as int
    ensures forall i :: 0 <= i < |slug| && token[i] != ' ' && !IsUpper(token[i]) ==> slug[i] == token[i]
  {
    seq(|token|, i requires 0 <= i < |token| => SlugChar(token[i]))
  }

  /** A slug is already sanitized. */
  lemma SanitizeIdempotent(token: string)
    ensures Sanitize(Sanitize(token)) == Sanitize(token)
  {
    var s := Sanitize(token);
    assert forall i :: 0 <= i < |s| ==> Sanitize(s)[i] == s[i];
  }

  /** `slug.replace('-', ' ')`, the first step of the display title. */
  function DashesToSpaces(slug: string): (r: string)
    ensures |r| == |slug| && '-' !in r
  {
    seq(|slug|, i requires 0 <= i < |slug| => if slug[i] == '-' then ' ' else slug[i])
  }

  /** The loop that turns tokens into problem records; `titleCase` stands for `str.title`. */
  method BuildProblems(tokens: seq<string>, titleCase: string -> string) returns (problems: seq<Problem>)
    ensures |problems| == |tokens|
    ensures forall i :: 0 <= i < |tokens| ==>
              problems[i] == Problem(titleCase(DashesToSpaces(Sanitize(tokens[i]))), Some(Sanitize(tokens[i])))
  {
    problems := [];
    for i := 0 to |tokens|
      invariant |problems| == i
      invariant forall k :: 0 <= k < i ==>
                  problems[k] == Problem(titleCase(DashesToSpaces(Sanitize(tokens[k]))), Some(Sanitize(tokens[k])))
    {
      var sanitizedSlug := Sanitize(tokens[i]);
      var displayTitle := titleCase(DashesToSpaces(sanitizedSlug));
      problems := problems + [Problem(displayTitle, Some(sanitizedSlug))];
    }
  }

  /**
   * The `problems_list` a form produces: one problem per non-blank comma token, in
   * input order, each slug non-empty and free of commas, spaces and upper-case letters.
   */
  function ProblemsFrom(problemsText: string, titleCase: string -> string): (ps: seq<Problem>)
    ensures |ps| == |ProblemTokens(problemsText)|
    ensures forall i :: 0 <= i < |ps| ==> ps[i].titleSlug == Some(Sanitize(ProblemTokens(problemsText)[i]))
    ensures forall i :: 0 <= i < |ps| ==>
              && ps[i].titleSlug.Some?
              && var slug := ps[i].titleSlug.value;
              && slug != [] && ',' !in slug && ' ' !in slug
              && forall k :: 0 <= k < |slug| ==> !IsUpper(slug[k])
  {
    var tokens := ProblemTokens(problemsText);
    NonBlankShape(Split(problemsText, ','), ',');
    assert forall i :: 0 <= i < |tokens| ==> ',' !in Sanitize(tokens[i]) by {
      forall i | 0 <= i < |tokens| ensures ',' !in Sanitize(tokens[i]) {
        var t := tokens[i];
        forall k | 0 <= k < |t| ensures Sanitize(t)[k] != ',' {
          assert t[k] in t;
        }
      }
    }
    seq(|tokens|, i requires 0 <= i < |tokens| =>
      Problem(titleCase(DashesToSpaces(Sanitize(tokens[i]))), Some(Sanitize(tokens[i]))))
  }

  /*** The participant mapping of a new challenge ***/

  /** `{creator: accepted}`, then `participants[f] = {'status': 'invited'}` for each invitee in turn. */
  function InitialParticipants(creator: string, invited: seq<string>): (ps: Participants)
    ensures ps != [] && ps[0].name == creator
    ensures |ps| <= |invited| + 1
    decreases |invited|
  {
    if invited == [] then [Participant(creator, ACCEPTED)]
    else
      var n := |invited| - 1;
      SetStatus(InitialParticipants(creator, invited[..n]), invited[n], INVITED)
  }

  /** The creator comes first; the invitees and the creator are listed, nobody else, and nobody twice. */
  lemma {:induction false} InitialParticipantsShape(creator: string, invited: seq<string>)
    ensures var ps := InitialParticipants(creator, invited);
            && ps != [] && ps[0].name == creator
            && Names(ps) == {creator} + (set f | f in invited)
            && UniqueNames(ps)
    decreases |invited|
  {
    var ps := InitialParticipants(creator, invited);
    if invited == [] {
      assert ps[0].name == creator;
      assert Names(ps) == {creator};
    } else {
      var n := |invited| - 1;
      var prev := InitialParticipants(creator, invited[..n]);
      assert ps == SetStatus(prev, invited[n], INVITED);
      InitialParticipantsShape(creator, invited[..n]);
      SetStatusKeepsUnique(prev, invited[n], INVITED);
      assert Names(ps) == Names(prev) + {invited[n]};
      InvitedSet(invited);
    }
  }

  /** An invitee reads "invited" (the creator too, when invited); the creator otherwise reads "accepted"; anyone else has no status. */
  lemma {:induction false} InitialParticipantsStatus(creator: string, invited: seq<string>, name: string)
    ensures StatusOf(InitialParticipants(creator, invited), name) ==
            if name in invited then INVITED else if name == creator then ACCEPTED else NO_STATUS
    decreases |invited|
  {
    if invited != [] {
      var n := |invited| - 1;
      var front, last := invited[..n], invited[n];
      var prev := InitialParticipants(creator, front);
      assert InitialParticipants(creator, invited) == SetStatus(prev, last, INVITED);
      InitialParticipantsStatus(creator, front, name);
      SetStatusReads(prev, last, INVITED, name);
      LastMembership(invited, name);
    }
  }

  /** Membership in a non-empty list splits into its front and its last element. */
  lemma LastMembership(s: seq<string>, x: string)
    requires s != []
    ensures x in s <==> x in s[..|s| - 1] || x == s[|s| - 1]
  {
    assert s == s[..|s| - 1] + [s[|s| - 1]];
  }

  lemma InvitedSet(invited: seq<string>)
    requires invited != []
    ensures var n := |invited| - 1;
            (set f | f in invited) == (set f | f in invited[..n]) + {invited[n]}
  {
    var n := |invited| - 1;
    assert invited == invited[..n] + [invited[n]];
  }

  /** The loop that builds the participant mapping. */
  method BuildParticipants(creator: string, invitedFriends: seq<string>) returns (participants: Participants)
    ensures participants == InitialParticipants(creator, invitedFriends)
  {
    participants := [Participant(creator, ACCEPTED)];
    for i := 0 to |invitedFriends|
      invariant participants == InitialParticipants(creator, invitedFriends[..i])
    {
      assert invitedFriends[..i + 1][..i] == invitedFriends[..i];
      participants := SetStatus(participants, invitedFriends[i], INVITED);
    }
    assert invitedFriends[..|invitedFriends|] == invitedFriends;
  }

  /*** The challenge collection ***/

  type ChallengeId = nat

  const ACTIVE: string := "active"

  /** The `challenges` collection of the document store. */
  class ChallengeStore {
    var challenges: map<ChallengeId, Challenge>
    var nextId: ChallengeId

    ghost predicate Valid()
      reads this
    {
      forall id :: id in challenges ==> id < nextId
    }

    constructor ()
      ensures Valid() && challenges == map[]
    {
      challenges := map[];
      nextId := 0;
    }

    /** `get_challenge_by_id`: the record, or None for an unknown id. */
    function GetChallengeById(id: ChallengeId): (r: Option<Challenge>)
      reads this
      ensures r.Some? <==> id in challenges
      ensures r.Some? ==> r.value == challenges[id]
    {
      if id in challenges then Some(challenges[id]) else None
    }

    /** `create_challenge`: stores the record under a new id; `writeSucceeds` is the outcome of the write. */
    method Create(data: Challenge, writeSucceeds: bool) returns (id: Option<ChallengeId>)
      requires Valid()
      modifies this
      ensures Valid()
      ensures !writeSucceeds ==> id.None? && challenges == old(challenges)
      ensures writeSucceeds ==> id.Some? && id.value !in old(challenges)
                                && challenges == old(challenges)[id.value := data]
    {
      if !writeSucceeds {
        return None;
      }
      id := Some(nextId);
      challenges := challenges[nextId := data];
      nextId := nextId + 1;
    }

    /**
     * `update_challenge_participant_status`: sets one participant's status. The store
     * rejects an update of a missing document (false), changing nothing.
     */
    method UpdateParticipantStatus(id: ChallengeId, name: string, status: string) returns (found: bool)
      requires Valid()
      modifies this
      ensures Valid()
      ensures found == (id in old(challenges))
      ensures found ==> challenges == old(challenges)[id := old(challenges)[id].(participants := SetStatus(old(challenges)[id].participants, name, status))]
      ensures !found ==> challenges == old(challenges)
    {
      found := id in challenges;
      if found {
        var c := challenges[id];
        challenges := challenges[id := c.(participants := SetStatus(c.participants, name, status))];
      }
    }

    /** `delete_challenge` */
    method Delete(id: ChallengeId)
      requires Valid()
      modifies this
      ensures Valid()
      ensures challenges == old(challenges) - {id}
    {
      challenges := challenges - {id};
    }

    /** `update_challenge_details`: overwrites title and description of an existing record. */
    method UpdateDetails(id: ChallengeId, title: string, description: string) returns (found: bool)
      requires Valid()
      modifies this
      ensures Valid()
      ensures found == (id in old(challenges))
      ensures found ==> challenges == old(challenges)[id := old(challenges)[id].(title := title, description := description)]
      ensures !found ==> challenges == old(challenges)
    {
      found := id in challenges;
      if found {
        challenges := challenges[id := challenges[id].(title := title, description := description)];
      }
    }
  }

  /*** Route handlers ***/

  /** What a route reports (its flash message and redirect), one constructor per case. */
  datatype Outcome =
    | LoginRequired
    | MissingFields | BadDate | StoreFailed | Created(id: ChallengeId)
    | Responded | Ignored | NoSuchChallenge
    | Deleted | PermissionDenied
    | EditForm(challenge: Challenge) | Updated

  /** The record a valid creation form describes. */
  function NewChallenge(creator: string, title: string, description: string, problemsText: string,
                        expiresAt: Instant, invitedFriends: seq<string>, titleCase: string -> string): Challenge
  {
    Challenge(creator, title, description, ProblemsFrom(problemsText, titleCase), Some(expiresAt), ACTIVE,
              InitialParticipants(creator, invitedFriends))
  }

  /**
   * `create_challenge` (POST): every field is required; the expiry date is parsed
   * by `endOfDay` (None where `strptime` raises); `writeSucceeds` is the store's answer.
   */
  method CreateChallenge(store: ChallengeStore, creator: string, title: string, description: string,
                         problemsText: string, expiresStr: string, invitedFriends: seq<string>,
                         endOfDay: string -> Option<Instant>, titleCase: string -> string, writeSucceeds: bool)
    returns (outcome: Outcome)
    requires store.Valid()
    modifies store
    ensures store.Valid()
    ensures creator == "" ==> outcome == LoginRequired
    ensures creator != "" && (title == "" || description == "" || problemsText == "" || expiresStr == "") ==>
              outcome == MissingFields
    ensures outcome.Created? <==>
              creator != "" && title != "" && description != "" && problemsText != "" && expiresStr != ""
              && endOfDay(expiresStr).Some? && writeSucceeds
    ensures outcome.Created? ==>
              outcome.id !in old(store.challenges)
              && store.challenges == old(store.challenges)[outcome.id :=
                   NewChallenge(creator, title, description, problemsText, endOfDay(expiresStr).value, invitedFriends, titleCase)]
    ensures !outcome.Created? ==> store.challenges == old(store.challenges)
  {
    if creator == "" {
      return LoginRequired;
    }
    if title == "" || description == "" || problemsText == "" || expiresStr == "" {
      return MissingFields;
    }
    var tokens := ProblemTokens(problemsText);
    var problemsList := BuildProblems(tokens, titleCase);
    var expiresAt := endOfDay(expiresStr);
    if expiresAt.None? {
      return BadDate;
    }
    var participants := BuildParticipants(creator, invitedFriends);
    var data := Challenge(creator, title, description, problemsList, Some(expiresAt.value), ACTIVE, participants);
    assert data == NewChallenge(creator, title, description, problemsText, expiresAt.value, invitedFriends, titleCase);
    var id := store.Create(data, writeSucceeds);
    if id.None? {
      return StoreFailed;
    }
    outcome := Created(id.value);
  }

  predicate IsValidResponse(response: string) {
    response == ACCEPTED || response == DECLINED
  }

  /** `respond_to_challenge`: only "accepted" and "declined" are written, and only the caller's own entry. */
  method RespondToChallenge(store: ChallengeStore, caller: string, id: ChallengeId, response: string)
    returns (outcome: Outcome)
    requires store.Valid()
    modifies store
    ensures store.Valid()
    ensures caller == "" ==> outcome == LoginRequired
    ensures caller != "" && !IsValidResponse(response) ==> outcome == Ignored
    ensures outcome == Responded <==> caller != "" && IsValidResponse(response) && id in old(store.challenges)
    ensures outcome == Responded ==>
              var c := old(store.challenges)[id];
              store.challenges == old(store.challenges)[id := c.(participants := SetStatus(c.participants, caller, response))]
    ensures outcome != Responded ==> store.challenges == old(store.challenges)
  {
    if caller == "" {
      return LoginRequired;
    }
    if response == ACCEPTED || response == DECLINED {
      var found := store.UpdateParticipantStatus(id, caller, response);
      outcome := if found then Responded else NoSuchChallenge;
    } else {
      outcome := Ignored;
    }
  }

  /** The ownership test of delete and edit: the record exists and its creator is the caller. */
  predicate IsCreator(stored: Option<Challenge>, caller: string) {
    stored.Some? && stored.value.creatorUsername == caller
  }

  /** `delete_challenge`: only the creator may delete. */
  method DeleteChallenge(store: ChallengeStore, caller: string, id: ChallengeId) returns (outcome: Outcome)
    requires store.Valid()
    modifies store
    ensures store.Valid()
    ensures caller == "" ==> outcome == LoginRequired
    ensures outcome == Deleted <==> caller != "" && IsCreator(old(store.GetChallengeById(id)), caller)
    ensures caller != "" && !IsCreator(old(store.GetChallengeById(id)), caller) ==> outcome == PermissionDenied
    ensures outcome == Deleted ==> store.challenges == old(store.challenges) - {id}
    ensures outcome != Deleted ==> store.challenges == old(store.challenges)
  {
    if caller == "" {
      return LoginRequired;
    }
    var challenge := store.GetChallengeById(id);
    if challenge.Some? && challenge.value.creatorUsername == caller {
      store.Delete(id);
      outcome := Deleted;
    } else {
      outcome := PermissionDenied;
    }
  }

  /** `edit_challenge`: only the creator may see the form (GET) or overwrite title and description (POST). */
  method EditChallenge(store: ChallengeStore, caller: string, id: ChallengeId, isPost: bool,
                       title: string, description: string) returns (outcome: Outcome)
    requires store.Valid()
    modifies store
    ensures store.Valid()
    ensures caller == "" ==> outcome == LoginRequired
    ensures caller != "" && !IsCreator(old(store.GetChallengeById(id)), caller) ==> outcome == PermissionDenied
    ensures outcome == Updated <==> caller != "" && IsCreator(old(store.GetChallengeById(id)), caller) && isPost
    ensures caller != "" && IsCreator(old(store.GetChallengeById(id)), caller) && !isPost ==>
              outcome == EditForm(old(store.challenges)[id])
    ensures outcome == Updated ==>
              store.challenges == old(store.challenges)[id := old(store.challenges)[id].(title := title, description := description)]
    ensures outcome != Updated ==> store.challenges == old(store.challenges)
  {
    if caller == "" {
      return LoginRequired;
    }
    var challenge := store.GetChallengeById(id);
    if challenge.None? || challenge.value.creatorUsername != caller {
      return PermissionDenied;
    }
    if isPost {
      var _ := store.UpdateDetails(id, title, description);
      return Updated;
    }
    outcome := EditForm(challenge.value);
  }
}
