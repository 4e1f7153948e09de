/**
 * The friends page and the leaderboard (app/routes/friends.py): adding a
 * friend after checking the judge platform knows them, listing friends'
 * stats, and ranking the viewer and friends by problems solved.
 */
module Friends {
  import opened Wrappers
  import opened Judge
  import opened UserStore

  /*** Collecting stats ***/

  /** The stats of the names whose lookup succeeds, in list order; failed lookups are skipped. */
  function Collect(names: seq<string>, lookup: StatsFetch): (collected: seq<Stats>)
    ensures |collected| <= |names|
    ensures (forall i :: 0 <= i < |names| ==> lookup(names[i]).Some?) ==> |collected| == |names|
    decreases |names|
  {
    if names == [] then []
    else
      var n := |names| - 1;
      Collect(names[..n], lookup) + (if lookup(names[n]).Some? then [lookup(names[n]).value] else [])
  }

  /** Collecting splits over concatenation, so the result follows the order of the names. */
  lemma {:induction false} CollectAppend(a: seq<string>, b: seq<string>, lookup: StatsFetch)
    ensures Collect(a + b, lookup) == Collect(a, lookup) + Collect(b, lookup)
    decreases |b|
  {
    if b == [] {
      assert a + b == a;
    } else {
      var n := |b| - 1;
      assert (a + b)[..|a + b| - 1] == a + b[..n];
      CollectAppend(a, b[..n], lookup);
    }
  }

  /** A record is collected exactly when it is the successful lookup of some listed name. */
  lemma {:induction false} CollectMembership(names: seq<string>, lookup: StatsFetch, s: Stats)
    ensures s in Collect(names, lookup) <==> exists i :: 0 <= i < |names| && lookup(names[i]) == Some(s)
    decreases |names|
  {
    if names != [] {
      var n := |names| - 1;
      CollectMembership(names[..n], lookup, s);
      forall i | 0 <= i < n ensures names[..n][i] == names[i] { }
    }
  }

  /** The fetch-and-append loop shared by both pages: appends the stats of each name whose lookup succeeds. */
  method AppendFetched(acc: seq<Stats>, names: seq<string>, lookup: StatsFetch) returns (collected: seq<Stats>)
    ensures collected == acc + Collect(names, lookup)
  {
    collected := acc;
    for i := 0 to |names|
      invariant collected == acc + Collect(names[..i], lookup)
    {
      assert names[..i + 1][..i] == names[..i];
      var stats := lookup(names[i]);
      if stats.Some? {
        collected := collected + [stats.value];
      }
    }
    assert names[..|names|] == names;
  }

  /*** The friends page ***/

  datatype FriendOutcome = LoginRequired | Added | UserNotFound | CannotAddSelf | NothingToAdd | Removed | StoreFailed

  /**
   * `friends_page` (POST): an empty name does nothing, the viewer's own name is
   * refused, and a name is added only when the judge platform knows it.
   */
  method AddFriendRequest(users: Users, mainUsername: string, friendUsername: string, lookup: StatsFetch)
    returns (outcome: FriendOutcome)
    modifies users
    ensures mainUsername == "" ==> outcome == LoginRequired
    ensures mainUsername != "" && friendUsername == mainUsername ==> outcome == CannotAddSelf
    ensures mainUsername != "" && friendUsername == "" ==> outcome == NothingToAdd
    ensures mainUsername != "" && friendUsername != "" && friendUsername != mainUsername && lookup(friendUsername).None? ==>
              outcome == UserNotFound
    ensures outcome == Added <==>
              mainUsername != "" && friendUsername != "" && friendUsername != mainUsername
              && lookup(friendUsername).Some? && mainUsername in old(users.docs)
    ensures outcome == Added ==>
              var rec := old(users.docs)[mainUsername];
              users.docs == old(users.docs)[mainUsername := rec.(friends := Some(ArrayUnion(rec.friends, friendUsername)))]
    ensures outcome != Added ==> users.docs == old(users.docs)
  {
    if mainUsername == "" {
      return LoginRequired;
    }
    if friendUsername != "" && friendUsername != mainUsername {
      if lookup(friendUsername).Some? {
        var r := users.AddFriend(mainUsername, friendUsername);
        outcome := if r == Success(true) then Added else StoreFailed;
      } else {
        outcome := UserNotFound;
      }
    } else if friendUsername == mainUsername {
      outcome := CannotAddSelf;
    } else {
      outcome := NothingToAdd;
    }
  }

  /**
   * `remove_friend` (the route): any name, the viewer's own included, is passed
   * on to the store, which ignores an empty one.
   */
  method RemoveFriendRequest(users: Users, mainUsername: string, friendUsername: string) returns (outcome: FriendOutcome)
    modifies users
    ensures mainUsername == "" ==> outcome == LoginRequired
    ensures mainUsername != "" ==> (outcome == Removed <==> mainUsername in old(users.docs) || friendUsername == "")
    ensures outcome == Removed && friendUsername != "" ==>
              var rec := old(users.docs)[mainUsername];
              users.docs == old(users.docs)[mainUsername := rec.(friends := Some(ArrayRemove(rec.friends, friendUsername)))]
    ensures outcome != Removed || friendUsername == "" ==> users.docs == old(users.docs)
  {
    if mainUsername == "" {
      return LoginRequired;
    }
    var r := users.RemoveFriend(mainUsername, friendUsername);
    outcome := if r.Success? then Removed else StoreFailed;
  }

  /**
   * `friends_page` (GET): without a login the viewer is sent home (None); otherwise
   * the stats of every friend whose lookup succeeds, in friend-list order.
   */
  method FriendsPage(users: Users, mainUsername: string, lookup: StatsFetch) returns (page: Option<seq<Stats>>)
    ensures page.None? <==> mainUsername == ""
    ensures page.Some? ==> page.value == Collect(users.GetFriends(mainUsername), lookup)
    ensures page.Some? ==> forall s :: s in page.value <==>
              exists i :: 0 <= i < |users.GetFriends(mainUsername)| && lookup(users.GetFriends(mainUsername)[i]) == Some(s)
  {
    if mainUsername == "" {
      return None;
    }
    var friendUsernames := users.GetFriends(mainUsername);
    var friendsData := AppendFetched([], friendUsernames, lookup);
    forall s ensures s in friendsData <==> exists i :: 0 <= i < |friendUsernames| && lookup(friendUsernames[i]) == Some(s) {
      CollectMembership(friendUsernames, lookup, s);
    }
    page := Some(friendsData);
  }

  /*** The leaderboard ***/

  /** `sorted(..., key=totalSolved, reverse=True)` is stable: this insertion puts x before every entry it does not rank below. */
  function Insert(x: Stats, s: seq<Stats>): (r: seq<Stats>)
    ensures |r| == |s| + 1
    decreases |s|
  {
    if s == [] then [x]
    else if s[0].totalSolved > x.totalSolved then [s[0]] + Insert(x, s[1..])
    else [x] + s
  }

  /** The leaderboard order: a stable sort by `totalSolved`, highest first. */
  function SortByTotalDesc(s: seq<Stats>): (r: seq<Stats>)
    ensures |r| == |s|
    decreases |s|
  {
    if s == [] then [] else Insert(s[0], SortByTotalDesc(s[1..]))
  }

  predicate NonIncreasing(s: seq<Stats>) {
    forall i, j :: 0 <= i < j < |s| ==> s[i].totalSolved >= s[j].totalSolved
  }

  /** The entries with a given total, in order. */
  function WithTotal(s: seq<Stats>, k: int): seq<Stats>
    decreases |s|
  {
    if s == [] then [] else (if s[0].totalSolved == k then [s[0]] else []) + WithTotal(s[1..], k)
  }

  lemma {:induction false} InsertElements(x: Stats, s: seq<Stats>)
    ensures multiset(Insert(x, s)) == multiset(s) + multiset{x}
    ensures forall e :: e in Insert(x, s) ==> e == x || e in s
    decreases |s|
  {
    if s != [] && s[0].totalSolved > x.totalSolved {
      InsertElements(x, s[1..]);
      assert s == [s[0]] + s[1..];
    }
  }

  lemma {:induction false} InsertSorted(x: Stats, s: seq<Stats>)
    requires NonIncreasing(s)
    ensures NonIncreasing(Insert(x, s))
    decreases |s|
  {
    if s != [] && s[0].totalSolved > x.totalSolved {
      InsertSorted(x, s[1..]);
      InsertElements(x, s[1..]);
      var r := Insert(x, s[1..]);
      assert Insert(x, s) == [s[0]] + r;
      forall e | e in r ensures s[0].totalSolved >= e.totalSolved {
        if e != x {
          var k :| 0 <= k < |s[1..]| && s[1..][k] == e;
          assert e == s[k + 1];
        }
      }
    }
  }

  /** The leaderboard is in non-increasing order of problems solved. */
  lemma {:induction false} SortedNonIncreasing(s: seq<Stats>)
    ensures NonIncreasing(SortByTotalDesc(s))
    decreases |s|
  {
    if s != [] {
      SortedNonIncreasing(s[1..]);
      InsertSorted(s[0], SortByTotalDesc(s[1..]));
    }
  }

  /** The leaderboard holds exactly the collected entries. */
  lemma {:induction false} SortIsPermutation(s: seq<Stats>)
    ensures multiset(SortByTotalDesc(s)) == multiset(s)
    decreases |s|
  {
    if s != [] {
      SortIsPermutation(s[1..]);
      InsertElements(s[0], SortByTotalDesc(s[1..]));
      assert s == [s[0]] + s[1..];
    }
  }

  lemma {:induction false} InsertWithTotal(x: Stats, s: seq<Stats>, k: int)
    ensures WithTotal(Insert(x, s), k) == (if x.totalSolved == k then [x] else []) + WithTotal(s, k)
    decreases |s|
  {
    if s != [] && s[0].totalSolved > x.totalSolved {
      InsertWithTotal(x, s[1..], k);
      assert Insert(x, s)[1..] == Insert(x, s[1..]);
      assert [s[0]] + s[1..] == s;
    }
  }

  /** Stability: the entries sharing a total keep the order in which they were collected. */
  lemma {:induction false} SortIsStable(s: seq<Stats>, k: int)
    ensures WithTotal(SortByTotalDesc(s), k) == WithTotal(s, k)
    decreases |s|
  {
    if s != [] {
      SortIsStable(s[1..], k);
      InsertWithTotal(s[0], SortByTotalDesc(s[1..]), k);
    }
  }

  /** The entries before sorting: the viewer's stats if fetched, then each friend's that was fetched. */
  function LeaderboardEntries(myStats: Option<Stats>, friendList: seq<string>, lookup: StatsFetch): seq<Stats> {
    (if myStats.Some? then [myStats.value] else []) + Collect(friendList, lookup)
  }

  /** `leaderboard_page`: without a login the viewer is sent home (None); otherwise collect, then rank highest first, stably. */
  method LeaderboardPage(users: Users, mainUsername: string, lookup: StatsFetch) returns (page: Option<seq<Stats>>)
    ensures page.None? <==> mainUsername == ""
    ensures page.Some? ==>
              page.value == SortByTotalDesc(LeaderboardEntries(lookup(mainUsername), users.GetFriends(mainUsername), lookup))
    ensures page.Some? ==> NonIncreasing(page.value)
    ensures page.Some? ==>
              multiset(page.value) == multiset(LeaderboardEntries(lookup(mainUsername), users.GetFriends(mainUsername), lookup))
  {
    if mainUsername == "" {
      return None;
    }
    var myStats := lookup(mainUsername);
    var friendList := users.GetFriends(mainUsername);
    var leaderboardData: seq<Stats> := [];
    if myStats.Some? {
      leaderboardData := leaderboardData + [myStats.value];
    }
    leaderboardData := AppendFetched(leaderboardData, friendList, lookup);
    var sortedLeaderboard := SortByTotalDesc(leaderboardData);
    SortedNonIncreasing(leaderboardData);
    SortIsPermutation(leaderboardData);
    page := Some(sortedLeaderboard);
  }
}
