/**
 * The `users` collection of the document store and the operations of
 * app/services/firebase_service.py over it: one document per username,
 * each holding the user's handle, an optional friend list and other fields.
 */
module UserStore {
  import opened Wrappers

  /** A user document. `friends` is None while the field is absent; `otherFields` stands for every field the core does not touch. */
  datatype UserRecord = UserRecord(
    leetcodeUsername: Option<string>,
    friends: Option<seq<string>>,
    otherFields: map<string, string>)

  /** `update` on a document that does not exist is rejected by the store. */
  datatype StoreError = DocumentMissing

  function Count(s: seq<string>, x: string): nat {
    multiset(s)[x]
  }

  predicate NoDuplicates(s: seq<string>) {
    forall i, j :: 0 <= i < j < |s| ==> s[i] != s[j]
  }

  /**
   * `ArrayUnion([x])` applied to the stored field: appends x only if absent;
   * an absent field becomes `[x]`.
   */
  function ArrayUnion(field: Option<seq<string>>, x: string): (r: seq<string>)
    ensures x in r
    ensures field.None? ==> r == [x]
    ensures field.Some? && x in field.value ==> r == field.value
    ensures field.Some? && x !in field.value ==> r == field.value + [x]
    ensures Count(r, x) == if field.Some? && x in field.value then Count(field.value, x) else 1
  {
    var s := field.GetOr([]);
    if x in s then s else s + [x]
  }

  /** `ArrayRemove([x])` on a list: removes every occurrence of x, keeping the order of the rest. */
  function RemoveAll(s: seq<string>, x: string): (r: seq<string>)
    ensures x !in r
    ensures |r| <= |s|
  {
    if s == [] then []
    else (if s[0] == x then [] else [s[0]]) + RemoveAll(s[1..], x)
  }

  /** `ArrayRemove([x])` applied to the stored field; an absent field becomes `[]`. */
  function ArrayRemove(field: Option<seq<string>>, x: string): (r: seq<string>)
    ensures x !in r
    ensures field.None? ==> r == []
    ensures field.Some? ==> forall y :: y != x ==> Count(r, y) == Count(field.value, y)
  {
    var s := field.GetOr([]);
    assert forall y :: y != x ==> Count(RemoveAll(s, x), y) == Count(s, y) by {
      forall y | y != x ensures Count(RemoveAll(s, x), y) == Count(s, y) {
        RemoveAllCounts(s, x, y);
      }
    }
    RemoveAll(s, x)
  }

  /** Removing x keeps every other entry exactly as often as before. */
  lemma {:induction false} RemoveAllCounts(s: seq<string>, x: string, y: string)
    ensures Count(RemoveAll(s, x), y) == if y == x then 0 else Count(s, y)
  {
    if s != [] {
      RemoveAllCounts(s[1..], x, y);
      var head := if s[0] == x then [] else [s[0]];
      assert multiset(RemoveAll(s, x)) == multiset(head) + multiset(RemoveAll(s[1..], x));
      assert s == [s[0]] + s[1..];
      assert multiset(s) == multiset{s[0]} + multiset(s[1..]);
    }
  }

  lemma {:induction false} RemoveAllElements(s: seq<string>, x: string)
    ensures forall e :: e in RemoveAll(s, x) ==> e in s
  {
    if s != [] {
      RemoveAllElements(s[1..], x);
    }
  }

  /** Removing x from a list without duplicates leaves a list without duplicates. */
  lemma {:induction false} RemoveAllKeepsNoDuplicates(s: seq<string>, x: string)
    requires NoDuplicates(s)
    ensures NoDuplicates(RemoveAll(s, x))
  {
    if s != [] {
      var tail := RemoveAll(s[1..], x);
      assert NoDuplicates(s[1..]) by {
        forall i, j | 0 <= i < j < |s[1..]| ensures s[1..][i] != s[1..][j] {
          assert s[1..][i] == s[i + 1] && s[1..][j] == s[j + 1];
        }
      }
      RemoveAllKeepsNoDuplicates(s[1..], x);
      if s[0] != x {
        RemoveAllElements(s[1..], x);
        assert s[0] !in tail by {
          forall k | 0 <= k < |s[1..]| ensures s[1..][k] != s[0] { assert s[1..][k] == s[k + 1]; }
        }
        var r := [s[0]] + tail;
        forall i, j | 0 <= i < j < |r| ensures r[i] != r[j] {
          if i == 0 {
            assert r[j] == tail[j - 1];
          } else {
            assert r[i] == tail[i - 1] && r[j] == tail[j - 1];
          }
        }
      }
    }
  }

  /** A union keeps a duplicate-free list duplicate-free. */
  lemma UnionKeepsNoDuplicates(field: Option<seq<string>>, x: string)
    requires field.Some? ==> NoDuplicates(field.value)
    ensures NoDuplicates(ArrayUnion(field, x))
  {
  }

  /** Adding and then removing a friend is the same as only removing them. */
  lemma {:induction false} RemoveAfterUnion(field: Option<seq<string>>, x: string)
    ensures ArrayRemove(Some(ArrayUnion(field, x)), x) == ArrayRemove(field, x)
  {
    var s := field.GetOr([]);
    if x !in s {
      RemoveAllAppend(s, [x], x);
      assert RemoveAll([x], x) == [] + RemoveAll([], x);
    }
  }

  lemma {:induction false} RemoveAllAppend(a: seq<string>, b: seq<string>, x: string)
    ensures RemoveAll(a + b, x) == RemoveAll(a, x) + RemoveAll(b, x)
  {
    if a != [] {
      RemoveAllAppend(a[1..], b, x);
      assert (a + b)[1..] == a[1..] + b;
    } else {
      assert a + b == b;
    }
  }

  /** The `users` collection. */
  class Users {
    var docs: map<string, UserRecord>

    constructor (docs: map<string, UserRecord>)
      ensures this.docs == docs
    {
      this.docs := docs;
    }

    /** `get_user_data`: None for an empty name or a missing document, otherwise the stored record. */
    function GetUserData(username: string): (r: Option<UserRecord>)
      reads this
      ensures username == "" ==> r.None?
      ensures username != "" ==> (r.Some? <==> username in docs)
      ensures r.Some? ==> r.value == docs[username]
    {
      if username == "" then None
      else if username in docs then Some(docs[username])
      else None
    }

    /** `get_friends`: the stored list, or [] when the user or the field is missing. */
    function GetFriends(mainUsername: string): (r: seq<string>)
      reads this
      ensures GetUserData(mainUsername).None? ==> r == []
      ensures GetUserData(mainUsername).Some? && GetUserData(mainUsername).value.friends.None? ==> r == []
      ensures GetUserData(mainUsername).Some? && GetUserData(mainUsername).value.friends.Some? ==>
                r == GetUserData(mainUsername).value.friends.value
    {
      var userData := GetUserData(mainUsername);
      if userData.Some? then userData.value.friends.GetOr([]) else []
    }

    /**
     * `add_or_update_user`: `set({'leetcode_username': username}, merge=True)` creates
     * the document or sets that one field, keeping the friend list and every other field.
     */
    method AddOrUpdateUser(username: string) returns (ok: bool)
      modifies this
      ensures ok == (username != "")
      ensures !ok ==> docs == old(docs)
      ensures ok && username in old(docs) ==>
                docs == old(docs)[username := old(docs)[username].(leetcodeUsername := Some(username))]
      ensures ok && username !in old(docs) ==>
                docs == old(docs)[username := UserRecord(Some(username), None, map[])]
    {
      if username == "" {
        return false;
      }
      var record := if username in docs then docs[username] else UserRecord(None, None, map[]);
      docs := docs[username := record.(leetcodeUsername := Some(username))];
      ok := true;
    }

    /**
     * `add_friend`: refuses an empty name or the user themself (false); otherwise
     * unions the friend into the main user's list only.
     */
    method AddFriend(mainUsername: string, friendUsername: string) returns (r: Result<bool, StoreError>)
      modifies this
      ensures (mainUsername == "" || friendUsername == "" || mainUsername == friendUsername) ==>
                r == Success(false) && docs == old(docs)
      ensures r == Success(true) <==>
                mainUsername != "" && friendUsername != "" && mainUsername != friendUsername && mainUsername in old(docs)
      ensures r == Failure(DocumentMissing) <==>
                mainUsername != "" && friendUsername != "" && mainUsername != friendUsername && mainUsername !in old(docs)
      ensures r != Success(true) ==> docs == old(docs)
      ensures r == Success(true) ==>
                var rec := old(docs)[mainUsername];
                docs == old(docs)[mainUsername := rec.(friends := Some(ArrayUnion(rec.friends, friendUsername)))]
    {
      if mainUsername == "" || friendUsername == "" || mainUsername == friendUsername {
        return Success(false);
      }
      if mainUsername !in docs {
        return Failure(DocumentMissing);
      }
      var rec := docs[mainUsername];
      docs := docs[mainUsername := rec.(friends := Some(ArrayUnion(rec.friends, friendUsername)))];
      r := Success(true);
    }

    /**
     * `remove_friend`: refuses an empty name (false) but, unlike `add_friend`,
     * not the user themself; removes every occurrence from the main user's list only.
     */
    method RemoveFriend(mainUsername: string, friendUsername: string) returns (r: Result<bool, StoreError>)
      modifies this
      ensures (mainUsername == "" || friendUsername == "") ==> r == Success(false) && docs == old(docs)
      ensures r == Success(true) <==> mainUsername != "" && friendUsername != "" && mainUsername in old(docs)
      ensures r == Failure(DocumentMissing) <==> mainUsername != "" && friendUsername != "" && mainUsername !in old(docs)
      ensures r != Success(true) ==> docs == old(docs)
      ensures r == Success(true) ==>
                var rec := old(docs)[mainUsername];
                docs == old(docs)[mainUsername := rec.(friends := Some(ArrayRemove(rec.friends, friendUsername)))]
    {
      if mainUsername == "" || friendUsername == "" {
        return Success(false);
      }
      if mainUsername !in docs {
        return Failure(DocumentMissing);
      }
      var rec := docs[mainUsername];
      docs := docs[mainUsername := rec.(friends := Some(ArrayRemove(rec.friends, friendUsername)))];
      r := Success(true);
    }
  }
}
