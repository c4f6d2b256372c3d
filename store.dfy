/**
 * The user store: the list of saved profiles, looked up by email, upserted
 * on save (replace the first profile with the same email, or append) and
 * filtered on delete.
 */
module Store {
  import opened Wrappers
  import opened Seqs
  import opened Model

  /** `users.find(u => u.email === email) || null`. */
  function Find(users: seq<User>, email: string): (r: Option<User>)
    ensures r.None? <==> forall i :: 0 <= i < |users| ==> users[i].email != email
    ensures r.Some? ==> r.value.email == email && r.value in users
  {
    if users == [] then None
    else if users[0].email == email then Some(users[0])
    else Find(users[1..], email)
  }

  /** `users.findIndex(u => u.email === email)`: the first matching position, or -1. */
  function IndexOf(users: seq<User>, email: string): (r: int)
    ensures -1 <= r < |users|
    ensures r == -1 <==> forall i :: 0 <= i < |users| ==> users[i].email != email
    ensures r >= 0 ==> users[r].email == email && forall j :: 0 <= j < r ==> users[j].email != email
  {
    if users == [] then -1
    else if users[0].email == email then 0
    else
      var r := IndexOf(users[1..], email);
      if r == -1 then -1 else r + 1
  }

  /** The first match found by `Find` is the one at `IndexOf`. */
  lemma {:induction false} FindAtIndex(users: seq<User>, email: string)
    ensures IndexOf(users, email) >= 0 ==> Find(users, email) == Some(users[IndexOf(users, email)])
  {
    if users != [] && users[0].email != email {
      FindAtIndex(users[1..], email);
    }
  }

  /** The list after `saveUser(u)`. */
  function Upserted(users: seq<User>, u: User): (r: seq<User>)
    ensures IndexOf(users, u.email) >= 0 ==> |r| == |users| && r[IndexOf(users, u.email)] == u
    ensures IndexOf(users, u.email) == -1 ==> r == users + [u]
    ensures forall i :: 0 <= i < |users| && i != IndexOf(users, u.email) ==> r[i] == users[i]
  {
    var i := IndexOf(users, u.email);
    if i >= 0 then users[i := u] else users + [u]
  }

  /** The list after `deleteUser(email)`. */
  function Deleted(users: seq<User>, email: string): (r: seq<User>)
    ensures forall v :: v in r <==> v in users && v.email != email
  {
    Filter(users, (v: User) => v.email != email)
  }

  /** No two saved profiles share an email. */
  ghost predicate UniqueEmails(users: seq<User>) {
    forall i, j :: 0 <= i < j < |users| ==> users[i].email != users[j].email
  }

  /** Saving and then looking up by the saved email finds exactly the saved profile. */
  lemma FindAfterSave(users: seq<User>, u: User)
    ensures Find(Upserted(users, u), u.email) == Some(u)
  {
    var r := Upserted(users, u);
    var i := IndexOf(users, u.email);
    if i >= 0 {
      assert IndexOf(r, u.email) == i by {
        assert forall j :: 0 <= j < i ==> r[j] == users[j];
      }
      FindAtIndex(r, u.email);
    } else {
      assert r[|users|] == u;
      assert forall j :: 0 <= j < |users| ==> r[j] == users[j];
      FindAtIndex(r, u.email);
    }
  }

  /** Saving one profile leaves every lookup by another email as it was. */
  lemma FindOtherAfterSave(users: seq<User>, u: User, email: string)
    requires email != u.email
    ensures Find(Upserted(users, u), email) == Find(users, email)
  {
    var r := Upserted(users, u);
    var i := IndexOf(users, email);
    if i >= 0 {
      assert IndexOf(users, u.email) != i;
      assert IndexOf(r, email) == i by {
        assert forall j :: 0 <= j <= i && j != IndexOf(users, u.email) ==> r[j] == users[j];
      }
      FindAtIndex(r, email);
      FindAtIndex(users, email);
    } else {
      assert forall j :: 0 <= j < |r| ==> r[j].email != email by {
        forall j | 0 <= j < |r| ensures r[j].email != email {
          if j < |users| && j != IndexOf(users, u.email) { assert r[j] == users[j]; }
        }
      }
    }
  }

  /** Saving keeps the emails unique: an existing profile is replaced, never duplicated. */
  lemma SaveKeepsEmailsUnique(users: seq<User>, u: User)
    requires UniqueEmails(users)
    ensures UniqueEmails(Upserted(users, u))
  {
    var r := Upserted(users, u);
    var k := IndexOf(users, u.email);
    forall i, j | 0 <= i < j < |r| ensures r[i].email != r[j].email {
      if k >= 0 {
        if i != k && j != k {
          assert r[i] == users[i] && r[j] == users[j];
        } else if i == k {
          assert r[j] == users[j];
        } else {
          assert r[i] == users[i];
        }
      } else if j == |users| {
        assert r[i] == users[i];
      } else {
        assert r[i] == users[i] && r[j] == users[j];
      }
    }
  }

  /** Saving the same profile twice is the same as saving it once. */
  lemma SaveIdempotent(users: seq<User>, u: User)
    ensures Upserted(Upserted(users, u), u) == Upserted(users, u)
  {
    var r := Upserted(users, u);
    FindAfterSave(users, u);
    FindAtIndex(r, u.email);
    var k := IndexOf(r, u.email);
    assert r[k] == u;
    assert r[k := u] == r;
  }

  /** After deleting an email no profile with it is found, and every other lookup is unchanged. */
  lemma {:induction false} FindAfterDelete(users: seq<User>, email: string, other: string)
    requires other != email
    ensures Find(Deleted(users, email), email).None?
    ensures Find(Deleted(users, email), other) == Find(users, other)
  {
    if users != [] {
      FindAfterDelete(users[1..], email, other);
      assert users == [users[0]] + users[1..];
      FilterAppend([users[0]], users[1..], (v: User) => v.email != email);
    }
  }

  /** The saved profile list (`evo_v4_users`). */
  class UserStore {
    var users: seq<User>

    constructor ()
      ensures users == []
    {
      users := [];
    }

    /** `Store.saveUser`: replace the profile with the same email, or append it. */
    method SaveUser(u: User)
      modifies this
      ensures users == Upserted(old(users), u)
    {
      var idx := IndexOf(users, u.email);
      if idx >= 0 {
        users := users[idx := u];
      } else {
        users := users + [u];
      }
    }

    /** `Store.deleteUser`: keep every profile with another email, in order. */
    method DeleteUser(email: string)
      modifies this
      ensures users == Deleted(old(users), email)
    {
      users := Filter(users, (v: User) => v.email != email);
    }
  }
}
