/** The store object over its live users table. */
module AccountStorage {
  import opened Options
  import opened Accounts
  import Tx = Accounts

  class AccountStore {
    var users: Users

    constructor ()
      ensures users == map[]
    {
      users := map[];
    }

    // ok is false for ErrConflict, and then nothing is written.
    method CreateUser(id: UserId, email: string, issuer: string, subject: string) returns (ok: bool)
      modifies this
      ensures var r := Tx.CreateUser(old(users), id, email, issuer, subject);
        ok == r.Some? && users == if ok then r.value else old(users)
      ensures ok <==>
        && id !in old(users)
        && (forall v | v in old(users) :: !SameMailbox(old(users)[v].email, email))
        && (subject != "" ==> forall v | v in old(users) :: old(users)[v].issuer != issuer || old(users)[v].subject != subject)
      ensures users == if ok then old(users)[id := User(email, issuer, subject, 0)] else old(users)
    {
      if id in users || (exists v | v in users :: SameMailbox(users[v].email, email)) {
        return false;
      }
      if subject != "" && exists v | v in users :: Linked(users[v], issuer, subject) {
        return false;
      }
      users := users[id := User(email, issuer, subject, 0)];
      return true;
    }

    // None is ErrNotFound; an empty subject finds nobody.
    method UserByOIDCSubject(issuer: string, subject: string) returns (id: Option<UserId>)
      ensures id.None? <==> !IdentityTaken(users, issuer, subject)
      ensures id.None? && subject != "" ==> forall v | v in users :: users[v].issuer != issuer || users[v].subject != subject
      ensures id.Some? ==> subject != "" && id.value in users && users[id.value].issuer == issuer && users[id.value].subject == subject
    {
      if subject == "" || !(exists v | v in users :: Linked(users[v], issuer, subject)) {
        return None;
      }
      var v :| v in users && Linked(users[v], issuer, subject);
      return Some(v);
    }

    method UserByEmail(email: string) returns (id: Option<UserId>)
      ensures id.None? <==> forall v | v in users :: !SameMailbox(users[v].email, email)
      ensures id.Some? ==> id.value in users && SameMailbox(users[id.value].email, email)
    {
      if !(exists v | v in users :: SameMailbox(users[v].email, email)) {
        return None;
      }
      var v :| v in users && SameMailbox(users[v].email, email);
      return Some(v);
    }

    method LinkOIDCIdentity(id: UserId, issuer: string, subject: string) returns (ok: bool)
      modifies this
      ensures var r := Tx.LinkOIDCIdentity(old(users), id, issuer, subject);
        ok == r.Some? && users == if ok then r.value else old(users)
      ensures ok <==>
        && id in old(users)
        && (old(users)[id].subject == "" || (old(users)[id].issuer == issuer && old(users)[id].subject == subject))
        && (subject != "" ==> forall v | v in old(users) && v != id :: old(users)[v].issuer != issuer || old(users)[v].subject != subject)
      ensures users == if ok then old(users)[id := old(users)[id].(issuer := issuer, subject := subject)] else old(users)
    {
      assert forall v | v in users && v != id :: v in users - {id};
      var matched := id in users && (users[id].subject == "" || (users[id].issuer == issuer && users[id].subject == subject));
      if !matched {
        return false;
      }
      if IdentityTaken(users - {id}, issuer, subject) {
        return false;
      }
      users := users[id := users[id].(issuer := issuer, subject := subject)];
      return true;
    }

    method BumpSessionEpoch(id: UserId) returns (ok: bool)
      modifies this
      ensures var r := Tx.BumpSessionEpoch(old(users), id);
        ok == r.Some? && users == if ok then r.value else old(users)
      ensures ok <==> id in old(users)
      ensures users == if ok then old(users)[id := old(users)[id].(epoch := old(users)[id].epoch + 1)] else old(users)
    {
      if id !in users {
        return false;
      }
      users := users[id := users[id].(epoch := users[id].epoch + 1)];
      return true;
    }
  }
}
