/**
 The users table and the transactions on it (store/sqlite/sqlite_crud.go). Three uniqueness
 rules hold: the id, the e-mail ignoring ASCII case, and (issuer, subject) where the subject
 is not empty.
 */
module Accounts {
  import opened Options

  type UserId = nat

  // An empty subject means no provider identity is linked.
  datatype User = User(email: string, issuer: string, subject: string, epoch: nat)

  type Users = map<UserId, User>

  function LowerChar(c: char): char {
    if 'A' <= c <= 'Z' then c - 'A' + 'a' else c
  }

  // COLLATE NOCASE, and strings.ToLower on ASCII.
  function Lower(s: string): (r: string)
    ensures |r| == |s|
    ensures forall i | 0 <= i < |s| :: r[i] as int == s[i] as int + if 65 <= s[i] as int <= 90 then 32 else 0
  {
    seq(|s|, i requires 0 <= i < |s| => LowerChar(s[i]))
  }

  predicate SameMailbox(a: string, b: string) {
    Lower(a) == Lower(b)
  }

  // Letter for letter the same, or the same but for the case of an ASCII letter.
  predicate SameLetter(a: char, b: char) {
    a == b || (65 <= a as int <= 90 && b as int == a as int + 32) || (65 <= b as int <= 90 && a as int == b as int + 32)
  }

  lemma SameMailboxMeaning(a: string, b: string)
    ensures SameMailbox(a, b) <==> |a| == |b| && forall i | 0 <= i < |a| :: SameLetter(a[i], b[i])
  {
    if |a| == |b| {
      assert SameMailbox(a, b) <==> forall i | 0 <= i < |a| :: Lower(a)[i] == Lower(b)[i];
    }
  }

  predicate Linked(u: User, issuer: string, subject: string) {
    u.issuer == issuer && u.subject == subject
  }

  predicate IdentityTaken(users: Users, issuer: string, subject: string) {
    subject != "" && exists v | v in users :: Linked(users[v], issuer, subject)
  }

  // None is ErrConflict.
  function CreateUser(users: Users, id: UserId, email: string, issuer: string, subject: string): Option<Users> {
    if id in users || (exists v | v in users :: SameMailbox(users[v].email, email)) || IdentityTaken(users, issuer, subject)
    then None
    else Some(users[id := User(email, issuer, subject, 0)])
  }

  // The conditional update: only an unlinked account, or one linked to this very identity.
  // None is ErrConflict, be it zero rows or the identity index.
  function LinkOIDCIdentity(users: Users, id: UserId, issuer: string, subject: string): Option<Users> {
    if id !in users then None
    else if users[id].subject != "" && !Linked(users[id], issuer, subject) then None
    else if IdentityTaken(users - {id}, issuer, subject) then None
    else Some(users[id := users[id].(issuer := issuer, subject := subject)])
  }

  // None is ErrNotFound.
  function BumpSessionEpoch(users: Users, id: UserId): Option<Users> {
    if id !in users then None else Some(users[id := users[id].(epoch := users[id].epoch + 1)])
  }

  // A password account is refused only over its id or its mailbox: any number of accounts
  // are without an identity.
  lemma SignUpRefusedOnlyOverMailbox(users: Users, id: UserId, email: string, issuer: string)
    ensures CreateUser(users, id, email, issuer, "").Some? <==>
      id !in users && forall v | v in users :: !SameMailbox(users[v].email, email)
  {
  }

  // What the unique indexes keep.
  ghost predicate Unique(users: Users) {
    && (forall u, v | u in users && v in users && SameMailbox(users[u].email, users[v].email) :: u == v)
    && (forall u, v | u in users && v in users && users[u].subject != "" && Linked(users[v], users[u].issuer, users[u].subject) :: u == v)
  }

  // Accounts stay, keep their e-mail, keep the identity they are linked to, and their epoch
  // never goes back.
  ghost predicate Evolves(users: Users, users': Users) {
    forall u | u in users ::
      && u in users'
      && users'[u].email == users[u].email
      && users[u].epoch <= users'[u].epoch
      && (users[u].subject != "" ==> Linked(users'[u], users[u].issuer, users[u].subject))
  }

  // Every transaction keeps the indexes and only lets accounts evolve.
  lemma CreateEvolves(users: Users, id: UserId, email: string, issuer: string, subject: string)
    requires Unique(users) && CreateUser(users, id, email, issuer, subject).Some?
    ensures var users' := CreateUser(users, id, email, issuer, subject).value; Unique(users') && Evolves(users, users')
  {
  }

  lemma LinkEvolves(users: Users, id: UserId, issuer: string, subject: string)
    requires Unique(users) && LinkOIDCIdentity(users, id, issuer, subject).Some?
    ensures var users' := LinkOIDCIdentity(users, id, issuer, subject).value; Unique(users') && Evolves(users, users')
  {
    assert forall v | v in users && v != id :: v in users - {id};
  }

  lemma BumpEvolves(users: Users, id: UserId)
    requires Unique(users) && id in users
    ensures var users' := BumpSessionEpoch(users, id).value;
      Unique(users') && Evolves(users, users') && users[id].epoch < users'[id].epoch
  {
  }
}
