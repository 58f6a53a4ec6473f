/**
 resolveOIDCUser as the code runs it from top to bottom (server/handlers_oidc.go): each read
 or write of the users table is one step of the protocol, and for a callback that nobody
 disturbs the outcome is decided exactly.
 */
module OidcCallbacks {
  import opened Options
  import opened Accounts
  import opened AccountStorage
  import opened OidcProtocol
  import opened OidcSafety

  // The usable form of the address the provider shared, if there is one.
  function Address(cfg: Config, id: Identity): string {
    match cfg.canonical(id.email)
    case Some(address) => address
    case None => ""
  }

  // Who may sign in: a known identity, or a verified mailbox whose account, if there is
  // one, is unlinked or linked to this very identity.
  ghost predicate SignsIn(cfg: Config, users: Users, id: Identity) {
    && (cfg.allowedDomains == [] || AllowedAddress(cfg, id))
    && (IdentityTaken(users, id.issuer, id.subject)
        || (id.emailVerified && id.email != "" && Address(cfg, id) != ""
            && forall v | v in users && SameMailbox(users[v].email, Address(cfg, id)) ::
                 users[v].subject == "" || (users[v].issuer == id.issuer && users[v].subject == id.subject)))
  }

  // The account it is: the linked one, else the mailbox's, else a new one.
  ghost predicate ResolvesTo(cfg: Config, users: Users, id: Identity, user: UserId, users': Users) {
    && user in users' && Linked(users'[user], id.issuer, id.subject)
    && (IdentityTaken(users, id.issuer, id.subject) ==> users' == users)
    && (!IdentityTaken(users, id.issuer, id.subject) ==> SameMailbox(users'[user].email, Address(cfg, id)))
    && users' - {user} == users - {user}
    && (user in users ==> users'[user] == users[user].(issuer := id.issuer, subject := id.subject))
    && (user !in users ==>
          && users'[user] == User(Address(cfg, id), id.issuer, id.subject, 0)
          && forall v | v in users :: !SameMailbox(users[v].email, Address(cfg, id)))
  }

  class Callbacks {
    const store: AccountStore
    const cfg: Config
    ghost var trace: Run

    ghost predicate Valid()
      reads this, store
    {
      IsRun(cfg, trace) && Now().users == store.users
    }

    ghost function Now(): System
      reads this
      requires trace.states != []
    {
      Last(trace)
    }

    ghost predicate At(c: CallbackId, id: Identity, phase: Phase)
      reads this
      requires trace.states != []
    {
      c in Now().callbacks && Now().callbacks[c] == Callback(id, phase)
    }

    constructor (store: AccountStore, cfg: Config)
      requires Unique(store.users)
      ensures Valid() && this.store == store && this.cfg == cfg
    {
      this.store, this.cfg := store, cfg;
      trace := Run([System(store.users, map[], {})], []);
    }

    ghost method Took(a: Action, s': System)
      requires IsRun(cfg, trace) && Step(cfg, Now(), a, s')
      modifies this`trace
      ensures IsRun(cfg, trace) && Now() == s'
    {
      trace := Extend(cfg, trace, a, s');
    }

    // None is a refusal; newId is the id a new account would get.
    method ResolveOIDCUser(c: CallbackId, id: Identity, newId: UserId) returns (r: Option<(UserId, nat)>)
      requires Valid() && c !in Now().callbacks && newId !in store.users
      modifies this`trace, store
      ensures Valid()
      ensures r.Some? <==> SignsIn(cfg, old(store.users), id)
      ensures r.None? ==> store.users == old(store.users) && c !in Now().callbacks
      ensures r.Some? ==>
        && ResolvesTo(cfg, old(store.users), id, r.value.0, store.users)
        && r.value.1 == store.users[r.value.0].epoch
        && At(c, id, Resolved(r.value.0, r.value.1))
    {
      GateMeaning(cfg, id);
      if !PassesGate(cfg, id) {
        return None;
      }
      InvHolds(cfg, trace, |trace.states| - 1);
      Took(Arrive(c, id), Now().(callbacks := Now().callbacks[c := Callback(id, Admitted)]));
      var linked := store.UserByOIDCSubject(id.issuer, id.subject);
      if linked.Some? {
        var epoch := store.users[linked.value].epoch;
        Took(FindSubject(c, linked.value), Goto(Now(), c, Resolved(linked.value, epoch)));
        return Some((linked.value, epoch));
      }
      if !HasEmail(cfg, id) {
        Took(Reject(c), Done(Now(), c));
        return None;
      }
      Took(MissSubject(c), Goto(Now(), c, NoSubject));
      r := ResolveByEmail(c, id, newId);
    }

    method ResolveByEmail(c: CallbackId, id: Identity, newId: UserId) returns (r: Option<(UserId, nat)>)
      requires Valid() && At(c, id, NoSubject) && HasEmail(cfg, id) && newId !in store.users && Unique(store.users)
      requires !IdentityTaken(store.users, id.issuer, id.subject)
      modifies this`trace, store
      ensures Valid()
      ensures r.Some? <==> id.emailVerified && forall v | v in old(store.users) && SameMailbox(old(store.users)[v].email, CanonicalEmail(cfg, id)) ::
          old(store.users)[v].subject == "" || Linked(old(store.users)[v], id.issuer, id.subject)
      ensures r.None? ==> store.users == old(store.users) && c !in Now().callbacks
      ensures r.Some? ==>
        && ResolvesTo(cfg, old(store.users), id, r.value.0, store.users)
        && r.value.1 == store.users[r.value.0].epoch
        && At(c, id, Resolved(r.value.0, r.value.1))
    {
      var email := CanonicalEmail(cfg, id);
      var existing := store.UserByEmail(email);
      if existing.Some? {
        var user := store.users[existing.value];
        if !id.emailVerified || (user.subject != "" && (user.issuer != id.issuer || user.subject != id.subject)) {
          Took(Reject(c), Done(Now(), c));
          return None;
        }
        Took(FindEmail(c, existing.value), Goto(Now(), c, Linking(existing.value)));
        r := LinkAndReload(c, id, existing.value);
      } else if !id.emailVerified {
        Took(Reject(c), Done(Now(), c));
        r := None;
      } else {
        ProvisionAccount(c, id, newId);
        r := Some((newId, 0));
      }
    }

    method ProvisionAccount(c: CallbackId, id: Identity, newId: UserId)
      requires Valid() && At(c, id, NoSubject) && HasEmail(cfg, id) && id.emailVerified && newId !in store.users
      requires !IdentityTaken(store.users, id.issuer, id.subject)
      requires forall v | v in store.users :: !SameMailbox(store.users[v].email, CanonicalEmail(cfg, id))
      modifies this`trace, store
      ensures Valid() && At(c, id, Resolved(newId, 0))
      ensures store.users == old(store.users)[newId := User(CanonicalEmail(cfg, id), id.issuer, id.subject, 0)]
    {
      Took(MissEmail(c), Goto(Now(), c, Provisioning));
      var ok := store.CreateUser(newId, CanonicalEmail(cfg, id), id.issuer, id.subject);
      Took(Provision(c, newId), Goto(Now().(users := store.users), c, Resolved(newId, 0)));
    }

    // The account is read again after the link, so that the session gets its current epoch.
    method LinkAndReload(c: CallbackId, id: Identity, target: UserId) returns (r: Option<(UserId, nat)>)
      requires Valid() && At(c, id, Linking(target)) && target in store.users
      requires store.users[target].subject == "" || Linked(store.users[target], id.issuer, id.subject)
      requires !IdentityTaken(store.users, id.issuer, id.subject)
      modifies this`trace, store
      ensures Valid() && r == Some((target, old(store.users)[target].epoch))
      ensures store.users == old(store.users)[target := old(store.users)[target].(issuer := id.issuer, subject := id.subject)]
      ensures At(c, id, Resolved(target, old(store.users)[target].epoch))
    {
      assert forall v | v in store.users - {target} :: v in store.users;
      var ok := store.LinkOIDCIdentity(target, id.issuer, id.subject);
      Took(Link(c), Goto(Now().(users := store.users), c, LinkDone(target)));
      var epoch := store.users[target].epoch;
      Took(Reload(c), Goto(Now(), c, Resolved(target, epoch)));
      return Some((target, epoch));
    }
  }
}
